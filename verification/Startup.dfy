/** The life of the service process: it is started, serves clients and checks, finds itself idle, arms the
    timer that will start it again and unloads. Client callbacks and the firmware upgrade are those of their
    own modules; a run goes across any number of starts. */
module Startup {
  import opened Structs
  import CallbackRegistry
  import FirmwareTables
  import FirmwareFlow
  import FirmwareSafety
  import RestartReason

  const FIVE_MINUTES_SECONDS := 300
  const ONE_SECOND_MILLISECONDS := 1000
  const PULLUP_INTERVAL: uint64 := 4 * 60 * 60
  const IDLE_CHECK_INTERVAL: uint64 := 5 * 60
  const PULLUP_AFTER_TERMINATE_INTERVAL: uint64 := 5
  const NEVER := -1

  datatype AccessType = DEFAULT | FIRMWARE | PARAM | DOWNLOAD | REPORT

  datatype Access = DefaultAccess | FirmwareAccess

  /** Seconds between restarts of the service, and between idle checks. */
  datatype Config = Config(pullup: uint64, idleCheck: uint64)

  /** `running` holds the start times of the checks still waiting for the server, oldest first; `armed` the
      delay, in milliseconds, of the restart timer last armed. */
  datatype Process = Process(registry: CallbackRegistry.Registry, flow: FirmwareFlow.State,
                             accesses: map<AccessType, Access>, checking: bool, lastCheck: int,
                             running: seq<int>, lastIdle: int, minDelay: uint64, config: Config,
                             armed: Option<uint64>)

  function Abs(x: int): int {
    if x < 0 then -x else x
  }

  /** The firmware upgrade, as a function on its state. */
  type Upgrade = (FirmwareFlow.State, FirmwareFlow.Step) -> FirmwareFlow.State

  function UpgradeOf(dev: FirmwareFlow.Device): Upgrade {
    (s, step) => FirmwareFlow.Next(dev, s, step)
  }

  // ---------- configuration ----------

  function ParseConfig(value: Option<uint64>, standard: uint64): (r: uint64)
    ensures standard > 0 ==> r > 0
  {
    if value.Some? && value.value > 0 then value.value else standard
  }

  /** The configuration file may be missing, and so may either of its entries. */
  function LoadConfig(file: Option<(Option<uint64>, Option<uint64>)>): Config {
    match file
    case None => Config(PULLUP_INTERVAL, IDLE_CHECK_INTERVAL)
    case Some((pullup, idleCheck)) =>
      Config(ParseConfig(pullup, PULLUP_INTERVAL), ParseConfig(idleCheck, IDLE_CHECK_INTERVAL))
  }

  // ---------- checks ----------

  predicate IsChecking(p: Process, now: int) {
    !(p.lastCheck != NEVER && Abs(now - p.lastCheck) > FIVE_MINUTES_SECONDS) && p.checking
  }

  /** A check is refused while one is on, while an update is, and without a network. */
  function BeginCheck(p: Process, now: int, net: bool): Process {
    if IsChecking(p, now) || FirmwareTables.QueryStatus(p.flow.tasks) == FirmwareTables.Updating || !net then p
    else p.(checking := true, lastCheck := now, running := p.running + [now])
  }

  /** The server's answer to the check at `k`, whether or not another has begun since. */
  function EndCheck(up: Upgrade, p: Process, k: nat, status: FirmwareFlow.CheckStatus,
                    list: seq<FirmwareTables.Component>): Process
    requires k < |p.running|
  {
    p.(checking := false, running := FirmwareFlow.RemoveAt(p.running, k),
       flow := up(p.flow, FirmwareFlow.CheckStep(status, list)))
  }

  // ---------- the idle loop ----------

  predicate AccessIdle(p: Process, access: Access, now: int) {
    match access
    case DefaultAccess => true
    case FirmwareAccess => !IsChecking(p, now) && p.flow.tasks == []
  }

  predicate AllIdle(p: Process, now: int) {
    p.registry.remoteIdle && forall t :: t in p.accesses ==> AccessIdle(p, p.accesses[t], now)
  }

  /** The reason is recorded whether or not the timer can be armed. The product is a 64-bit one. */
  function ScheduleTask(p: Process, reason: int, delay: uint64, timerOk: bool): Process {
    p.(flow := p.flow.(reason := Some(reason)),
       armed := if timerOk then Some(delay * ONE_SECOND_MILLISECONDS % TWO_64) else p.armed)
  }

  function IdleCheck(p: Process, now: int): (Process, bool) {
    if Abs(now - p.lastIdle) < ToInt64(p.config.idleCheck) then (p, false)
    else
      var q := p.(lastIdle := now);
      if AllIdle(q, now) then (q.(minDelay := q.config.pullup), true) else (q, false)
  }

  /** One pass of the loop, and whether it ends in unloading the service. */
  function LoopPass(p: Process, now: int, timerOk: bool): (Process, bool) {
    var (q, idle) := IdleCheck(p, now);
    if !idle then (q, false)
    else (ScheduleTask(q, FirmwareFlow.REASON_UNKNOWN, q.minDelay, timerOk), timerOk)
  }

  // ---------- starts and runs ----------

  function StartProcess(up: Upgrade, p: Process, now: int, bootSeconds: int, spaceEnough: bool,
                        file: Option<(Option<uint64>, Option<uint64>)>): Process {
    Process(CallbackRegistry.EMPTY, up(p.flow, FirmwareFlow.RestartStep(bootSeconds, spaceEnough)), map[FIRMWARE := FirmwareAccess],
            false, NEVER, [], now, 0, LoadConfig(file), p.armed)
  }

  const FACTORY := Process(CallbackRegistry.EMPTY, FirmwareFlow.INITIAL, map[FIRMWARE := FirmwareAccess], false,
                           NEVER, [], 0, 0, Config(PULLUP_INTERVAL, IDLE_CHECK_INTERVAL), None)

  datatype Event =
    | ClientEvent(client: CallbackRegistry.Step)
    | FirmwareEvent(step: FirmwareFlow.Step)
    | CheckEvent(now: int, net: bool)
    | AnswerEvent(now: int, k: nat, status: FirmwareFlow.CheckStatus, list: seq<FirmwareTables.Component>)
    | TerminateEvent(timerOk: bool)
    | LoopEvent(now: int, timerOk: bool)
    | StartEvent(now: int, bootSeconds: int, spaceEnough: bool, file: Option<(Option<uint64>, Option<uint64>)>)

  /** Steps of the upgrade that no other event stands for. */
  predicate Internal(step: FirmwareFlow.Step) {
    !step.CheckStep? && !step.TerminateStep? && !step.RestartStep?
  }

  function Next(up: Upgrade, p: Process, e: Event): Process {
    match e
    case ClientEvent(step) => p.(registry := CallbackRegistry.Next(p.registry, step))
    case FirmwareEvent(step) => if Internal(step) then p.(flow := up(p.flow, step)) else p
    case CheckEvent(now, net) => BeginCheck(p, now, net)
    case AnswerEvent(now, k, status, list) => if k < |p.running| then EndCheck(up, p, k, status, list) else p
    case TerminateEvent(timerOk) =>
      ScheduleTask(p, FirmwareFlow.REASON_PROCESS_ENV_RESET, PULLUP_AFTER_TERMINATE_INTERVAL, timerOk)
    case LoopEvent(now, timerOk) => LoopPass(p, now, timerOk).0
    case StartEvent(now, boot, space, file) => StartProcess(up, p, now, boot, space, file)
  }

  function Run(up: Upgrade, p: Process, events: seq<Event>): Process
    decreases |events|
  {
    if events == [] then p else Run(up, Next(up, p, events[0]), events[1..])
  }

  // ---------- what every event keeps ----------

  ghost predicate Configured(p: Process) {
    p.accesses == map[FIRMWARE := FirmwareAccess] && p.config.pullup > 0 && p.config.idleCheck > 0
  }

  ghost predicate Sane(dev: FirmwareFlow.Device, p: Process) {
    && CallbackRegistry.Consistent(p.registry)
    && FirmwareSafety.Tables(dev, p.flow)
    && Configured(p)
  }

  ghost predicate KeepsTables(dev: FirmwareFlow.Device, up: Upgrade) {
    forall s, step :: FirmwareSafety.Tables(dev, s) ==> FirmwareSafety.Tables(dev, up(s, step))
  }

  /** The recorded reason is the business of starts and of terminations alone. */
  ghost predicate HandsOver(up: Upgrade) {
    forall s, step :: up(s, step).reason ==
      match step
      case RestartStep(boot, _) => FirmwareFlow.StartupReason(s.reason, boot).1
      case TerminateStep => Some(FirmwareFlow.REASON_PROCESS_ENV_RESET)
      case _ => s.reason
  }

  lemma UpgradeLawful(dev: FirmwareFlow.Device)
    ensures KeepsTables(dev, UpgradeOf(dev)) && HandsOver(UpgradeOf(dev))
  {
    var up := UpgradeOf(dev);
    forall s, step | FirmwareSafety.Tables(dev, s)
      ensures FirmwareSafety.Tables(dev, up(s, step))
    {
      FirmwareSafety.StepKeepsTables(dev, s, step);
    }
    forall s, step
      ensures up(s, step).reason ==
              match step
              case RestartStep(boot, _) => FirmwareFlow.StartupReason(s.reason, boot).1
              case TerminateStep => Some(FirmwareFlow.REASON_PROCESS_ENV_RESET)
              case _ => s.reason
    {
      FirmwareSafety.StepReason(dev, s, step);
    }
  }

  lemma EventSane(dev: FirmwareFlow.Device, up: Upgrade, p: Process, e: Event)
    requires Sane(dev, p) && KeepsTables(dev, up)
    ensures Sane(dev, Next(up, p, e))
  {
    EventRegistry(up, p, e);
    EventTables(dev, up, p, e);
    EventConfig(up, p, e);
  }

  lemma EventTables(dev: FirmwareFlow.Device, up: Upgrade, p: Process, e: Event)
    requires FirmwareSafety.Tables(dev, p.flow) && KeepsTables(dev, up)
    ensures FirmwareSafety.Tables(dev, Next(up, p, e).flow)
  {
  }

  lemma EventConfig(up: Upgrade, p: Process, e: Event)
    requires Configured(p)
    ensures Configured(Next(up, p, e))
  {
  }

  lemma EventRegistry(up: Upgrade, p: Process, e: Event)
    requires CallbackRegistry.Consistent(p.registry)
    ensures CallbackRegistry.Consistent(Next(up, p, e).registry)
  {
    if e.ClientEvent? {
      CallbackRegistry.StepConsistent(p.registry, e.client);
    }
  }

  lemma {:induction false} RunSane(dev: FirmwareFlow.Device, up: Upgrade, p: Process, events: seq<Event>)
    requires Sane(dev, p) && KeepsTables(dev, up)
    ensures Sane(dev, Run(up, p, events))
    decreases |events|
  {
    if events != [] {
      EventSane(dev, up, p, events[0]);
      RunSane(dev, up, Next(up, p, events[0]), events[1..]);
    }
  }

  lemma SaneInEveryRun(dev: FirmwareFlow.Device, events: seq<Event>)
    ensures Sane(dev, Run(UpgradeOf(dev), FACTORY, events))
  {
    UpgradeLawful(dev);
    RunSane(dev, UpgradeOf(dev), FACTORY, events);
  }

  /** In every reachable state, a pass unloads the service if and only if the idle interval has passed, no client
      callback is registered, both tables are empty, no check is on, and the timer could be armed. */
  lemma ExitExactly(dev: FirmwareFlow.Device, events: seq<Event>, now: int, timerOk: bool)
    ensures var p := Run(UpgradeOf(dev), FACTORY, events);
            LoopPass(p, now, timerOk).1 <==>
              && Abs(now - p.lastIdle) >= ToInt64(p.config.idleCheck)
              && p.registry.clients == map[]
              && p.flow.tasks == [] && p.flow.components == []
              && !IsChecking(p, now)
              && timerOk
  {
    SaneInEveryRun(dev, events);
    var p := Run(UpgradeOf(dev), FACTORY, events);
    assert p.accesses[FIRMWARE] == FirmwareAccess;
  }

  /** The timer is then armed with the interval that was configured if and only if that many milliseconds fit
      64 bits; it is a positive one in that case. */
  lemma ExitArmed(dev: FirmwareFlow.Device, events: seq<Event>, now: int, timerOk: bool)
    requires LoopPass(Run(UpgradeOf(dev), FACTORY, events), now, timerOk).1
    ensures var p := Run(UpgradeOf(dev), FACTORY, events);
            var t := LoopPass(p, now, timerOk).0;
            && t.armed.Some?
            && (t.armed.value == p.config.pullup * ONE_SECOND_MILLISECONDS <==>
                p.config.pullup * ONE_SECOND_MILLISECONDS < TWO_64)
            && (t.armed.value > 0 <==> p.config.pullup * ONE_SECOND_MILLISECONDS % TWO_64 != 0)
            && (p.config.pullup * ONE_SECOND_MILLISECONDS < TWO_64 ==> t.armed.value > 0)
  {
    SaneInEveryRun(dev, events);
    PassArms(Run(UpgradeOf(dev), FACTORY, events), now, timerOk);
  }

  lemma PassArms(p: Process, now: int, timerOk: bool)
    requires LoopPass(p, now, timerOk).1
    ensures LoopPass(p, now, timerOk).0.armed == Some(p.config.pullup * ONE_SECOND_MILLISECONDS % TWO_64)
  {
  }

  /** Both intervals are the configured ones; one that is missing or zero is four hours between starts, or five
      minutes between idle checks. */
  lemma ConfigLoaded(pullup: Option<uint64>, idleCheck: Option<uint64>)
    ensures LoadConfig(None) == Config(14400, 300)
    ensures LoadConfig(Some((pullup, idleCheck))).pullup ==
            if pullup.Some? && pullup.value > 0 then pullup.value else 14400
    ensures LoadConfig(Some((pullup, idleCheck))).idleCheck ==
            if idleCheck.Some? && idleCheck.value > 0 then idleCheck.value else 300
  {
  }

  /** A start takes its configuration and the time, and knows of no client and no check. */
  lemma StartedFresh(up: Upgrade, p: Process, now: int, boot: int, space: bool,
                     file: Option<(Option<uint64>, Option<uint64>)>)
    ensures var t := Next(up, p, StartEvent(now, boot, space, file));
            && t.config == LoadConfig(file) && t.lastIdle == now && !t.checking && t.running == []
            && t.registry.clients == map[] && t.registry.remoteIdle
  {
  }

  /** A check begins exactly with a network, no update under way, and none begun in the last five minutes that is
      still marked as on. */
  lemma CheckBegins(up: Upgrade, p: Process, now: int, net: bool)
    requires |p.flow.tasks| <= 1
    ensures var on := p.checking && (p.lastCheck == -1 || -300 <= now - p.lastCheck <= 300);
            var updating := p.flow.tasks != [] && p.flow.tasks[0].status == FirmwareTables.Updating;
            Next(up, p, CheckEvent(now, net)) ==
              if net && !on && !updating
              then p.(checking := true, lastCheck := now, running := p.running + [now]) else p
  {
  }

  /** An answer ends its check, whatever others run, and is taken by the upgrade; steps of clients and of the upgrade
      are taken by the table and by the upgrade. */
  lemma EventsTaken(up: Upgrade, p: Process, now: int, k: nat, status: FirmwareFlow.CheckStatus,
                    list: seq<FirmwareTables.Component>, client: CallbackRegistry.Step, step: FirmwareFlow.Step)
    requires k < |p.running| && !step.CheckStep? && !step.TerminateStep? && !step.RestartStep?
    ensures var t := Next(up, p, AnswerEvent(now, k, status, list));
            && !t.checking && t.running == p.running[..k] + p.running[k + 1..] && t.lastCheck == p.lastCheck
            && t.flow == up(p.flow, FirmwareFlow.CheckStep(status, list))
    ensures Next(up, p, ClientEvent(client)) == p.(registry := CallbackRegistry.Next(p.registry, client))
    ensures Next(up, p, FirmwareEvent(step)) == p.(flow := up(p.flow, step))
  {
  }

  /** The service is not unloaded within an idle interval of its start or of the last pass that looked. */
  lemma PassesSpaced(p: Process, now: int, timerOk: bool, later: int, laterOk: bool)
    ensures Abs(now - p.lastIdle) < ToInt64(p.config.idleCheck) ==> LoopPass(p, now, timerOk) == (p, false)
    ensures var t := LoopPass(p, now, timerOk).0;
            Abs(now - p.lastIdle) >= ToInt64(p.config.idleCheck) && Abs(later - now) < ToInt64(p.config.idleCheck) ==>
              t.lastIdle == now && LoopPass(t, later, laterOk) == (t, false)
  {
  }

  /** A termination asks for a start five seconds later, for a reset. */
  lemma TerminationArms(up: Upgrade, p: Process)
    ensures var t := Next(up, p, TerminateEvent(true)); t.armed == Some(5000) && t.flow.reason == Some(2)
    ensures Next(up, p, TerminateEvent(false)) == p.(flow := p.flow.(reason := Some(2)))
  {
  }

  // ---------- checks the loop does not see ----------

  predicate Young(start: int, now: int) {
    now - start <= FIVE_MINUTES_SECONDS
  }

  /** Every running check younger than five minutes is the one the status cache tells of. */
  ghost predicate Seen(p: Process, now: int) {
    && (forall i :: 0 <= i < |p.running| ==> 0 <= p.running[i] <= now)
    && (forall i :: 0 <= i < |p.running| && Young(p.running[i], now) ==>
          p.checking && p.lastCheck == p.running[i])
  }

  /** Two running checks began more than five minutes apart. */
  ghost predicate Spaced(p: Process) {
    forall i, j :: 0 <= i < j < |p.running| ==> p.running[j] - p.running[i] > FIVE_MINUTES_SECONDS
  }

  /** Apart from the check at `k`, none younger than five minutes is running. */
  predicate NoOtherYoung(p: Process, k: nat, now: int) {
    forall i :: 0 <= i < |p.running| && i != k ==> !Young(p.running[i], now)
  }

  lemma TimePasses(p: Process, now: int, later: int)
    requires Seen(p, now) && now <= later
    ensures Seen(p, later)
  {
  }

  lemma BeginSeen(p: Process, now: int, net: bool)
    requires Seen(p, now) && Spaced(p) && now >= 0
    ensures Seen(BeginCheck(p, now, net), now) && Spaced(BeginCheck(p, now, net))
  {
    forall i | 0 <= i < |p.running| && !IsChecking(p, now)
      ensures !Young(p.running[i], now)
    {
    }
  }

  /** An answer keeps the running checks in sight if and only if no other young one is running. */
  lemma AnswerSeen(up: Upgrade, p: Process, now: int, k: nat, status: FirmwareFlow.CheckStatus,
                   list: seq<FirmwareTables.Component>)
    requires Seen(p, now) && Spaced(p) && k < |p.running|
    ensures Seen(EndCheck(up, p, k, status, list), now) <==> NoOtherYoung(p, k, now)
  {
    var t := EndCheck(up, p, k, status, list);
    assert forall i :: 0 <= i < |t.running| ==> t.running[i] == p.running[if i < k then i else i + 1];
    if Seen(t, now) {
      forall i | 0 <= i < |p.running| && i != k
        ensures !Young(p.running[i], now)
      {
        assert t.running[if i < k then i else i - 1] == p.running[i];
      }
    }
  }

  lemma AnswerSpaced(up: Upgrade, p: Process, k: nat, status: FirmwareFlow.CheckStatus,
                     list: seq<FirmwareTables.Component>)
    requires Spaced(p) && k < |p.running|
    ensures Spaced(EndCheck(up, p, k, status, list))
  {
    var t := EndCheck(up, p, k, status, list);
    assert forall i :: 0 <= i < |t.running| ==> t.running[i] == p.running[if i < k then i else i + 1];
  }

  /** An answer that comes within five minutes leaves no other young check. */
  lemma PromptAnswer(p: Process, now: int, k: nat)
    requires Seen(p, now) && Spaced(p) && k < |p.running| && Young(p.running[k], now)
    ensures NoOtherYoung(p, k, now)
  {
    forall i | 0 <= i < |p.running| && i != k
      ensures !Young(p.running[i], now)
    {
      if i < k {
        assert p.running[k] - p.running[i] > FIVE_MINUTES_SECONDS;
      }
    }
  }

  function TimeOf(e: Event, now: int): int {
    match e
    case CheckEvent(t, _) => t
    case AnswerEvent(t, _, _, _) => t
    case LoopEvent(t, _) => t
    case StartEvent(t, _, _, _) => t
    case _ => now
  }

  /** The clock never goes back, and no answer comes while another check younger than five minutes runs. */
  predicate Orderly(up: Upgrade, p: Process, events: seq<Event>, now: int)
    decreases |events|
  {
    events == [] ||
    (var t := TimeOf(events[0], now);
     && now <= t
     && (events[0].AnswerEvent? && events[0].k < |p.running| ==> NoOtherYoung(p, events[0].k, t))
     && Orderly(up, Next(up, p, events[0]), events[1..], t))
  }

  function EndTime(events: seq<Event>, now: int): int
    decreases |events|
  {
    if events == [] then now else EndTime(events[1..], TimeOf(events[0], now))
  }

  lemma OtherEvents(up: Upgrade, p: Process, e: Event)
    requires !e.CheckEvent? && !(e.AnswerEvent? && e.k < |p.running|)
    ensures var t := Next(up, p, e);
            t.running == [] || (t.running, t.checking, t.lastCheck) == (p.running, p.checking, p.lastCheck)
  {
  }

  lemma EventSeen(up: Upgrade, p: Process, e: Event, now: int)
    requires Seen(p, now) && Spaced(p) && 0 <= now <= TimeOf(e, now)
    requires e.AnswerEvent? && e.k < |p.running| ==> NoOtherYoung(p, e.k, TimeOf(e, now))
    ensures Seen(Next(up, p, e), TimeOf(e, now)) && Spaced(Next(up, p, e))
  {
    TimePasses(p, now, TimeOf(e, now));
    if e.CheckEvent? {
      BeginSeen(p, e.now, e.net);
      assert Next(up, p, e) == BeginCheck(p, e.now, e.net);
    } else if e.AnswerEvent? && e.k < |p.running| {
      AnswerSeen(up, p, e.now, e.k, e.status, e.list);
      AnswerSpaced(up, p, e.k, e.status, e.list);
      assert Next(up, p, e) == EndCheck(up, p, e.k, e.status, e.list);
    } else {
      OtherEvents(up, p, e);
    }
  }

  lemma {:induction false} RunSeen(up: Upgrade, p: Process, events: seq<Event>, now: int)
    requires Seen(p, now) && Spaced(p) && 0 <= now && Orderly(up, p, events, now)
    ensures Seen(Run(up, p, events), EndTime(events, now)) && 0 <= now <= EndTime(events, now)
    decreases |events|
  {
    if events != [] {
      var t := TimeOf(events[0], now);
      EventSeen(up, p, events[0], now);
      RunSeen(up, Next(up, p, events[0]), events[1..], t);
    }
  }

  predicate Clocked(events: seq<Event>, now: int)
    decreases |events|
  {
    events == [] || (now <= TimeOf(events[0], now) && Clocked(events[1..], TimeOf(events[0], now)))
  }

  /** In every state of the run, a check younger than five minutes is the one the status cache tells of. */
  ghost predicate SeenThroughout(up: Upgrade, p: Process, events: seq<Event>, now: int)
    decreases |events|
  {
    Seen(p, now) &&
    (events == [] || SeenThroughout(up, Next(up, p, events[0]), events[1..], TimeOf(events[0], now)))
  }

  lemma {:induction false} RunSeenExactly(up: Upgrade, p: Process, events: seq<Event>, now: int)
    requires Seen(p, now) && Spaced(p) && 0 <= now && Clocked(events, now)
    ensures SeenThroughout(up, p, events, now) <==> Orderly(up, p, events, now)
    decreases |events|
  {
    if events != [] {
      var e, t := events[0], TimeOf(events[0], now);
      if e.AnswerEvent? && e.k < |p.running| && !NoOtherYoung(p, e.k, t) {
        TimePasses(p, now, t);
        AnswerSeen(up, p, t, e.k, e.status, e.list);
        assert Next(up, p, e) == EndCheck(up, p, e.k, e.status, e.list);
      } else {
        EventSeen(up, p, e, now);
        RunSeenExactly(up, Next(up, p, e), events[1..], t);
      }
    }
  }

  /** With a clock that never goes back, no young check is ever hidden if and only if no answer arrives while
      another young check runs. */
  lemma NoneHiddenExactly(dev: FirmwareFlow.Device, events: seq<Event>)
    requires Clocked(events, 0)
    ensures SeenThroughout(UpgradeOf(dev), FACTORY, events, 0) <==> Orderly(UpgradeOf(dev), FACTORY, events, 0)
  {
    RunSeenExactly(UpgradeOf(dev), FACTORY, events, 0);
  }

  /** In an orderly run, a pass that unloads the service finds no running check younger than five minutes. */
  lemma ExitLeavesNoCheck(dev: FirmwareFlow.Device, events: seq<Event>, now: int, timerOk: bool)
    requires Orderly(UpgradeOf(dev), FACTORY, events, 0) && EndTime(events, 0) <= now
    requires LoopPass(Run(UpgradeOf(dev), FACTORY, events), now, timerOk).1
    ensures var p := Run(UpgradeOf(dev), FACTORY, events);
            forall i :: 0 <= i < |p.running| ==> now - p.running[i] > FIVE_MINUTES_SECONDS
  {
    var p := Run(UpgradeOf(dev), FACTORY, events);
    RunSeen(UpgradeOf(dev), FACTORY, events, 0);
    ExitExactly(dev, events, now, timerOk);
    TimePasses(p, EndTime(events, 0), now);
  }

  /** Without that: a check that outlives its five minutes lets a second begin, its answer hides the second,
      and the service unloads with a check one minute old. */
  lemma HiddenCheck(dev: FirmwareFlow.Device)
    ensures var events := [CheckEvent(0, true), CheckEvent(400, true),
                           AnswerEvent(450, 0, FirmwareFlow.CheckFail, [])];
            var p := Run(UpgradeOf(dev), FACTORY, events);
            && p.running == [400]
            && LoopPass(p, 460, true).1
  {
    var up := UpgradeOf(dev);
    var e0, e1 := CheckEvent(0, true), CheckEvent(400, true);
    var e2 := AnswerEvent(450, 0, FirmwareFlow.CheckFail, []);
    var p1 := Next(up, FACTORY, e0);
    var p2 := Next(up, p1, e1);
    var p3 := Next(up, p2, e2);
    assert p1.running == [0] && p2.running == [0, 400] && p3.running == [400];
    assert [e0, e1, e2][1..] == [e1, e2] && [e1, e2][1..] == [e2];
    assert Run(up, p2, [e2]) == p3;
    assert Run(up, p1, [e1, e2]) == p3;
    assert AllIdle(p3.(lastIdle := 460), 460);
  }

  // ---------- the restart reason over a whole run ----------

  /** What an event does to the recorded reason. */
  function Traced(p: Process, e: Event): seq<RestartReason.Event> {
    match e
    case TerminateEvent(_) => [RestartReason.Schedule(FirmwareFlow.REASON_PROCESS_ENV_RESET)]
    case LoopEvent(now, _) =>
      if IdleCheck(p, now).1 then [RestartReason.Schedule(FirmwareFlow.REASON_UNKNOWN)] else []
    case StartEvent(_, boot, _, _) => [RestartReason.Start(boot)]
    case _ => []
  }

  function Trace(up: Upgrade, p: Process, events: seq<Event>): seq<RestartReason.Event>
    decreases |events|
  {
    if events == [] then [] else Traced(p, events[0]) + Trace(up, Next(up, p, events[0]), events[1..])
  }

  lemma EventRecord(up: Upgrade, p: Process, e: Event, history: seq<RestartReason.Event>)
    requires HandsOver(up) && p.flow.reason == RestartReason.Record(history)
    ensures Next(up, p, e).flow.reason == RestartReason.Record(history + Traced(p, e))
  {
    var traced := Traced(p, e);
    if traced != [] {
      assert (history + traced)[..|history|] == history;
    } else {
      assert history + traced == history;
    }
  }

  lemma TraceJoined(a: seq<RestartReason.Event>, b: seq<RestartReason.Event>, c: seq<RestartReason.Event>)
    ensures a + (b + c) == a + b + c
  {
  }

  lemma {:induction false} RunRecord(up: Upgrade, p: Process, events: seq<Event>,
                                     history: seq<RestartReason.Event>)
    requires HandsOver(up) && p.flow.reason == RestartReason.Record(history)
    ensures Run(up, p, events).flow.reason == RestartReason.Record(history + Trace(up, p, events))
    decreases |events|
  {
    if events == [] {
      assert history + [] == history;
    } else {
      var q := Next(up, p, events[0]);
      EventRecord(up, p, events[0], history);
      RunRecord(up, q, events[1..], history + Traced(p, events[0]));
      TraceJoined(history, Traced(p, events[0]), Trace(up, q, events[1..]));
    }
  }

  /** A start after any run sets the environment up afresh if and only if it is the start a termination was
      handed to; the tables are then empty. */
  lemma ResetStart(dev: FirmwareFlow.Device, events: seq<Event>, boot: int, space: bool)
    ensures var trace := Trace(UpgradeOf(dev), FACTORY, events) + [RestartReason.Start(boot)];
            var s := Run(UpgradeOf(dev), FACTORY, events).flow;
            var reset := FirmwareFlow.StartupReason(s.reason, boot).0 == FirmwareFlow.REASON_PROCESS_ENV_RESET;
            && (reset <==> exists k: nat :: RestartReason.HandedTo(trace, k, |trace| - 1) &&
                             trace[k].reason == FirmwareFlow.REASON_PROCESS_ENV_RESET)
            && (reset ==> FirmwareSafety.Cleared(FirmwareFlow.Restart(dev, s, boot, space)))
  {
    var before := Trace(UpgradeOf(dev), FACTORY, events);
    var trace := before + [RestartReason.Start(boot)];
    UpgradeLawful(dev);
    RunRecord(UpgradeOf(dev), FACTORY, events, []);
    assert [] + before == before && trace[..|trace| - 1] == before;
    RestartReason.ResetReported(trace, |trace| - 1);
    var s := Run(UpgradeOf(dev), FACTORY, events).flow;
    if FirmwareFlow.StartupReason(s.reason, boot).0 == FirmwareFlow.REASON_PROCESS_ENV_RESET {
      ResetClears(dev, s, boot, space);
    }
  }

  // ---------- termination against the idle loop ----------

  /** No start outside the boot window. */
  predicate Untouched(e: Event) {
    e.StartEvent? ==> e.bootSeconds <= FirmwareFlow.BOOT_COMPLETE_SIMULATE_DURATION
  }

  ghost predicate TerminationPending(p: Process) {
    p.flow.reason == Some(FirmwareFlow.REASON_PROCESS_ENV_RESET)
  }

  lemma PendingKept(up: Upgrade, p: Process, e: Event)
    requires HandsOver(up) && TerminationPending(p) && Untouched(e)
    requires e.LoopEvent? ==> !IdleCheck(p, e.now).1
    ensures TerminationPending(Next(up, p, e))
  {
  }

  /** A pass of the idle loop that finds nothing to do; there is then no task. */
  predicate IdlePass(p: Process, e: Event) {
    e.LoopEvent? && IdleCheck(p, e.now).1 && p.flow.tasks == [] && p.flow.components == []
  }

  /** Only an idle pass can take a pending termination off the record, and it finds empty tables. */
  lemma {:induction false} PendingOrIdle(dev: FirmwareFlow.Device, up: Upgrade, p: Process, events: seq<Event>)
    returns (i: nat)
    requires Sane(dev, p) && KeepsTables(dev, up) && HandsOver(up) && TerminationPending(p)
    requires forall j :: 0 <= j < |events| ==> Untouched(events[j])
    ensures i <= |events|
    ensures i == |events| ==> TerminationPending(Run(up, p, events))
    ensures i < |events| ==> IdlePass(Run(up, p, events[..i]), events[i])
    decreases |events|
  {
    if events == [] {
      i := 0;
    } else if events[0].LoopEvent? && IdleCheck(p, events[0].now).1 {
      i := 0;
      assert p.accesses[FIRMWARE] == FirmwareAccess;
    } else {
      PendingKept(up, p, events[0]);
      EventSane(dev, up, p, events[0]);
      i := PendingOrIdle(dev, up, Next(up, p, events[0]), events[1..]);
      i := i + 1;
      if i < |events| {
        assert events[..i][1..] == events[1..][..i - 1];
      }
    }
  }

  /** The task of a terminated upgrade never survives the next start outside the boot window: that start empties
      the tables, unless an idle pass before it found them empty and put its own record in place of the request. */
  lemma TerminationHolds(dev: FirmwareFlow.Device, p: Process, timerOk: bool, events: seq<Event>, boot: int,
                         space: bool)
    requires Sane(dev, p) && boot > FirmwareFlow.BOOT_COMPLETE_SIMULATE_DURATION
    requires forall j :: 0 <= j < |events| ==> Untouched(events[j])
    ensures var up := UpgradeOf(dev);
            var q := Next(up, p, TerminateEvent(timerOk));
            || FirmwareSafety.Cleared(FirmwareFlow.Restart(dev, Run(up, q, events).flow, boot, space))
            || exists i :: 0 <= i < |events| && IdlePass(Run(up, q, events[..i]), events[i])
  {
    var up := UpgradeOf(dev);
    var q := Next(up, p, TerminateEvent(timerOk));
    UpgradeLawful(dev);
    EventSane(dev, up, p, TerminateEvent(timerOk));
    var i := PendingOrIdle(dev, up, q, events);
    if i == |events| {
      ResetClears(dev, Run(up, q, events).flow, boot, space);
    }
  }

  lemma ResetClears(dev: FirmwareFlow.Device, s: FirmwareFlow.State, boot: int, space: bool)
    requires FirmwareFlow.StartupReason(s.reason, boot).0 == FirmwareFlow.REASON_PROCESS_ENV_RESET
    ensures FirmwareSafety.Cleared(FirmwareFlow.Restart(dev, s, boot, space))
  {
  }

  // ---------- the service's own code ----------

  class StartupManager {
    var process: Process

    constructor ()
      ensures process == FACTORY
    {
      process := FACTORY;
    }

    method CheckingNow(now: int) returns (checking: bool)
      ensures checking == IsChecking(process, now)
    {
      if process.lastCheck != NEVER && Abs(now - process.lastCheck) > FIVE_MINUTES_SECONDS {
        return false;
      }
      return process.checking;
    }

    method SetIsChecking(checking: bool, now: int)
      modifies this
      ensures process == old(process).(checking := checking,
                                       lastCheck := if checking then now else old(process).lastCheck)
    {
      process := process.(checking := checking);
      if process.checking {
        process := process.(lastCheck := now);
      }
    }

    method IsIdle(now: int) returns (idle: bool)
      ensures idle == AllIdle(process, now)
    {
      if !process.registry.remoteIdle {
        return false;
      }
      var left := process.accesses.Keys;
      while left != {}
        invariant left <= process.accesses.Keys
        invariant forall t :: t in process.accesses && t !in left ==>
                    AccessIdle(process, process.accesses[t], now)
        decreases |left|
      {
        var t :| t in left;
        if !AccessIdle(process, process.accesses[t], now) {
          return false;
        }
        left := left - {t};
      }
      return true;
    }

    method Schedule(reason: int, delay: uint64, timerOk: bool) returns (ok: bool)
      modifies this
      ensures process == ScheduleTask(old(process), reason, delay, timerOk) && ok == timerOk
    {
      var milliseconds := delay * ONE_SECOND_MILLISECONDS % TWO_64;
      process := process.(flow := process.flow.(reason := Some(reason)));
      if timerOk {
        process := process.(armed := Some(milliseconds));
      }
      return timerOk;
    }

    method Check(now: int) returns (idle: bool)
      modifies this
      ensures (process, idle) == IdleCheck(old(process), now)
    {
      if Abs(now - process.lastIdle) < ToInt64(process.config.idleCheck) {
        return false;
      }
      process := process.(lastIdle := now);
      idle := IsIdle(now);
      if idle {
        process := process.(minDelay := process.config.pullup);
      }
    }

    /** The body of the idle loop; `exits` when it reaches the unloading of the service. */
    method Looper(now: int, timerOk: bool) returns (exits: bool)
      modifies this
      ensures (process, exits) == LoopPass(old(process), now, timerOk)
    {
      var idle := Check(now);
      if !idle {
        return false;
      }
      exits := Schedule(FirmwareFlow.REASON_UNKNOWN, process.minDelay, timerOk);
    }
  }
}
