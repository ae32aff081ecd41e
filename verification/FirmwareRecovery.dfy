/** Crash recovery, termination and the boot after an update. */
module FirmwareRecovery {
  import opened Structs
  import opened FirmwareTables
  import opened VersionCompare
  import opened FirmwareFlow
  import opened FirmwareSafety
  import opened FirmwareRuns

  // ---------- crash recovery ----------

  /** The statuses a restart must not leave in the table. */
  predicate Interrupted(status: Status) {
    status in {Downloading, DownloadPause, Installing, InstallSuccess}
  }

  ghost predicate SameTables(s: State, t: State) {
    s.tasks == t.tasks && s.components == t.components && s.files == t.files
  }

  lemma RestoreLeavesNoneInterrupted(dev: Device, s: State, spaceEnough: bool)
    requires |s.tasks| <= 1
    ensures !Interrupted(QueryStatus(RestoreUpdate(dev, s, spaceEnough).tasks))
    ensures |RestoreUpdate(dev, s, spaceEnough).tasks| <= 1
  {
  }

  /** Restoring what is already restored touches no table and starts nothing. */
  lemma RestoreSettledIsNothing(dev: Device, s: State, spaceEnough: bool)
    requires !Interrupted(QueryStatus(s.tasks))
    ensures RestoreUpdate(dev, s, spaceEnough) == s
  {
  }

  lemma RestoreIdempotent(dev: Device, s: State, first: bool, second: bool)
    requires |s.tasks| <= 1
    ensures RestoreUpdate(dev, RestoreUpdate(dev, s, first), second) == RestoreUpdate(dev, s, first)
  {
    RestoreLeavesNoneInterrupted(dev, s, first);
    RestoreSettledIsNothing(dev, RestoreUpdate(dev, s, first), second);
  }

  predicate AllRestarts(steps: seq<Step>) {
    forall i :: 0 <= i < |steps| ==> steps[i].RestartStep?
  }

  predicate ResetPending(s: State) {
    s.reason == Some(REASON_PROCESS_ENV_RESET)
  }

  lemma RestartLeavesNoneInterrupted(dev: Device, s: State, bootSeconds: int, spaceEnough: bool)
    requires |s.tasks| <= 1
    ensures var t := Restart(dev, s, bootSeconds, spaceEnough);
            !Interrupted(QueryStatus(t.tasks)) && |t.tasks| <= 1 && (!ResetPending(s) ==> !ResetPending(t))
  {
    var (startupReason, recorded) := StartupReason(s.reason, bootSeconds);
    var started := s.(downloads := [], installs := [], reason := recorded,
                      bootPending := startupReason == REASON_DEVICE_REBOOT);
    RestoreLeavesNoneInterrupted(dev, ManagerInit(started, startupReason), spaceEnough);
  }

  lemma RestartSettledKeepsTables(dev: Device, s: State, bootSeconds: int, spaceEnough: bool)
    requires !Interrupted(QueryStatus(s.tasks)) && !ResetPending(s)
    ensures SameTables(s, Restart(dev, s, bootSeconds, spaceEnough))
  {
  }

  lemma {:induction false} RestartsKeepTables(dev: Device, s: State, restarts: seq<Step>)
    requires |s.tasks| <= 1 && !Interrupted(QueryStatus(s.tasks)) && !ResetPending(s) && AllRestarts(restarts)
    ensures SameTables(s, Run(dev, s, restarts))
    decreases |restarts|
  {
    if restarts != [] {
      var step := restarts[0];
      RestartSettledKeepsTables(dev, s, step.bootSeconds, step.spaceEnough);
      RestartLeavesNoneInterrupted(dev, s, step.bootSeconds, step.spaceEnough);
      RestartsKeepTables(dev, Next(dev, s, step), restarts[1..]);
    }
  }

  predicate LateStart(step: Step) {
    step.RestartStep? && step.bootSeconds > BOOT_COMPLETE_SIMULATE_DURATION
  }

  predicate SomeLate(restarts: seq<Step>) {
    exists i :: 0 <= i < |restarts| && LateStart(restarts[i])
  }

  predicate NothingStored(s: State) {
    s.tasks == [] && s.components == [] && s.files == map[]
  }

  /** A restart with a reset on record: inside the boot window it changes nothing, outside it empties all. */
  lemma ResetRestart(dev: Device, s: State, bootSeconds: int, spaceEnough: bool)
    requires |s.tasks| <= 1 && !Interrupted(QueryStatus(s.tasks)) && ResetPending(s)
    ensures var t := Restart(dev, s, bootSeconds, spaceEnough);
            if bootSeconds > BOOT_COMPLETE_SIMULATE_DURATION then NothingStored(t) && !ResetPending(t)
            else SameTables(s, t) && ResetPending(t)
  {
  }

  lemma {:induction false} ResetRestarts(dev: Device, s: State, restarts: seq<Step>)
    requires |s.tasks| <= 1 && !Interrupted(QueryStatus(s.tasks)) && ResetPending(s) && AllRestarts(restarts)
    ensures var t := Run(dev, s, restarts); if SomeLate(restarts) then NothingStored(t) else SameTables(s, t)
    decreases |restarts|
  {
    if restarts != [] {
      var step, rest := restarts[0], restarts[1..];
      ResetRestart(dev, s, step.bootSeconds, step.spaceEnough);
      var t := Next(dev, s, step);
      assert SomeLate(restarts) <==> LateStart(step) || SomeLate(rest) by {
        assert forall i :: 1 <= i < |restarts| ==> restarts[i] == rest[i - 1];
        assert forall i :: 0 <= i < |rest| ==> rest[i] == restarts[i + 1];
      }
      if LateStart(step) {
        RestartsKeepTables(dev, t, rest);
      } else {
        ResetRestarts(dev, t, rest);
      }
    }
  }

  /** From any reachable state: a restart leaves no task interrupted, and any number of restarts in a row, at
      whatever times, leaves both tables and the package files as the first one does, if and only if the first
      carries out what is on record, or nothing is stored after it, or no later one comes outside the boot window:
      a reset on record waits for the first start there. */
  lemma CrashRecovery(dev: Device, steps: seq<Step>, restarts: seq<Step>)
    requires restarts != [] && AllRestarts(restarts)
    ensures var s := Run(dev, INITIAL, steps);
            var t := Next(dev, s, restarts[0]);
            && !Interrupted(QueryStatus(t.tasks))
            && (SameTables(t, Run(dev, s, restarts)) <==>
                !ResetPending(s) || LateStart(restarts[0]) || NothingStored(t) || !SomeLate(restarts[1..]))
  {
    TablesInEveryRun(dev, steps);
    var s := Run(dev, INITIAL, steps);
    var first := restarts[0];
    RestartLeavesNoneInterrupted(dev, s, first.bootSeconds, first.spaceEnough);
    RestartKeepsReset(dev, s, first.bootSeconds, first.spaceEnough);
    var t := Next(dev, s, first);
    if ResetPending(s) && !LateStart(first) {
      ResetRestarts(dev, t, restarts[1..]);
    } else {
      RestartsKeepTables(dev, t, restarts[1..]);
    }
  }

  lemma RestartKeepsReset(dev: Device, s: State, bootSeconds: int, spaceEnough: bool)
    ensures ResetPending(Restart(dev, s, bootSeconds, spaceEnough)) <==>
            ResetPending(s) && bootSeconds <= BOOT_COMPLETE_SIMULATE_DURATION
  {
    var (startupReason, recorded) := StartupReason(s.reason, bootSeconds);
    var started := s.(downloads := [], installs := [], reason := recorded,
                      bootPending := startupReason == REASON_DEVICE_REBOOT);
    RestoreKeepsReason(dev, ManagerInit(started, startupReason), spaceEnough);
  }

  /** An install interrupted by the crash is issued again, and accepted: a flow starts if and only if there is
      space and the packages are complete, and incomplete packages empty the tables. */
  lemma ReissuedInstallAccepted(dev: Device, s: State, spaceEnough: bool)
    requires |s.tasks| == 1
    requires s.tasks[0].status == Installing || s.tasks[0].status == InstallSuccess
    ensures var t := RestoreUpdate(dev, s, spaceEnough);
            && (|t.installs| == |s.installs| + 1 <==> spaceEnough && PackagesReady(s.files, s.components))
            && (spaceEnough && !PackagesReady(s.files, s.components) ==> Cleared(t))
            && (!Cleared(t) ==> CanInstall(dev, t.tasks))
  {
    var rows := UpdateProgress(s.components, UrlsInStatus(s.components, Installing),
                               DownloadSuccess, ONE_HUNDRED);
    ReadyKept(s.files, s.components, rows);
  }

  lemma ReadyKept(files: map<string, string>, a: seq<Component>, b: seq<Component>)
    requires SameRows(a, b)
    ensures PackagesReady(files, a) <==> PackagesReady(files, b)
  {
    if PackagesReady(files, a) {
      forall c | c in b
        ensures c.spath in files && |files[c.spath]| == c.size
      {
        var i :| 0 <= i < |b| && b[i] == c;
        assert a[i] in a;
      }
    }
    if PackagesReady(files, b) {
      forall c | c in a
        ensures c.spath in files && |files[c.spath]| == c.size
      {
        var i :| 0 <= i < |a| && a[i] == c;
        assert b[i] in b;
      }
    }
  }

  // ---------- termination ----------

  /** No start in `steps` comes later than the boot window. */
  predicate StartsInBootWindow(steps: seq<Step>) {
    forall i :: 0 <= i < |steps| ==>
      steps[i].RestartStep? ==> steps[i].bootSeconds <= BOOT_COMPLETE_SIMULATE_DURATION
  }

  lemma RestoreKeepsReason(dev: Device, s: State, spaceEnough: bool)
    ensures RestoreUpdate(dev, s, spaceEnough).reason == s.reason
  {
  }

  lemma StepKeepsReset(dev: Device, s: State, step: Step)
    requires ResetPending(s)
    requires step.RestartStep? ==> step.bootSeconds <= BOOT_COMPLETE_SIMULATE_DURATION
    ensures ResetPending(Next(dev, s, step))
  {
    if step.RestartStep? {
      var started := s.(downloads := [], installs := [], bootPending := true);
      RestoreKeepsReason(dev, started, step.spaceEnough);
    }
  }

  lemma {:induction false} RunKeepsReset(dev: Device, s: State, steps: seq<Step>)
    requires ResetPending(s) && StartsInBootWindow(steps)
    ensures ResetPending(Run(dev, s, steps))
    decreases |steps|
  {
    if steps != [] {
      StepKeepsReset(dev, s, steps[0]);
      RunKeepsReset(dev, Next(dev, s, steps[0]), steps[1..]);
    }
  }

  /** A terminated upgrade does not survive the first start outside the boot window, whatever steps of the upgrade
      come before it, and the request is then off the record. */
  lemma TerminatedTaskGone(dev: Device, s: State, steps: seq<Step>, bootSeconds: int, spaceEnough: bool)
    requires StartsInBootWindow(steps) && bootSeconds > BOOT_COMPLETE_SIMULATE_DURATION
    ensures var before := Run(dev, Next(dev, s, TerminateStep), steps);
            var t := Next(dev, before, RestartStep(bootSeconds, spaceEnough));
            Cleared(t) && t.reason == None
  {
    RunKeepsReset(dev, Next(dev, s, TerminateStep), steps);
  }

  /** The first start after a termination leaves what is stored, in a task that recovery leaves alone, if and only
      if it comes inside the boot window or nothing is stored. */
  lemma TerminatedTaskSurvivesBoot(dev: Device, s: State, bootSeconds: int, spaceEnough: bool)
    requires |s.tasks| <= 1 && !Interrupted(QueryStatus(s.tasks))
    ensures SameTables(s, Next(dev, Next(dev, s, TerminateStep), RestartStep(bootSeconds, spaceEnough))) <==>
            bootSeconds <= BOOT_COMPLETE_SIMULATE_DURATION || NothingStored(s)
  {
    ResetRestart(dev, Next(dev, s, TerminateStep), bootSeconds, spaceEnough);
  }

  /** A version stored, terminated, and started twice: inside the boot window its task is still there, and the next
      start outside it takes it away. One restart and two then differ. */
  lemma TerminatedRun(dev: Device, items: seq<ServerItem>, early: int, late: int, space: bool)
    requires items != [] && early <= BOOT_COMPLETE_SIMULATE_DURATION < late
    ensures var s := Run(dev, INITIAL, [Offer(items)] + [TerminateStep] + [RestartStep(early, space)]);
            && Holding(dev, s, items, CheckVersionSuccess)
            && NothingStored(Next(dev, s, RestartStep(late, space)))
  {
    var first := RestartStep(early, space);
    OfferRun(dev, items);
    RunThen(dev, INITIAL, [Offer(items)], TerminateStep);
    RunThen(dev, INITIAL, [Offer(items)] + [TerminateStep], first);
    var t := Run(dev, INITIAL, [Offer(items)] + [TerminateStep]);
    ResetRestart(dev, t, early, space);
    ResetRestart(dev, Next(dev, t, first), late, space);
  }

  // ---------- the boot after an update ----------

  /** The verdict on one row: the updater's record of its path, or else the running version. */
  predicate Passed(results: map<string, string>, displayVersion: string, c: Component) {
    if c.spath in results then results[c.spath] == "pass" else c.versionNumber == displayVersion
  }

  /** The first row with the path. */
  function FirstWith(components: seq<Component>, path: string): (r: Component)
    requires exists c :: c in components && c.spath == path
    ensures r in components && r.spath == path
    decreases |components|
  {
    if components[0].spath == path then components[0]
    else
      assert exists c :: c in components[1..] && c.spath == path by {
        var c :| c in components && c.spath == path;
        var i :| 0 <= i < |components| && components[i] == c;
        assert components[1..][i - 1] == c;
      }
      FirstWith(components[1..], path)
  }

  /** The boot finds success exactly when every package passed. Rows that share a path share the verdict on the first
      of them. */
  lemma {:induction false} AllPassedMeaning(results: map<string, string>, displayVersion: string,
                                            components: seq<Component>)
    ensures AllPassed(results, displayVersion, components) <==>
            forall c :: c in components ==> Passed(results, displayVersion, FirstWith(components, c.spath))
    decreases |components|
  {
    if components != [] {
      var c, rest := components[0], components[1..];
      var result := if c.spath in results then results[c.spath]
                    else if c.versionNumber == displayVersion then "pass" else "fail";
      var noted := results[c.spath := result];
      AllPassedMeaning(noted, displayVersion, rest);
      assert c in components && FirstWith(components, c.spath) == c;
      forall x | x in rest
        ensures x in components
        ensures Passed(noted, displayVersion, FirstWith(rest, x.spath)) ==
                Passed(results, displayVersion, FirstWith(components, x.spath))
      {
      }
      assert forall x :: x in components <==> x == c || x in rest;
    }
  }

  ghost predicate DistinctPaths(components: seq<Component>) {
    forall i, j :: 0 <= i < j < |components| ==> components[i].spath != components[j].spath
  }

  /** With distinct paths that is each row's own verdict. */
  lemma AllPassedDistinct(results: map<string, string>, displayVersion: string, components: seq<Component>)
    requires DistinctPaths(components)
    ensures AllPassed(results, displayVersion, components) <==>
            forall c :: c in components ==> Passed(results, displayVersion, c)
  {
    AllPassedMeaning(results, displayVersion, components);
    forall c | c in components
      ensures FirstWith(components, c.spath) == c
    {
      var f := FirstWith(components, c.spath);
      var i :| 0 <= i < |components| && components[i] == c;
      var j :| 0 <= j < |components| && components[j] == f;
      assert i == j;
    }
  }

  ghost predicate HotaRows(components: seq<Component>) {
    forall i :: 0 <= i < |components| ==> components[i].blVersionType == HOTA_TYPE
  }

  /** Every check result of the run comes from an analysed server response. */
  ghost predicate AnalysedChecks(steps: seq<Step>) {
    forall i :: 0 <= i < |steps| ==>
      steps[i].CheckStep? ==> exists items :: steps[i].list == Analysed(items)
  }

  lemma StepKeepsHota(dev: Device, s: State, step: Step)
    requires HotaRows(s.components)
    requires step.CheckStep? ==> exists items :: step.list == Analysed(items)
    ensures HotaRows(Next(dev, s, step).components)
  {
    StepShape(dev, s, step);
  }

  lemma {:induction false} RunKeepsHota(dev: Device, s: State, steps: seq<Step>)
    requires HotaRows(s.components) && AnalysedChecks(steps)
    ensures HotaRows(Run(dev, s, steps).components)
    decreases |steps|
  {
    if steps != [] {
      StepKeepsHota(dev, s, steps[0]);
      RunKeepsHota(dev, Next(dev, s, steps[0]), steps[1..]);
    }
  }

  /** Versions come from the server, so every task is a HOTA task, and the boot that finds one updating always
      empties both tables and sends exactly one event: success if and only if all packages passed. */
  lemma BootFinishesUpdate(dev: Device, steps: seq<Step>, results: map<string, string>, displayVersion: string)
    requires AnalysedChecks(steps)
    ensures var s := Run(dev, INITIAL, steps);
            var t := Next(dev, s, BootStep(results, displayVersion));
            s.bootPending && QueryStatus(s.tasks) == Updating ==>
              && Cleared(t)
              && t.events == s.events + [if AllPassed(results, displayVersion, s.components)
                                         then UpgradeSuccess(s.tasks[0].taskId)
                                         else UpgradeFail(s.tasks[0].taskId)]
  {
    TablesInEveryRun(dev, steps);
    RunKeepsHota(dev, INITIAL, steps);
    var s := Run(dev, INITIAL, steps);
    if s.components != [] {
      assert s.components[0] in s.components;
    }
  }

  /** A reboot and its boot result. A start at most 60 seconds after the boot is one of a reboot: the update it finds
      is finished, with both tables emptied and exactly one event, success if and only if all packages passed. Any
      other start leaves it to wait, tables and events alone, unless a reset on record empties the tables. Either
      way the boot result is taken once. */
  lemma RebootFinishesUpdate(dev: Device, steps: seq<Step>, boot: int, space: bool, results: map<string, string>,
                             version: string, again: map<string, string>)
    requires AnalysedChecks(steps) && QueryStatus(Run(dev, INITIAL, steps).tasks) == Updating
    ensures var s := Run(dev, INITIAL, steps);
            var t := Next(dev, Next(dev, s, RestartStep(boot, space)), BootStep(results, version));
            && (if boot <= 60 then
                  && NothingStored(t)
                  && t.events == s.events + [if AllPassed(results, version, s.components)
                                             then UpgradeSuccess(s.tasks[0].taskId)
                                             else UpgradeFail(s.tasks[0].taskId)]
                else
                  t.events == s.events && if s.reason == Some(2) then NothingStored(t) else SameTables(s, t))
            && Next(dev, t, BootStep(again, version)) == t
  {
    TablesInEveryRun(dev, steps);
    RunKeepsHota(dev, INITIAL, steps);
    var s := Run(dev, INITIAL, steps);
    assert s.components != [] && s.components[0] in s.components;
    RunReason(dev, INITIAL, steps);
    RebootFound(dev, s, boot, space);
    BootTaken(dev, Next(dev, s, RestartStep(boot, space)), results, version, again);
  }

  /** All that is ever on record is a reset. */
  lemma {:induction false} RunReason(dev: Device, s: State, steps: seq<Step>)
    requires s.reason == None || s.reason == Some(2)
    ensures var t := Run(dev, s, steps); t.reason == None || t.reason == Some(2)
    decreases |steps|
  {
    if steps != [] {
      StepReason(dev, s, steps[0]);
      RunReason(dev, Next(dev, s, steps[0]), steps[1..]);
    }
  }

  /** What a start finds of an update under way. */
  lemma RebootFound(dev: Device, s: State, boot: int, space: bool)
    requires |s.tasks| == 1 && s.tasks[0].status == Updating && (s.reason == None || s.reason == Some(2))
    ensures var t := Next(dev, s, RestartStep(boot, space));
            && t.events == s.events
            && (boot <= 60 ==> SameTables(s, t) && t.bootPending)
            && (boot > 60 ==> !t.bootPending && if s.reason == Some(2) then NothingStored(t) else SameTables(s, t))
  {
  }

  lemma BootTaken(dev: Device, s: State, results: map<string, string>, version: string, again: map<string, string>)
    ensures var t := Next(dev, s, BootStep(results, version));
            && Next(dev, t, BootStep(again, version)) == t
            && (!s.bootPending ==> t == s)
  {
  }
}
