/** The client kits and the service they find, lose and find again. A service process is an incarnation with a
    number of its own; its callback table starts empty. Each kit keeps the callbacks it registered and replays
    them to the next incarnation it connects to. */
module ServiceKit {
  import opened Structs

  type Client = nat

  type Callbacks = map<UpgradeInfo, nat>

  datatype Kit = Kit(handle: Option<nat>, callbacks: Callbacks)

  const NEW_KIT := Kit(None, map[])

  /** `registry` is the callback table of the live incarnation; `notices` are deaths a kit is still to hear of. */
  datatype World = World(live: Option<nat>, next: nat, registry: Callbacks, kits: map<Client, Kit>,
                         notices: set<(Client, nat)>)

  const START := World(None, 0, map[], map[], {})

  function KitOf(w: World, c: Client): Kit {
    if c in w.kits then w.kits[c] else NEW_KIT
  }

  predicate Connected(w: World, c: Client) {
    w.live.Some? && KitOf(w, c).handle == w.live
  }

  function ServiceStarts(w: World): World {
    if w.live.Some? then w else w.(live := Some(w.next), next := w.next + 1, registry := map[])
  }

  function ServiceDies(w: World): World {
    if w.live.None? then w
    else w.(live := None, registry := map[],
            notices := w.notices + (set c | c in w.kits && w.kits[c].handle == w.live :: (c, w.live.value)))
  }

  /** The death recipient: only a handle to the incarnation that died is dropped. */
  function ResetService(w: World, c: Client, incarnation: nat): World {
    if (c, incarnation) !in w.notices then w
    else
      var kit := KitOf(w, c);
      w.(notices := w.notices - {(c, incarnation)},
         kits := w.kits[c := if kit.handle == Some(incarnation) then kit.(handle := None) else kit])
  }

  /** A kit that holds a handle keeps it, live or not. Otherwise it takes the live incarnation, or has one
      loaded, and replays its callbacks. */
  function GetService(w: World, c: Client, loaded: bool): World {
    if KitOf(w, c).handle.Some? then w
    else
      var v := if loaded then ServiceStarts(w) else w;
      if v.live.None? then v
      else Connect(v, c)
  }

  function Connect(v: World, c: Client): World
    requires v.live.Some?
  {
    v.(registry := v.registry + KitOf(v, c).callbacks, kits := v.kits[c := KitOf(v, c).(handle := v.live)])
  }

  /** A call on a dead incarnation fails and changes nothing. */
  function RegisterCallback(w: World, c: Client, info: UpgradeInfo, callback: nat, loaded: bool): World {
    var v := GetService(w, c, loaded);
    if !Connected(v, c) then v
    else v.(registry := v.registry[info := callback],
            kits := v.kits[c := KitOf(v, c).(callbacks := KitOf(v, c).callbacks[info := callback])])
  }

  /** The kit forgets the callback; the service is not told. */
  function UnregisterCallback(w: World, c: Client, info: UpgradeInfo): World {
    w.(kits := w.kits[c := KitOf(w, c).(callbacks := KitOf(w, c).callbacks - {info})])
  }

  datatype Step =
    | StartStep
    | DeathStep
    | NoticeStep(client: Client, incarnation: nat)
    | CallStep(client: Client, loaded: bool)
    | RegisterStep(client: Client, info: UpgradeInfo, callback: nat, loaded: bool)
    | UnregisterStep(client: Client, info: UpgradeInfo)

  function Next(w: World, step: Step): World {
    match step
    case StartStep => ServiceStarts(w)
    case DeathStep => ServiceDies(w)
    case NoticeStep(c, incarnation) => ResetService(w, c, incarnation)
    case CallStep(c, loaded) => GetService(w, c, loaded)
    case RegisterStep(c, info, callback, loaded) => RegisterCallback(w, c, info, callback, loaded)
    case UnregisterStep(c, info) => UnregisterCallback(w, c, info)
  }

  function Run(w: World, steps: seq<Step>): World
    decreases |steps|
  {
    if steps == [] then w else Run(Next(w, steps[0]), steps[1..])
  }

  // ---------- what a connected kit can rely on ----------

  type Owner = UpgradeInfo -> Client

  /** Every key in a kit's map belongs to that kit, and handles are to incarnations that have existed. */
  ghost predicate Sound(owner: Owner, w: World) {
    && (forall c, info :: c in w.kits && info in w.kits[c].callbacks ==> owner(info) == c)
    && (forall c :: c in w.kits && w.kits[c].handle.Some? ==> w.kits[c].handle.value < w.next)
    && (w.live.Some? ==> w.live.value < w.next)
  }

  ghost predicate Serves(w: World, c: Client) {
    forall info :: info in KitOf(w, c).callbacks ==>
      info in w.registry && w.registry[info] == KitOf(w, c).callbacks[info]
  }

  /** Whenever a kit's handle is to the live service, the service has exactly the kit's callback for each of
      the kit's keys. */
  ghost predicate Replayed(w: World) {
    forall c :: c in w.kits && Connected(w, c) ==> Serves(w, c)
  }

  ghost predicate Kept(owner: Owner, w: World) {
    Sound(owner, w) && Replayed(w)
  }

  predicate Owned(owner: Owner, step: Step) {
    step.RegisterStep? ==> owner(step.info) == step.client
  }

  lemma StartKeeps(owner: Owner, w: World)
    requires Kept(owner, w)
    ensures Kept(owner, ServiceStarts(w))
  {
  }

  /** Connecting one kit disturbs no other: their keys are their own. */
  lemma CallKeeps(owner: Owner, w: World, c: Client, loaded: bool)
    requires Kept(owner, w)
    ensures Kept(owner, GetService(w, c, loaded))
  {
    StartKeeps(owner, w);
    var v := if loaded then ServiceStarts(w) else w;
    var t := GetService(w, c, loaded);
    if KitOf(w, c).handle.None? && v.live.Some? {
      assert Kept(owner, v) && KitOf(v, c) == KitOf(w, c);
      ConnectServes(owner, v, c);
    }
  }

  lemma ConnectServes(owner: Owner, v: World, c: Client)
    requires Kept(owner, v) && v.live.Some?
    ensures Kept(owner, Connect(v, c))
  {
    var t := Connect(v, c);
    forall d | d in t.kits && Connected(t, d)
      ensures Serves(t, d)
    {
      assert KitOf(t, d).callbacks == KitOf(v, d).callbacks;
      if d != c {
        assert d in v.kits && Connected(v, d) && Serves(v, d);
        forall info | info in KitOf(t, d).callbacks
          ensures info in t.registry && t.registry[info] == KitOf(t, d).callbacks[info]
        {
          assert owner(info) == d;
          assert info !in KitOf(v, c).callbacks;
        }
      }
    }
  }

  lemma RegisterKeeps(owner: Owner, w: World, c: Client, info: UpgradeInfo, callback: nat, loaded: bool)
    requires Kept(owner, w) && owner(info) == c
    ensures Kept(owner, RegisterCallback(w, c, info, callback, loaded))
  {
    CallKeeps(owner, w, c, loaded);
    var v := GetService(w, c, loaded);
    var t := RegisterCallback(w, c, info, callback, loaded);
    if Connected(v, c) {
      forall d | d in t.kits && Connected(t, d)
        ensures Serves(t, d)
      {
        assert Serves(v, d);
      }
    }
  }

  lemma NoticeKeeps(owner: Owner, w: World, c: Client, incarnation: nat)
    requires Kept(owner, w)
    ensures Kept(owner, ResetService(w, c, incarnation))
  {
    var t := ResetService(w, c, incarnation);
    forall d | d in t.kits && Connected(t, d)
      ensures Serves(t, d)
    {
      assert KitOf(t, d).callbacks == KitOf(w, d).callbacks;
    }
  }

  lemma UnregisterKeeps(owner: Owner, w: World, c: Client, info: UpgradeInfo)
    requires Kept(owner, w)
    ensures Kept(owner, UnregisterCallback(w, c, info))
  {
    var t := UnregisterCallback(w, c, info);
    forall d | d in t.kits && Connected(t, d)
      ensures Serves(t, d)
    {
      if d in w.kits {
        assert Connected(w, d) && Serves(w, d);
      }
    }
  }

  lemma StepKeeps(owner: Owner, w: World, step: Step)
    requires Kept(owner, w) && Owned(owner, step)
    ensures Kept(owner, Next(w, step))
  {
    match step
    case StartStep => StartKeeps(owner, w);
    case DeathStep =>
    case NoticeStep(c, incarnation) => NoticeKeeps(owner, w, c, incarnation);
    case CallStep(c, loaded) => CallKeeps(owner, w, c, loaded);
    case RegisterStep(c, info, callback, loaded) => RegisterKeeps(owner, w, c, info, callback, loaded);
    case UnregisterStep(c, info) => UnregisterKeeps(owner, w, c, info);
  }

  predicate OwnedRun(owner: Owner, steps: seq<Step>) {
    forall i :: 0 <= i < |steps| ==> Owned(owner, steps[i])
  }

  lemma {:induction false} RunKeeps(owner: Owner, w: World, steps: seq<Step>)
    requires Kept(owner, w) && OwnedRun(owner, steps)
    ensures Kept(owner, Run(w, steps))
    decreases |steps|
  {
    if steps != [] {
      StepKeeps(owner, w, steps[0]);
      RunKeeps(owner, Next(w, steps[0]), steps[1..]);
    }
  }

  /** Across every interleaving of service deaths, late death notices, reconnections, registrations and calls
      of any number of clients, each registering only keys of its own: a kit whose handle is to the live
      service has every one of its callbacks registered there, unaltered. */
  lemma ReconnectProtocol(owner: Owner, steps: seq<Step>, c: Client)
    requires OwnedRun(owner, steps)
    ensures var w := Run(START, steps);
            Connected(w, c) ==> Serves(w, c)
  {
    RunKeeps(owner, START, steps);
  }

  /** A registration that reaches the service is known to it and to the kit; one that does not is known to neither
      as new. */
  lemma RegisteredBoth(w: World, c: Client, info: UpgradeInfo, callback: nat, loaded: bool)
    ensures var t := RegisterCallback(w, c, info, callback, loaded);
            && (Connected(GetService(w, c, loaded), c) ==>
                  && Connected(t, c)
                  && info in t.registry && t.registry[info] == callback
                  && info in KitOf(t, c).callbacks && KitOf(t, c).callbacks[info] == callback
                  && KitOf(t, c).callbacks - {info} == KitOf(w, c).callbacks - {info})
            && (!Connected(GetService(w, c, loaded), c) ==> KitOf(t, c).callbacks == KitOf(w, c).callbacks)
            && (KitOf(w, c).handle.None? && loaded ==> Connected(t, c))
  {
  }

  /** The first call after the loss was noticed brings the kit back, callbacks and all. */
  lemma CallReconnects(owner: Owner, w: World, c: Client)
    requires Kept(owner, w) && KitOf(w, c).handle.None?
    ensures var t := GetService(w, c, true); Connected(t, c) && Serves(t, c)
  {
    CallKeeps(owner, w, c, true);
  }

  /** A kit whose handle is to a dead incarnation has the notice of that death still to come. */
  ghost predicate Warned(w: World) {
    forall c :: c in w.kits && w.kits[c].handle.Some? && w.kits[c].handle != w.live ==>
      (c, w.kits[c].handle.value) in w.notices
  }

  lemma StepWarned(owner: Owner, w: World, step: Step)
    requires Kept(owner, w) && Warned(w)
    ensures Warned(Next(w, step))
  {
    var t := Next(w, step);
    if step.DeathStep? && w.live.Some? {
      forall c | c in t.kits && t.kits[c].handle.Some?
        ensures (c, t.kits[c].handle.value) in t.notices
      {
        assert t.kits[c] == w.kits[c];
      }
    }
  }

  lemma {:induction false} RunWarned(owner: Owner, w: World, steps: seq<Step>)
    requires Kept(owner, w) && Warned(w) && OwnedRun(owner, steps)
    ensures Warned(Run(w, steps))
    decreases |steps|
  {
    if steps != [] {
      StepKeeps(owner, w, steps[0]);
      StepWarned(owner, w, steps[0]);
      RunWarned(owner, Next(w, steps[0]), steps[1..]);
    }
  }

  /** No kit is ever stranded: in every reachable state, a kit that is not connected becomes so, with all its
      callbacks, by the death notice it is still owed (if it holds a handle at all) and one call. */
  lemma NeverStranded(owner: Owner, steps: seq<Step>, c: Client)
    requires OwnedRun(owner, steps) && !Connected(Run(START, steps), c)
    ensures var w := Run(START, steps);
            var kit := KitOf(w, c);
            && (kit.handle.Some? ==> (c, kit.handle.value) in w.notices)
            && var told := if kit.handle.Some? then ResetService(w, c, kit.handle.value) else w;
               var t := GetService(told, c, true);
               Connected(t, c) && Serves(t, c) && KitOf(t, c).callbacks == kit.callbacks
  {
    var w := Run(START, steps);
    var kit := KitOf(w, c);
    RunKeeps(owner, START, steps);
    RunWarned(owner, START, steps);
    var told := if kit.handle.Some? then ResetService(w, c, kit.handle.value) else w;
    if kit.handle.Some? {
      NoticeKeeps(owner, w, c, kit.handle.value);
    }
    CallReconnects(owner, told, c);
  }

  /** A key two clients share goes to the last: the other's callback is lost to it if and only if it is not the
      same object. */
  lemma SharedKeyLost(w: World, c: Client, d: Client, info: UpgradeInfo, callback: nat)
    requires c != d && c in w.kits && Connected(w, c) && Connected(w, d) && Serves(w, c)
    requires info in KitOf(w, c).callbacks
    ensures Serves(RegisterCallback(w, d, info, callback, true), c) <==> KitOf(w, c).callbacks[info] == callback
  {
    var t := RegisterCallback(w, d, info, callback, true);
    assert KitOf(t, c) == KitOf(w, c) && t.registry == w.registry[info := callback];
  }

  // ---------- what it cannot rely on: unregistering ----------

  /** The service knows nothing of the kit's keys beyond what is in the kit's map. */
  ghost predicate NothingStale(owner: Owner, w: World, c: Client) {
    Connected(w, c) ==>
      forall info :: info in w.registry && owner(info) == c ==> info in KitOf(w, c).callbacks
  }

  /** Unregistering leaves the service's entry behind if and only if the service has one. */
  lemma UnregisterLeavesEntry(owner: Owner, w: World, c: Client, info: UpgradeInfo)
    requires NothingStale(owner, w, c) && Connected(w, c) && owner(info) == c
    ensures var t := UnregisterCallback(w, c, info);
            && t.registry == w.registry
            && (NothingStale(owner, t, c) <==> info !in w.registry)
  {
    var t := UnregisterCallback(w, c, info);
    assert Connected(t, c);
    assert KitOf(t, c).callbacks == KitOf(w, c).callbacks - {info};
    if info in w.registry {
      assert info in t.registry && info !in KitOf(t, c).callbacks;
    }
  }

  /** The live service holds keys of connected kits only, and every notice is of an incarnation gone. */
  ghost predicate Current(owner: Owner, w: World) {
    && (forall info :: info in w.registry ==> Connected(w, owner(info)))
    && (forall n :: n in w.notices ==> n.1 < w.next && Some(n.1) != w.live)
  }

  lemma CallCurrent(owner: Owner, w: World, c: Client, loaded: bool)
    requires Kept(owner, w) && Current(owner, w)
    ensures Current(owner, GetService(w, c, loaded))
  {
  }

  lemma StepCurrent(owner: Owner, w: World, step: Step)
    requires Kept(owner, w) && Current(owner, w) && Owned(owner, step)
    ensures Current(owner, Next(w, step))
  {
    match step
    case CallStep(c, loaded) => CallCurrent(owner, w, c, loaded);
    case RegisterStep(c, _, _, loaded) => CallCurrent(owner, w, c, loaded);
    case _ =>
  }

  /** The kit of `c` withdraws a key of its own that the service it is connected to has. */
  predicate Leaves(owner: Owner, w: World, step: Step, c: Client) {
    step.UnregisterStep? && step.client == c && Connected(w, c) && step.info in w.registry && owner(step.info) == c
  }

  lemma CallNothingStale(owner: Owner, w: World, c: Client, loaded: bool, d: Client)
    requires Kept(owner, w) && Current(owner, w) && NothingStale(owner, w, d)
    ensures NothingStale(owner, GetService(w, c, loaded), d)
  {
  }

  /** Of all steps, only such a withdrawal leaves something stale at the service, and it always does. */
  lemma StaleExactly(owner: Owner, w: World, step: Step, c: Client)
    requires Kept(owner, w) && Current(owner, w) && Owned(owner, step) && NothingStale(owner, w, c)
    ensures NothingStale(owner, Next(w, step), c) <==> !Leaves(owner, w, step, c)
  {
    match step
    case CallStep(d, loaded) => CallNothingStale(owner, w, d, loaded, c);
    case RegisterStep(d, _, _, loaded) => CallNothingStale(owner, w, d, loaded, c);
    case UnregisterStep(d, info) => UnregisterStale(owner, w, d, info, c);
    case _ =>
  }

  lemma UnregisterStale(owner: Owner, w: World, d: Client, info: UpgradeInfo, c: Client)
    requires NothingStale(owner, w, c)
    ensures NothingStale(owner, UnregisterCallback(w, d, info), c) <==> !Leaves(owner, w, UnregisterStep(d, info), c)
  {
    var t := UnregisterCallback(w, d, info);
    if d == c && Connected(w, c) && owner(info) == c {
      UnregisterLeavesEntry(owner, w, c, info);
    }
  }

  ghost predicate NeverStale(owner: Owner, w: World, steps: seq<Step>, c: Client)
    decreases |steps|
  {
    NothingStale(owner, w, c) && (steps == [] || NeverStale(owner, Next(w, steps[0]), steps[1..], c))
  }

  predicate LeavesNone(owner: Owner, w: World, steps: seq<Step>, c: Client)
    decreases |steps|
  {
    steps == [] || (!Leaves(owner, w, steps[0], c) && LeavesNone(owner, Next(w, steps[0]), steps[1..], c))
  }

  lemma {:induction false} RunStaleExactly(owner: Owner, w: World, steps: seq<Step>, c: Client)
    requires Kept(owner, w) && Current(owner, w) && OwnedRun(owner, steps) && NothingStale(owner, w, c)
    ensures NeverStale(owner, w, steps, c) <==> LeavesNone(owner, w, steps, c)
    decreases |steps|
  {
    if steps != [] {
      StaleExactly(owner, w, steps[0], c);
      if !Leaves(owner, w, steps[0], c) {
        StepKeeps(owner, w, steps[0]);
        StepCurrent(owner, w, steps[0]);
        RunStaleExactly(owner, Next(w, steps[0]), steps[1..], c);
      }
    }
  }

  /** Over every interleaving, the service a client is connected to has only keys the client has, at all times, if and
      only if the client never withdraws a registered key while connected. */
  lemma NeverStaleExactly(owner: Owner, steps: seq<Step>, c: Client)
    requires OwnedRun(owner, steps)
    ensures NeverStale(owner, START, steps, c) <==> LeavesNone(owner, START, steps, c)
  {
    RunStaleExactly(owner, START, steps, c);
  }

  /** So it is in the run of one registration and its withdrawal. */
  lemma LeftBehind(c: Client, info: UpgradeInfo, callback: nat)
    ensures var w := Run(START, [RegisterStep(c, info, callback, true), UnregisterStep(c, info)]);
            && Connected(w, c) && info !in KitOf(w, c).callbacks
            && info in w.registry && w.registry[info] == callback
  {
    var a, b := RegisterStep(c, info, callback, true), UnregisterStep(c, info);
    var w1 := Next(START, a);
    assert [a, b][1..] == [b];
    assert Run(w1, [b]) == Next(w1, b);
  }

  // ---------- the kit's own code ----------

  lemma ReplayOne(before: Callbacks, callbacks: Callbacks, left: set<UpgradeInfo>, info: UpgradeInfo)
    requires info in left && left <= callbacks.Keys
    ensures before + (callbacks - (left - {info})) == (before + (callbacks - left))[info := callbacks[info]]
  {
  }

  class Platform {
    var world: World

    constructor ()
      ensures world == START
    {
      world := START;
    }

    /** One registration with the live service. */
    method Register(info: UpgradeInfo, callback: nat)
      modifies this
      ensures world == old(world).(registry := old(world).registry[info := callback])
    {
      world := world.(registry := world.registry[info := callback]);
    }

    /** Every callback of the kit, in whatever order the map gives them. */
    method Replay(callbacks: Callbacks)
      modifies this
      ensures world == old(world).(registry := old(world).registry + callbacks)
    {
      var left := callbacks.Keys;
      ghost var before := world.registry;
      while left != {}
        invariant left <= callbacks.Keys
        invariant world == old(world).(registry := before + (callbacks - left))
        decreases |left|
      {
        var info :| info in left;
        ReplayOne(before, callbacks, left, info);
        Register(info, callbacks[info]);
        left := left - {info};
      }
      assert callbacks - {} == callbacks;
    }

    method GetUpdateService(c: Client, loaded: bool)
      modifies this
      ensures world == GetService(old(world), c, loaded)
    {
      var kit := KitOf(world, c);
      if kit.handle.Some? {
        return;
      }
      if loaded {
        world := ServiceStarts(world);
      }
      if world.live.None? {
        return;
      }
      world := world.(kits := world.kits[c := kit.(handle := world.live)]);
      Replay(kit.callbacks);
    }

    method RegisterUpdateCallback(c: Client, info: UpgradeInfo, callback: nat, loaded: bool) returns (ok: bool)
      modifies this
      ensures world == RegisterCallback(old(world), c, info, callback, loaded)
      ensures ok <==> Connected(GetService(old(world), c, loaded), c)
    {
      GetUpdateService(c, loaded);
      ok := Connected(world, c);
      if ok {
        Register(info, callback);
        var kit := KitOf(world, c);
        world := world.(kits := world.kits[c := kit.(callbacks := kit.callbacks[info := callback])]);
      }
    }

    method UnregisterUpdateCallback(c: Client, info: UpgradeInfo)
      modifies this
      ensures world == UnregisterCallback(old(world), c, info)
    {
      var kit := KitOf(world, c);
      world := world.(kits := world.kits[c := kit.(callbacks := kit.callbacks - {info})]);
    }

    method OnServiceDied(c: Client, incarnation: nat)
      modifies this
      ensures world == ResetService(old(world), c, incarnation)
    {
      if (c, incarnation) !in world.notices {
        return;
      }
      var kit := KitOf(world, c);
      if kit.handle == Some(incarnation) {
        kit := kit.(handle := None);
      }
      world := world.(notices := world.notices - {(c, incarnation)}, kits := world.kits[c := kit]);
    }
  }
}
