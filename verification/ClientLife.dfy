/** Client kits and the service's callback table together: clients die and start again under their keys, the service
    dies and is found again, and the notices of either kind of death come late. */
module ClientLife {
  import opened Structs
  import opened ServiceKit
  import CallbackRegistry

  /** `table` is the callback table of the live incarnation; its `dead` are the callback objects gone so far. */
  datatype System = System(live: Option<nat>, next: nat, table: CallbackRegistry.Registry, kits: map<Client, Kit>,
                           notices: set<(Client, nat)>)

  const BOOT := System(None, 0, CallbackRegistry.EMPTY, map[], {})

  function KitIn(w: System, c: Client): Kit {
    if c in w.kits then w.kits[c] else NEW_KIT
  }

  predicate Attached(w: System, c: Client) {
    w.live.Some? && KitIn(w, c).handle == w.live
  }

  function NewTable(r: CallbackRegistry.Registry): CallbackRegistry.Registry {
    CallbackRegistry.EMPTY.(dead := r.dead)
  }

  function Started(w: System): System {
    if w.live.Some? then w else w.(live := Some(w.next), next := w.next + 1, table := NewTable(w.table))
  }

  function ServiceGone(w: System): System {
    if w.live.None? then w
    else w.(live := None, table := NewTable(w.table),
            notices := w.notices + (set c | c in w.kits && w.kits[c].handle == w.live :: (c, w.live.value)))
  }

  function ServiceNotice(w: System, c: Client, incarnation: nat): System {
    if (c, incarnation) !in w.notices then w
    else
      var kit := KitIn(w, c);
      w.(notices := w.notices - {(c, incarnation)},
         kits := w.kits[c := if kit.handle == Some(incarnation) then kit.(handle := None) else kit])
  }

  /** The kit's callbacks registered one after the other, in the order its map gives them. */
  function Replayed(r: CallbackRegistry.Registry, callbacks: Callbacks, order: seq<UpgradeInfo>):
    CallbackRegistry.Registry
    requires forall info :: info in order ==> info in callbacks
    decreases |order|
  {
    if order == [] then r
    else Replayed(CallbackRegistry.Register(r, order[0], Some(callbacks[order[0]])), callbacks, order[1..])
  }

  predicate Lists(order: seq<UpgradeInfo>, callbacks: Callbacks) {
    (forall info :: info in order ==> info in callbacks) && forall info :: info in callbacks ==> info in order
  }

  function Found(w: System, c: Client, order: seq<UpgradeInfo>): System
    requires w.live.Some? && Lists(order, KitIn(w, c).callbacks)
  {
    w.(table := Replayed(w.table, KitIn(w, c).callbacks, order),
       kits := w.kits[c := KitIn(w, c).(handle := w.live)])
  }

  function Call(w: System, c: Client, order: seq<UpgradeInfo>): System {
    if KitIn(w, c).handle.Some? || !Lists(order, KitIn(w, c).callbacks) then w
    else Found(Started(w), c, order)
  }

  /** A callback object is made for the registration, so it is one that lives. */
  function Registered(w: System, c: Client, info: UpgradeInfo, callback: nat, order: seq<UpgradeInfo>): System {
    var v := Call(w, c, order);
    if !Attached(v, c) || callback in v.table.dead then v else Added(v, c, info, callback)
  }

  function Added(w: System, c: Client, info: UpgradeInfo, callback: nat): System {
    w.(table := CallbackRegistry.Register(w.table, info, Some(callback)),
       kits := w.kits[c := KitIn(w, c).(callbacks := KitIn(w, c).callbacks[info := callback])])
  }

  function Unregistered(w: System, c: Client, info: UpgradeInfo): System {
    w.(kits := w.kits[c := KitIn(w, c).(callbacks := KitIn(w, c).callbacks - {info})])
  }

  /** The client's process ends, and with it its kit. */
  function ClientGone(w: System, c: Client): System {
    w.(kits := w.kits - {c}, notices := set n | n in w.notices && n.0 != c)
  }

  predicate InUse(w: System, callback: nat) {
    exists c :: c in w.kits && callback in w.kits[c].callbacks.Values
  }

  /** An object dies once no kit has it: that of a client gone, or one its kit has given up. */
  function CallbackGone(w: System, callback: nat): System {
    if InUse(w, callback) then w else w.(table := CallbackRegistry.Die(w.table, callback))
  }

  datatype Step =
    | StartStep
    | ServiceGoneStep
    | ServiceNoticeStep(client: Client, incarnation: nat)
    | CallStep(client: Client, order: seq<UpgradeInfo>)
    | RegisterStep(client: Client, info: UpgradeInfo, callback: nat, order: seq<UpgradeInfo>)
    | UnregisterStep(client: Client, info: UpgradeInfo)
    | ClientGoneStep(client: Client)
    | CallbackGoneStep(callback: nat)
    | ClientNoticeStep(id: nat)

  function Next(w: System, step: Step): System {
    match step
    case StartStep => Started(w)
    case ServiceGoneStep => ServiceGone(w)
    case ServiceNoticeStep(c, incarnation) => ServiceNotice(w, c, incarnation)
    case CallStep(c, order) => Call(w, c, order)
    case RegisterStep(c, info, callback, order) => Registered(w, c, info, callback, order)
    case UnregisterStep(c, info) => Unregistered(w, c, info)
    case ClientGoneStep(c) => ClientGone(w, c)
    case CallbackGoneStep(callback) => CallbackGone(w, callback)
    case ClientNoticeStep(id) => w.(table := CallbackRegistry.Deliver(w.table, id))
  }

  function Run(w: System, steps: seq<Step>): System
    decreases |steps|
  {
    if steps == [] then w else Run(Next(w, steps[0]), steps[1..])
  }

  // ---------- what every step keeps ----------

  predicate OwnKey(owner: Owner, step: Step) {
    step.RegisterStep? ==> owner(step.info) == step.client
  }

  /** Keys are their kits' own, handles are to incarnations that have existed, and kits hold objects that live. */
  ghost predicate KitsSound(owner: Owner, w: System) {
    && (forall c, info :: c in w.kits && info in w.kits[c].callbacks ==> owner(info) == c)
    && (forall c :: c in w.kits && w.kits[c].handle.Some? ==> w.kits[c].handle.value < w.next)
    && (w.live.Some? ==> w.live.value < w.next)
    && (forall c, info :: c in w.kits && info in w.kits[c].callbacks ==>
          w.kits[c].callbacks[info] !in w.table.dead)
  }

  ghost predicate Sound(owner: Owner, w: System) {
    KitsSound(owner, w) && CallbackRegistry.Consistent(w.table)
  }

  predicate Has(r: CallbackRegistry.Registry, info: UpgradeInfo, callback: nat) {
    info in r.clients && r.clients[info].callback == Some(callback)
  }

  ghost predicate ServedTo(w: System, c: Client) {
    forall info :: info in KitIn(w, c).callbacks ==> Has(w.table, info, KitIn(w, c).callbacks[info])
  }

  /** Every kit attached to the live service has all its callbacks there. */
  ghost predicate Served(w: System) {
    forall c :: c in w.kits && Attached(w, c) ==> ServedTo(w, c)
  }

  lemma {:induction false} ReplayedTable(r: CallbackRegistry.Registry, callbacks: Callbacks, order: seq<UpgradeInfo>)
    requires CallbackRegistry.Consistent(r) && forall info :: info in order ==> info in callbacks
    ensures var t := Replayed(r, callbacks, order);
            && CallbackRegistry.Consistent(t) && t.dead == r.dead && t.notices == r.notices
            && (forall info :: info in order ==> Has(t, info, callbacks[info]))
            && (forall info, x :: info !in order && Has(r, info, x) ==> Has(t, info, x))
    decreases |order|
  {
    if order != [] {
      var u := CallbackRegistry.Register(r, order[0], Some(callbacks[order[0]]));
      CallbackRegistry.AddedConsistent(r, order[0], Some(callbacks[order[0]]));
      ReplayedTable(u, callbacks, order[1..]);
      assert forall info :: info in order <==> info == order[0] || info in order[1..];
    }
  }

  lemma NewTableConsistent(r: CallbackRegistry.Registry)
    ensures CallbackRegistry.Consistent(NewTable(r))
  {
  }

  lemma FoundSound(owner: Owner, w: System, c: Client, order: seq<UpgradeInfo>)
    requires Sound(owner, w) && w.live.Some? && Lists(order, KitIn(w, c).callbacks)
    ensures Sound(owner, Found(w, c, order))
  {
    ReplayedTable(w.table, KitIn(w, c).callbacks, order);
  }

  lemma CallSound(owner: Owner, w: System, c: Client, order: seq<UpgradeInfo>)
    requires Sound(owner, w)
    ensures Sound(owner, Call(w, c, order))
  {
    if KitIn(w, c).handle.None? && Lists(order, KitIn(w, c).callbacks) {
      NewTableConsistent(w.table);
      FoundSound(owner, Started(w), c, order);
    }
  }

  lemma RegisterTable(r: CallbackRegistry.Registry, info: UpgradeInfo, callback: nat)
    ensures var t := CallbackRegistry.Register(r, info, Some(callback));
            && Has(t, info, callback) && t.dead == r.dead
            && forall x, y :: x != info && Has(r, x, y) ==> Has(t, x, y)
  {
  }

  lemma AddedSound(owner: Owner, w: System, c: Client, info: UpgradeInfo, callback: nat)
    requires Sound(owner, w) && owner(info) == c && Attached(w, c) && callback !in w.table.dead
    ensures Sound(owner, Added(w, c, info, callback))
  {
    CallbackRegistry.AddedConsistent(w.table, info, Some(callback));
    RegisterTable(w.table, info, callback);
    KitsAdded(owner, w, Added(w, c, info, callback), c, info, callback);
  }

  lemma KitsAdded(owner: Owner, w: System, t: System, c: Client, info: UpgradeInfo, callback: nat)
    requires KitsSound(owner, w) && owner(info) == c && Attached(w, c) && callback !in w.table.dead
    requires t.live == w.live && t.next == w.next && t.table.dead == w.table.dead
    requires t.kits == w.kits[c := KitIn(w, c).(callbacks := KitIn(w, c).callbacks[info := callback])]
    ensures KitsSound(owner, t)
  {
  }

  lemma RegisteredSound(owner: Owner, w: System, c: Client, info: UpgradeInfo, callback: nat, order: seq<UpgradeInfo>)
    requires Sound(owner, w) && owner(info) == c
    ensures Sound(owner, Registered(w, c, info, callback, order))
  {
    CallSound(owner, w, c, order);
    var v := Call(w, c, order);
    if Attached(v, c) && callback !in v.table.dead {
      AddedSound(owner, v, c, info, callback);
    }
  }

  lemma CallbackGoneSound(owner: Owner, w: System, callback: nat)
    requires Sound(owner, w)
    ensures Sound(owner, CallbackGone(w, callback))
  {
    CallbackRegistry.DieConsistent(w.table, callback);
    if !InUse(w, callback) {
      forall c, info | c in w.kits && info in w.kits[c].callbacks
        ensures w.kits[c].callbacks[info] != callback
      {
        assert w.kits[c].callbacks[info] in w.kits[c].callbacks.Values;
      }
    }
  }

  lemma KitStepSound(owner: Owner, w: System, step: Step)
    requires Sound(owner, w)
    requires step.ServiceNoticeStep? || step.UnregisterStep? || step.ClientGoneStep?
    ensures Sound(owner, Next(w, step))
  {
  }

  lemma ServiceStepSound(owner: Owner, w: System)
    requires Sound(owner, w)
    ensures Sound(owner, Started(w)) && Sound(owner, ServiceGone(w))
  {
    NewTableConsistent(w.table);
  }

  lemma StepSound(owner: Owner, w: System, step: Step)
    requires Sound(owner, w) && OwnKey(owner, step)
    ensures Sound(owner, Next(w, step))
  {
    match step
    case StartStep => ServiceStepSound(owner, w);
    case ServiceGoneStep => ServiceStepSound(owner, w);
    case CallStep(c, order) => CallSound(owner, w, c, order);
    case RegisterStep(c, info, callback, order) => RegisteredSound(owner, w, c, info, callback, order);
    case CallbackGoneStep(callback) => CallbackGoneSound(owner, w, callback);
    case ClientNoticeStep(id) => CallbackRegistry.DeliverConsistent(w.table, id);
    case _ => KitStepSound(owner, w, step);
  }

  lemma CallAttached(owner: Owner, w: System, c: Client, order: seq<UpgradeInfo>)
    requires Sound(owner, w) && Lists(order, KitIn(w, c).callbacks)
    requires KitIn(w, c).handle.None? || Attached(w, c)
    ensures var v := Call(w, c, order); Attached(v, c) && v.table.dead == w.table.dead
  {
    if KitIn(w, c).handle.None? {
      NewTableConsistent(w.table);
      ReplayedTable(Started(w).table, KitIn(w, c).callbacks, order);
    }
  }

  /** A registration by a kit that has a live service, or has to find one, is known to both sides. */
  lemma RegistrationWritten(owner: Owner, w: System, c: Client, info: UpgradeInfo, callback: nat,
                            order: seq<UpgradeInfo>)
    requires Sound(owner, w) && callback !in w.table.dead && Lists(order, KitIn(w, c).callbacks)
    requires KitIn(w, c).handle.None? || Attached(w, c)
    ensures var t := Next(w, Step.RegisterStep(c, info, callback, order));
            && Attached(t, c) && info in KitIn(t, c).callbacks && KitIn(t, c).callbacks[info] == callback
            && Has(t.table, info, callback)
  {
    CallAttached(owner, w, c, order);
    RegisterTable(Call(w, c, order).table, info, callback);
  }

  /** A withdrawal is known to the kit, and a client that ends leaves no kit. */
  lemma KitsForget(w: System, c: Client, info: UpgradeInfo)
    ensures info !in KitIn(Next(w, Step.UnregisterStep(c, info)), c).callbacks
    ensures KitIn(Next(w, ClientGoneStep(c)), c) == NEW_KIT
  {
  }

  // ---------- who is served ----------

  /** The notice of a death takes out the entry of a key that an attached kit has by now. */
  ghost predicate Robs(w: System, step: Step) {
    && step.ClientNoticeStep? && step.id in w.table.notices && step.id in w.table.infos
    && exists c :: c in w.kits && Attached(w, c) && w.table.infos[step.id] in w.kits[c].callbacks
  }

  lemma FoundServed(owner: Owner, w: System, c: Client, order: seq<UpgradeInfo>)
    requires Sound(owner, w) && Served(w) && w.live.Some? && Lists(order, KitIn(w, c).callbacks)
    ensures Served(Found(w, c, order))
  {
    var t := Found(w, c, order);
    ReplayedTable(w.table, KitIn(w, c).callbacks, order);
    forall d | d in t.kits && Attached(t, d)
      ensures ServedTo(t, d)
    {
      assert KitIn(t, d).callbacks == KitIn(w, d).callbacks;
      if d != c {
        OthersServed(owner, w, c, d, order, t.table);
      }
    }
  }

  lemma OthersServed(owner: Owner, w: System, c: Client, d: Client, order: seq<UpgradeInfo>,
                     table: CallbackRegistry.Registry)
    requires Sound(owner, w) && Served(w) && c != d && d in w.kits && Attached(w, d)
    requires forall info :: info in order ==> info in KitIn(w, c).callbacks
    requires forall info, x :: info !in order && Has(w.table, info, x) ==> Has(table, info, x)
    ensures forall info :: info in KitIn(w, d).callbacks ==> Has(table, info, KitIn(w, d).callbacks[info])
  {
    assert ServedTo(w, d);
    forall info | info in KitIn(w, d).callbacks
      ensures Has(table, info, KitIn(w, d).callbacks[info])
    {
      assert owner(info) == d && Has(w.table, info, KitIn(w, d).callbacks[info]);
      assert info !in order;
    }
  }

  lemma StartedServed(owner: Owner, w: System)
    requires Sound(owner, w) && Served(w)
    ensures Sound(owner, Started(w)) && Served(Started(w))
  {
    NewTableConsistent(w.table);
  }

  lemma CallServed(owner: Owner, w: System, c: Client, order: seq<UpgradeInfo>)
    requires Sound(owner, w) && Served(w)
    ensures Served(Call(w, c, order))
  {
    if KitIn(w, c).handle.None? && Lists(order, KitIn(w, c).callbacks) {
      StartedServed(owner, w);
      FoundServed(owner, Started(w), c, order);
    }
  }

  lemma RegisteredServed(owner: Owner, w: System, c: Client, info: UpgradeInfo, callback: nat, order: seq<UpgradeInfo>)
    requires Sound(owner, w) && Served(w) && owner(info) == c
    ensures Served(Registered(w, c, info, callback, order))
  {
    CallServed(owner, w, c, order);
    CallSound(owner, w, c, order);
    var v := Call(w, c, order);
    if Attached(v, c) && callback !in v.table.dead {
      AddedServed(owner, v, c, info, callback);
    }
  }

  lemma AddedServed(owner: Owner, w: System, c: Client, info: UpgradeInfo, callback: nat)
    requires Sound(owner, w) && Served(w) && owner(info) == c && Attached(w, c)
    ensures Served(Added(w, c, info, callback))
  {
    var t := Added(w, c, info, callback);
    RegisterTable(w.table, info, callback);
    forall d | d in t.kits && Attached(t, d)
      ensures ServedTo(t, d)
    {
      assert d in w.kits && Attached(w, d) && ServedTo(w, d);
    }
  }

  lemma NoticeServed(w: System, id: nat)
    requires Served(w)
    ensures Served(Next(w, ClientNoticeStep(id))) <==> !Robs(w, ClientNoticeStep(id))
  {
    var t := Next(w, ClientNoticeStep(id));
    if c :| Robs(w, ClientNoticeStep(id)) && c in w.kits && Attached(w, c) && w.table.infos[id] in w.kits[c].callbacks {
      assert w.table.infos[id] in KitIn(t, c).callbacks && w.table.infos[id] !in t.table.clients;
      assert !ServedTo(t, c) && c in t.kits && Attached(t, c);
    } else {
      forall c | c in t.kits && Attached(t, c)
        ensures ServedTo(t, c)
      {
        assert c in w.kits && Attached(w, c) && ServedTo(w, c);
      }
    }
  }

  lemma KitStepServed(owner: Owner, w: System, step: Step)
    requires Sound(owner, w) && Served(w)
    requires step.ServiceNoticeStep? || step.UnregisterStep? || step.ClientGoneStep? || step.CallbackGoneStep?
    ensures Served(Next(w, step))
  {
    var t := Next(w, step);
    forall c | c in t.kits && Attached(t, c)
      ensures ServedTo(t, c)
    {
      if c in w.kits {
        assert Attached(w, c) && ServedTo(w, c);
      }
    }
  }

  /** From a system in which every attached kit is served, each step keeps that, if and only if it is not such a
      notice. */
  lemma ServedExactly(owner: Owner, w: System, step: Step)
    requires Sound(owner, w) && Served(w) && OwnKey(owner, step)
    ensures Served(Next(w, step)) <==> !Robs(w, step)
  {
    match step
    case StartStep => StartedServed(owner, w);
    case ServiceGoneStep =>
    case CallStep(c, order) => CallServed(owner, w, c, order);
    case RegisterStep(c, info, callback, order) => RegisteredServed(owner, w, c, info, callback, order);
    case ClientNoticeStep(id) => NoticeServed(w, id);
    case _ => KitStepServed(owner, w, step);
  }

  // ---------- whole runs ----------

  predicate OwnKeys(owner: Owner, steps: seq<Step>) {
    forall i :: 0 <= i < |steps| ==> OwnKey(owner, steps[i])
  }

  ghost predicate ServedThroughout(w: System, steps: seq<Step>)
    decreases |steps|
  {
    Served(w) && (steps == [] || ServedThroughout(Next(w, steps[0]), steps[1..]))
  }

  ghost predicate RobsNone(w: System, steps: seq<Step>)
    decreases |steps|
  {
    steps == [] || (!Robs(w, steps[0]) && RobsNone(Next(w, steps[0]), steps[1..]))
  }

  lemma {:induction false} RunServedExactly(owner: Owner, w: System, steps: seq<Step>)
    requires Sound(owner, w) && Served(w) && OwnKeys(owner, steps)
    ensures ServedThroughout(w, steps) <==> RobsNone(w, steps)
    decreases |steps|
  {
    if steps != [] {
      ServedExactly(owner, w, steps[0]);
      StepSound(owner, w, steps[0]);
      if !Robs(w, steps[0]) {
        RunServedExactly(owner, Next(w, steps[0]), steps[1..]);
      }
    }
  }

  /** With clients that die and come back as well as a service that does, each client keeping to keys of its own:
      every kit attached to the live service has all its callbacks there at all times, if and only if no death
      notice is handled when its key is in use again. */
  lemma ServedInEveryRun(owner: Owner, steps: seq<Step>)
    requires OwnKeys(owner, steps)
    ensures ServedThroughout(BOOT, steps) <==> RobsNone(BOOT, steps)
  {
    RunServedExactly(owner, BOOT, steps);
  }

  // ---------- calm runs ----------

  /** The keys a step registers with the service. */
  ghost predicate Registers(w: System, step: Step, info: UpgradeInfo) {
    || (step.RegisterStep? && info == step.info)
    || ((step.RegisterStep? || step.CallStep?) && KitIn(w, step.client).handle.None? &&
        info in KitIn(w, step.client).callbacks)
  }

  /** No key is registered while a notice for it is on its way. */
  ghost predicate CalmStep(w: System, step: Step) {
    forall info :: Registers(w, step, info) ==> !CallbackRegistry.Awaited(Started(w).table, info)
  }

  ghost predicate CalmSteps(w: System, steps: seq<Step>)
    decreases |steps|
  {
    steps == [] || (CalmStep(w, steps[0]) && CalmSteps(Next(w, steps[0]), steps[1..]))
  }

  lemma AwaitedKept(r: CallbackRegistry.Registry, info: UpgradeInfo, callback: Option<nat>, other: UpgradeInfo)
    requires CallbackRegistry.Consistent(r)
    ensures CallbackRegistry.Awaited(CallbackRegistry.Register(r, info, callback), other) ==>
            CallbackRegistry.Awaited(r, other)
  {
  }

  lemma {:induction false} ReplayedFresh(r: CallbackRegistry.Registry, callbacks: Callbacks, order: seq<UpgradeInfo>)
    requires CallbackRegistry.Consistent(r) && CallbackRegistry.Fresh(r)
    requires forall info :: info in order ==> info in callbacks && !CallbackRegistry.Awaited(r, info)
    ensures var t := Replayed(r, callbacks, order);
            && CallbackRegistry.Fresh(t)
            && forall info :: CallbackRegistry.Awaited(t, info) ==> CallbackRegistry.Awaited(r, info)
    decreases |order|
  {
    if order != [] {
      var callback := Some(callbacks[order[0]]);
      var u := CallbackRegistry.Register(r, order[0], callback);
      CallbackRegistry.AddedConsistent(r, order[0], callback);
      assert order[0] in order;
      CallbackRegistry.RegisterFresh(r, order[0], callback);
      forall info
        ensures CallbackRegistry.Awaited(u, info) ==> CallbackRegistry.Awaited(r, info)
      {
        AwaitedKept(r, order[0], callback, info);
      }
      ReplayedFresh(u, callbacks, order[1..]);
    }
  }

  lemma CallFresh(owner: Owner, w: System, c: Client, order: seq<UpgradeInfo>)
    requires Sound(owner, w) && CallbackRegistry.Fresh(w.table)
    requires KitIn(w, c).handle.None? ==>
               forall info :: info in KitIn(w, c).callbacks ==> !CallbackRegistry.Awaited(Started(w).table, info)
    ensures var v := Call(w, c, order);
            && CallbackRegistry.Fresh(v.table)
            && (Attached(v, c) ==>
                forall info :: CallbackRegistry.Awaited(v.table, info) ==> CallbackRegistry.Awaited(Started(w).table, info))
  {
    if KitIn(w, c).handle.None? && Lists(order, KitIn(w, c).callbacks) {
      NewTableConsistent(w.table);
      ReplayedFresh(Started(w).table, KitIn(w, c).callbacks, order);
    }
  }

  lemma StepFresh(owner: Owner, w: System, step: Step)
    requires Sound(owner, w) && CallbackRegistry.Fresh(w.table) && CalmStep(w, step)
    ensures CallbackRegistry.Fresh(Next(w, step).table)
  {
    match step
    case CallStep(c, order) =>
      assert forall info :: info in KitIn(w, c).callbacks && KitIn(w, c).handle.None? ==> Registers(w, step, info);
      CallFresh(owner, w, c, order);
    case RegisterStep(c, info, callback, order) =>
      assert forall x :: x in KitIn(w, c).callbacks && KitIn(w, c).handle.None? ==> Registers(w, step, x);
      assert Registers(w, step, info);
      CallFresh(owner, w, c, order);
      CallSound(owner, w, c, order);
      CallbackRegistry.RegisterFresh(Call(w, c, order).table, info, Some(callback));
    case CallbackGoneStep(callback) => CallbackRegistry.StepFresh(w.table, CallbackRegistry.DieStep(callback));
    case ClientNoticeStep(id) => CallbackRegistry.StepFresh(w.table, CallbackRegistry.DeliverStep(id));
    case _ =>
  }

  /** A notice meant for the entry its key has takes nothing from a kit: that entry's callback is dead. */
  lemma FreshRobsNone(owner: Owner, w: System, step: Step)
    requires Sound(owner, w) && Served(w) && CallbackRegistry.Fresh(w.table)
    ensures !Robs(w, step)
  {
    if c :| Robs(w, step) && c in w.kits && Attached(w, c) && w.table.infos[step.id] in w.kits[c].callbacks {
      var info := w.table.infos[step.id];
      assert ServedTo(w, c) && Has(w.table, info, KitIn(w, c).callbacks[info]);
      CallbackRegistry.LateNotice(w.table, step.id);
    }
  }

  lemma {:induction false} CalmRobsNone(owner: Owner, w: System, steps: seq<Step>)
    requires Sound(owner, w) && Served(w) && CallbackRegistry.Fresh(w.table)
    requires OwnKeys(owner, steps) && CalmSteps(w, steps)
    ensures RobsNone(w, steps)
    decreases |steps|
  {
    if steps != [] {
      FreshRobsNone(owner, w, steps[0]);
      ServedExactly(owner, w, steps[0]);
      StepSound(owner, w, steps[0]);
      StepFresh(owner, w, steps[0]);
      CalmRobsNone(owner, Next(w, steps[0]), steps[1..]);
    }
  }

  /** So it is in every run that registers or replays no key while a notice for it is on its way. */
  lemma CalmRunServed(owner: Owner, steps: seq<Step>)
    requires OwnKeys(owner, steps) && CalmSteps(BOOT, steps)
    ensures ServedThroughout(BOOT, steps)
  {
    CalmRobsNone(owner, BOOT, steps);
    ServedInEveryRun(owner, steps);
  }

  /** A client that dies and comes back under its key before the notice of its death is handled is attached, and not
      served once it is. */
  lemma ComebackRobbed(c: Client, info: UpgradeInfo, first: nat, second: nat)
    requires first != second
    ensures var steps := [Step.RegisterStep(c, info, first, []), ClientGoneStep(c), CallbackGoneStep(first),
                          Step.RegisterStep(c, info, second, [])];
            var w := Run(BOOT, steps);
            && Attached(w, c) && ServedTo(w, c) && info in KitIn(w, c).callbacks
            && var t := Next(w, ClientNoticeStep(0));
               Attached(t, c) && info in KitIn(t, c).callbacks && info !in t.table.clients
  {
    var a, b, d := Step.RegisterStep(c, info, first, []), ClientGoneStep(c), CallbackGoneStep(first);
    var e := Step.RegisterStep(c, info, second, []);
    var w1 := Next(BOOT, a);
    var w3 := Next(Next(w1, b), d);
    FirstComing(c, info, first);
    Going(c, info, first);
    Comeback(w3, c, info, first, second);
    assert [a, b, d, e][1..] == [b, d, e] && [b, d, e][1..] == [d, e] && [d, e][1..] == [e];
    assert Run(w3, [e]) == Next(w3, e);
    assert Run(Next(w1, b), [d, e]) == Next(w3, e);
    assert Run(w1, [b, d, e]) == Next(w3, e);
  }

  function Arrived(c: Client, info: UpgradeInfo, first: nat): System {
    Next(BOOT, Step.RegisterStep(c, info, first, []))
  }

  lemma FirstComing(c: Client, info: UpgradeInfo, first: nat)
    ensures var w := Arrived(c, info, first);
            && w.live == Some(0) && w.next == 1 && w.kits.Keys == {c} && w.notices == {}
            && w.table.attached == map[0 := first] && w.table.infos == map[0 := info]
            && w.table.nextRecipient == 1 && w.table.dead == {} && w.table.notices == {}
  {
  }

  /** The client is gone and the notice for its key is on its way. */
  ghost predicate Leaving(w: System, info: UpgradeInfo, first: nat) {
    && w.live.Some? && w.kits == map[] && w.table.dead == {first} && w.table.notices == {0}
    && w.table.infos == map[0 := info] && w.table.nextRecipient == 1
  }

  lemma Going(c: Client, info: UpgradeInfo, first: nat)
    ensures Leaving(Next(Next(Arrived(c, info, first), ClientGoneStep(c)), CallbackGoneStep(first)), info, first)
  {
    FirstComing(c, info, first);
    var w := Next(Arrived(c, info, first), ClientGoneStep(c));
    assert w.kits == map[] && !InUse(w, first);
    assert CallbackRegistry.Watching(w.table, first) == {0};
  }

  lemma Comeback(w: System, c: Client, info: UpgradeInfo, first: nat, second: nat)
    requires Leaving(w, info, first) && first != second
    ensures var t := Next(w, Step.RegisterStep(c, info, second, []));
            && Attached(t, c) && ServedTo(t, c) && info in KitIn(t, c).callbacks
            && var u := Next(t, ClientNoticeStep(0));
               Attached(u, c) && info in KitIn(u, c).callbacks && info !in u.table.clients
  {
    var v := Call(w, c, []);
    assert v.table == w.table && Attached(v, c);
    RegisterTable(v.table, info, second);
    var t := Next(w, Step.RegisterStep(c, info, second, []));
    assert t == Added(v, c, info, second);
    assert 0 in t.table.notices && 0 in t.table.infos && t.table.infos[0] == info;
  }
}
