/** The service's table of client callbacks: its key order, its death recipients, and client death with the
    notice in flight. */
module CallbackRegistry {
  import opened Structs

  // ---------- the key order of the table ----------

  predicate StringLess(a: string, b: string) {
    b != "" && (a == "" || a[0] < b[0] || (a[0] == b[0] && StringLess(a[1..], b[1..])))
  }

  predicate BusinessLess(a: UpgradeInfo, b: UpgradeInfo) {
    if StringLess(a.vendor, b.vendor) then true
    else if StringLess(b.vendor, a.vendor) then false
    else a.subType < b.subType
  }

  predicate InfoLess(a: UpgradeInfo, b: UpgradeInfo) {
    if StringLess(a.upgradeApp, b.upgradeApp) then true
    else if StringLess(b.upgradeApp, a.upgradeApp) then false
    else if BusinessLess(a, b) then true
    else if BusinessLess(b, a) then false
    else if StringLess(a.upgradeDevId, b.upgradeDevId) then true
    else if StringLess(b.upgradeDevId, a.upgradeDevId) then false
    else StringLess(a.controlDevId, b.controlDevId)
  }

  /** Exactly one of less, equal and greater. */
  lemma {:induction false} StringTrichotomy(a: string, b: string)
    ensures StringLess(a, b) ==> !StringLess(b, a) && a != b
    ensures !StringLess(a, b) && !StringLess(b, a) <==> a == b
  {
    if a != "" && b != "" && a[0] == b[0] {
      StringTrichotomy(a[1..], b[1..]);
      assert a == [a[0]] + a[1..] && b == [b[0]] + b[1..];
    }
  }

  lemma {:induction false} StringTransitive(a: string, b: string, c: string)
    requires StringLess(a, b) && StringLess(b, c)
    ensures StringLess(a, c)
  {
    if a != "" && a[0] == b[0] == c[0] {
      StringTransitive(a[1..], b[1..], c[1..]);
    }
  }

  lemma BusinessOrder(a: UpgradeInfo, b: UpgradeInfo, c: UpgradeInfo)
    ensures BusinessLess(a, b) ==> !BusinessLess(b, a)
    ensures !BusinessLess(a, b) && !BusinessLess(b, a) <==> a.vendor == b.vendor && a.subType == b.subType
    ensures BusinessLess(a, b) && BusinessLess(b, c) ==> BusinessLess(a, c)
  {
    StringTrichotomy(a.vendor, b.vendor);
    StringTrichotomy(b.vendor, c.vendor);
    StringTrichotomy(a.vendor, c.vendor);
    if StringLess(a.vendor, b.vendor) && StringLess(b.vendor, c.vendor) {
      StringTransitive(a.vendor, b.vendor, c.vendor);
    }
  }

  /** Two keys share a table entry exactly when all their fields are equal. */
  lemma InfoTrichotomy(a: UpgradeInfo, b: UpgradeInfo)
    ensures InfoLess(a, b) ==> !InfoLess(b, a)
    ensures !InfoLess(a, b) && !InfoLess(b, a) <==> a == b
  {
    StringTrichotomy(a.upgradeApp, b.upgradeApp);
    BusinessOrder(a, b, b);
    StringTrichotomy(a.upgradeDevId, b.upgradeDevId);
    StringTrichotomy(a.controlDevId, b.controlDevId);
  }

  /** The order is transitive, as the table needs it to be. */
  lemma InfoTransitive(a: UpgradeInfo, b: UpgradeInfo, c: UpgradeInfo)
    requires InfoLess(a, b) && InfoLess(b, c)
    ensures InfoLess(a, c)
  {
    StringTrichotomy(a.upgradeApp, b.upgradeApp);
    StringTrichotomy(b.upgradeApp, c.upgradeApp);
    if StringLess(a.upgradeApp, b.upgradeApp) {
      if StringLess(b.upgradeApp, c.upgradeApp) {
        StringTransitive(a.upgradeApp, b.upgradeApp, c.upgradeApp);
      }
    } else if !StringLess(b.upgradeApp, c.upgradeApp) {
      StringTrichotomy(a.upgradeApp, c.upgradeApp);
      RestTransitive(a, b, c);
    }
  }

  lemma RestTransitive(a: UpgradeInfo, b: UpgradeInfo, c: UpgradeInfo)
    requires a.upgradeApp == b.upgradeApp == c.upgradeApp && !StringLess(a.upgradeApp, a.upgradeApp)
    requires InfoLess(a, b) && InfoLess(b, c)
    ensures InfoLess(a, c)
  {
    BusinessOrder(a, b, c);
    BusinessOrder(b, c, a);
    BusinessOrder(a, c, b);
    if !BusinessLess(a, b) && !BusinessLess(b, c) {
      StringTrichotomy(a.upgradeDevId, b.upgradeDevId);
      StringTrichotomy(b.upgradeDevId, c.upgradeDevId);
      StringTrichotomy(a.upgradeDevId, c.upgradeDevId);
      if StringLess(a.upgradeDevId, b.upgradeDevId) && StringLess(b.upgradeDevId, c.upgradeDevId) {
        StringTransitive(a.upgradeDevId, b.upgradeDevId, c.upgradeDevId);
      }
      if !StringLess(a.upgradeDevId, b.upgradeDevId) && !StringLess(b.upgradeDevId, c.upgradeDevId) {
        StringTransitive(a.controlDevId, b.controlDevId, c.controlDevId);
      }
    }
  }

  // ---------- the table ----------

  /** A client's callback object (null possible) and the recipient watching for its death. */
  datatype ClientProxy = ClientProxy(callback: Option<nat>, recipient: nat)

  /** `attached`: recipients on live objects. `infos`: the key each recipient was made for. `notices`:
      recipients of dead objects whose OnRemoteDied has not run yet. */
  datatype Registry = Registry(clients: map<UpgradeInfo, ClientProxy>, attached: map<nat, nat>,
                               infos: map<nat, UpgradeInfo>, nextRecipient: nat, dead: set<nat>,
                               notices: set<nat>, remoteIdle: bool)

  const EMPTY := Registry(map[], map[], map[], 0, {}, {}, true)

  function Unregister(r: Registry, info: UpgradeInfo): Registry {
    if info !in r.clients then r
    else
      var clients := r.clients - {info};
      r.(clients := clients, attached := r.attached - {r.clients[info].recipient},
         remoteIdle := clients == map[])
  }

  /** The old entry goes first; the new recipient is attached if the object can still be watched. */
  function Register(r: Registry, info: UpgradeInfo, callback: Option<nat>): Registry {
    var u := Unregister(r, info);
    var id := u.nextRecipient;
    u.(clients := u.clients[info := ClientProxy(callback, id)],
       attached := if callback.Some? && callback.value !in u.dead then u.attached[id := callback.value]
                   else u.attached,
       infos := u.infos[id := info],
       nextRecipient := id + 1,
       remoteIdle := false)
  }

  function Watching(r: Registry, client: nat): set<nat> {
    set id | id in r.attached && r.attached[id] == client
  }

  /** A client object dies: every recipient attached to it is told, later. */
  function Die(r: Registry, client: nat): Registry {
    r.(dead := r.dead + {client}, attached := r.attached - Watching(r, client),
       notices := r.notices + Watching(r, client))
  }

  /** OnRemoteDied: whatever entry has the recipient's key is taken out. */
  function Deliver(r: Registry, id: nat): Registry {
    if id !in r.notices || id !in r.infos then r
    else Unregister(r.(notices := r.notices - {id}), r.infos[id])
  }

  datatype Step =
    | RegisterStep(info: UpgradeInfo, callback: Option<nat>)
    | UnregisterStep(info: UpgradeInfo)
    | DieStep(client: nat)
    | DeliverStep(id: nat)

  function Next(r: Registry, step: Step): Registry {
    match step
    case RegisterStep(info, callback) => Register(r, info, callback)
    case UnregisterStep(info) => Unregister(r, info)
    case DieStep(client) => Die(r, client)
    case DeliverStep(id) => Deliver(r, id)
  }

  function Run(r: Registry, steps: seq<Step>): Registry
    decreases |steps|
  {
    if steps == [] then r else Run(Next(r, steps[0]), steps[1..])
  }

  predicate Watchable(r: Registry, entry: ClientProxy) {
    entry.callback.Some? && entry.callback.value !in r.dead
  }

  ghost predicate Consistent(r: Registry) {
    && (r.remoteIdle <==> r.clients == map[])
    && (forall id :: id in r.attached || id in r.notices ==> id in r.infos)
    && (forall id :: id in r.infos ==> id < r.nextRecipient)
    && (forall info :: info in r.clients ==>
          r.clients[info].recipient in r.infos && r.infos[r.clients[info].recipient] == info)
    && (forall id :: id in r.attached ==> id !in r.notices)
    && (forall id :: id in r.attached <==>
          id in r.infos && r.infos[id] in r.clients && r.clients[r.infos[id]].recipient == id &&
          Watchable(r, r.clients[r.infos[id]]))
    && (forall id :: id in r.attached ==> Some(r.attached[id]) == r.clients[r.infos[id]].callback)
  }

  lemma UnregisterConsistent(r: Registry, info: UpgradeInfo)
    requires Consistent(r)
    ensures Consistent(Unregister(r, info))
  {
  }

  lemma AddedConsistent(r: Registry, info: UpgradeInfo, callback: Option<nat>)
    requires Consistent(r)
    ensures Consistent(Register(r, info, callback))
  {
    UnregisterConsistent(r, info);
    var u := Unregister(r, info);
    var t := Register(r, info, callback);
    assert u.nextRecipient !in u.infos && info !in u.clients;
    assert info in t.clients;
    forall id
      ensures id in t.attached <==>
              id in t.infos && t.infos[id] in t.clients && t.clients[t.infos[id]].recipient == id &&
              Watchable(t, t.clients[t.infos[id]])
    {
    }
  }

  lemma DieConsistent(r: Registry, client: nat)
    requires Consistent(r)
    ensures Consistent(Die(r, client))
  {
  }

  lemma DeliverConsistent(r: Registry, id: nat)
    requires Consistent(r)
    ensures Consistent(Deliver(r, id))
  {
    UnregisterConsistent(r, if id in r.infos then r.infos[id] else UpgradeInfo("", "", 0, "", ""));
  }

  lemma StepConsistent(r: Registry, step: Step)
    requires Consistent(r)
    ensures Consistent(Next(r, step))
  {
    match step
    case RegisterStep(info, callback) => AddedConsistent(r, info, callback);
    case UnregisterStep(info) => UnregisterConsistent(r, info);
    case DieStep(client) => DieConsistent(r, client);
    case DeliverStep(id) => DeliverConsistent(r, id);
  }

  lemma {:induction false} RunConsistent(r: Registry, steps: seq<Step>)
    requires Consistent(r)
    ensures Consistent(Run(r, steps))
    decreases |steps|
  {
    if steps != [] {
      StepConsistent(r, steps[0]);
      RunConsistent(Next(r, steps[0]), steps[1..]);
    }
  }

  /** After any run of registrations, deaths and late notices: the idle flag says whether the table is empty,
      and a recipient is attached exactly if it belongs to a current entry with a live callback, on that
      callback's object. */
  lemma RegistryInvariant(steps: seq<Step>)
    ensures Consistent(Run(EMPTY, steps))
  {
    RunConsistent(EMPTY, steps);
  }

  /** A registration gives its key the callback and leaves the other keys alone; an unregistration takes its key
      away and nothing else. */
  lemma RegisteredFound(r: Registry, info: UpgradeInfo, callback: Option<nat>)
    ensures var t := Register(r, info, callback);
            && info in t.clients && t.clients[info].callback == callback
            && t.clients - {info} == r.clients - {info}
            && (callback.Some? && callback.value !in r.dead ==>
                  t.clients[info].recipient in t.attached &&
                  t.attached[t.clients[info].recipient] == callback.value)
    ensures Unregister(r, info).clients == r.clients - {info}
  {
    var t := Register(r, info, callback);
    assert Unregister(r, info).clients == r.clients - {info};
    assert t.clients - {info} == r.clients - {info};
  }

  // ---------- what a death takes away ----------

  function DeliverAll(r: Registry, ids: seq<nat>): Registry
    decreases |ids|
  {
    if ids == [] then r else DeliverAll(Deliver(r, ids[0]), ids[1..])
  }

  ghost predicate Distinct(ids: seq<nat>) {
    forall i, j :: 0 <= i < j < |ids| ==> ids[i] != ids[j]
  }

  lemma {:induction false} DeliveredKeys(r: Registry, ids: seq<nat>)
    requires Distinct(ids) && forall id :: id in ids ==> id in r.notices && id in r.infos
    ensures DeliverAll(r, ids).clients == r.clients - (set id | id in ids :: r.infos[id])
    decreases |ids|
  {
    if ids != [] {
      var t := Deliver(r, ids[0]);
      assert t.infos == r.infos && t.clients == r.clients - {r.infos[ids[0]]};
      DeliveredKeys(t, ids[1..]);
      assert (set id | id in ids :: r.infos[id]) ==
             {r.infos[ids[0]]} + (set id | id in ids[1..] :: r.infos[id]);
    }
  }

  /** A client's death, with its notices delivered in any order before anything else happens, takes out exactly
      the entries the client owns at that moment, whatever other notices are on their way. */
  lemma DeathTakesOwned(r: Registry, client: nat, ids: seq<nat>)
    requires Consistent(r) && client !in r.dead
    requires Distinct(ids) && (set id | id in ids) == Watching(r, client)
    ensures DeliverAll(Die(r, client), ids).clients ==
            map info | info in r.clients && r.clients[info].callback != Some(client) :: r.clients[info]
  {
    var t := Die(r, client);
    forall id | id in ids
      ensures id in t.notices && id in t.infos
    {
      assert id in (set x | x in ids);
    }
    DeliveredKeys(t, ids);
    var taken := set id | id in ids :: r.infos[id];
    forall info | info in r.clients
      ensures info in taken <==> r.clients[info].callback == Some(client)
    {
      var id := r.clients[info].recipient;
      if r.clients[info].callback == Some(client) {
        assert id in Watching(r, client) && id in (set x | x in ids);
      }
      if info in taken {
        var other :| other in ids && r.infos[other] == info;
        assert other in (set x | x in ids);
      }
    }
  }

  /** No entry was made for a key whose last owner's death is still to be announced. */
  ghost predicate Fresh(r: Registry) {
    forall id :: id in r.notices && id in r.infos && r.infos[id] in r.clients ==>
      r.clients[r.infos[id]].recipient == id
  }

  ghost predicate Awaited(r: Registry, info: UpgradeInfo) {
    exists id :: id in r.notices && id in r.infos && r.infos[id] == info
  }

  /** Registering a key keeps this if and only if no notice for the key is on its way. */
  lemma RegisterFresh(r: Registry, info: UpgradeInfo, callback: Option<nat>)
    requires Consistent(r) && Fresh(r)
    ensures Fresh(Register(r, info, callback)) <==> !Awaited(r, info)
  {
    var t := Register(r, info, callback);
    if id :| id in r.notices && id in r.infos && r.infos[id] == info {
      assert id in t.notices && t.infos[id] == info && t.clients[info].recipient != id;
    }
  }

  /** A late notice takes out whatever entry its key has now: that of a live client only if the client took
      the key over meanwhile. */
  lemma LateNotice(r: Registry, id: nat)
    requires Consistent(r) && id in r.notices && r.infos[id] in r.clients
    ensures r.infos[id] !in Deliver(r, id).clients
    ensures Watchable(r, r.clients[r.infos[id]]) ==> r.clients[r.infos[id]].recipient != id
  {
    assert id !in r.attached;
  }

  /** One client registers a key and dies, another registers the key before the notice of that death is handled:
      the notice leaves the second client, alive, without its entry. */
  lemma LateNoticeReached(info: UpgradeInfo, first: nat, second: nat)
    requires first != second
    ensures var steps := [RegisterStep(info, Some(first)), DieStep(first), RegisterStep(info, Some(second))];
            var r := Run(EMPTY, steps);
            && info in r.clients && r.clients[info].callback == Some(second) && Watchable(r, r.clients[info])
            && info !in Next(r, DeliverStep(0)).clients
  {
    var a, b, c := RegisterStep(info, Some(first)), DieStep(first), RegisterStep(info, Some(second));
    var r1 := Next(EMPTY, a);
    var r2 := Next(r1, b);
    var r3 := Next(r2, c);
    assert [a, b, c][1..] == [b, c] && [b, c][1..] == [c];
    assert Run(r2, [c]) == r3;
    assert Run(r1, [b, c]) == r3;
    assert r1.attached == map[0 := first] && r1.infos == map[0 := info];
    assert 0 in Watching(r1, first) && 0 in r3.notices && r3.infos[0] == info;
  }

  predicate Calm(r: Registry, step: Step) {
    step.RegisterStep? ==> forall id :: id in r.notices ==> id in r.infos ==> r.infos[id] != step.info
  }

  predicate CalmRun(r: Registry, steps: seq<Step>)
    decreases |steps|
  {
    steps == [] || (Calm(r, steps[0]) && CalmRun(Next(r, steps[0]), steps[1..]))
  }

  lemma StepFresh(r: Registry, step: Step)
    requires Consistent(r) && Fresh(r) && Calm(r, step)
    ensures Fresh(Next(r, step))
  {
    if step.RegisterStep? {
      RegisterFresh(r, step.info, step.callback);
    }
  }

  lemma {:induction false} RunFresh(r: Registry, steps: seq<Step>)
    requires Consistent(r) && Fresh(r) && CalmRun(r, steps)
    ensures Fresh(Run(r, steps)) && Consistent(Run(r, steps))
    decreases |steps|
  {
    if steps != [] {
      StepFresh(r, steps[0]);
      StepConsistent(r, steps[0]);
      RunFresh(Next(r, steps[0]), steps[1..]);
    }
  }

  ghost predicate FreshThroughout(r: Registry, steps: seq<Step>)
    decreases |steps|
  {
    Fresh(r) && (steps == [] || FreshThroughout(Next(r, steps[0]), steps[1..]))
  }

  /** Over whole runs: a notice on its way is always for the entry it was meant for if and only if no key is
      registered while a notice for it is on its way. */
  lemma {:induction false} FreshExactly(r: Registry, steps: seq<Step>)
    requires Consistent(r) && Fresh(r)
    ensures FreshThroughout(r, steps) <==> CalmRun(r, steps)
    decreases |steps|
  {
    if steps != [] {
      StepConsistent(r, steps[0]);
      if Calm(r, steps[0]) {
        StepFresh(r, steps[0]);
        FreshExactly(Next(r, steps[0]), steps[1..]);
      } else {
        RegisterFresh(r, steps[0].info, steps[0].callback);
      }
    }
  }

  /** In a run that registers no key while a notice for it is on its way, no notice ever takes out the entry of
      a live client. */
  lemma CalmDeathsSpareTheLiving(steps: seq<Step>, id: nat, info: UpgradeInfo)
    requires CalmRun(EMPTY, steps)
    ensures var r := Run(EMPTY, steps);
            info in r.clients && Watchable(r, r.clients[info]) ==> info in Deliver(r, id).clients
  {
    RunFresh(EMPTY, steps);
    var r := Run(EMPTY, steps);
    if info in r.clients && Watchable(r, r.clients[info]) && id in r.notices && id in r.infos && r.infos[id] == info {
      LateNotice(r, id);
      assert false;
    }
  }

  // ---------- the service's own code ----------

  class UpdateService {
    var state: Registry

    constructor ()
      ensures state == EMPTY
    {
      state := EMPTY;
    }

    method UnregisterUpdateCallback(info: UpgradeInfo)
      modifies this
      ensures state == Unregister(old(state), info)
    {
      if info !in state.clients {
        return;
      }
      var recipient := state.clients[info].recipient;
      state := state.(attached := state.attached - {recipient});
      state := state.(clients := state.clients - {info});
      state := state.(remoteIdle := state.clients == map[]);
    }

    method RegisterUpdateCallback(info: UpgradeInfo, callback: Option<nat>)
      modifies this
      ensures state == Register(old(state), info, callback)
    {
      UnregisterUpdateCallback(info);
      var recipient := state.nextRecipient;
      state := state.(nextRecipient := recipient + 1, infos := state.infos[recipient := info]);
      if callback.Some? && callback.value !in state.dead {
        state := state.(attached := state.attached[recipient := callback.value]);
      }
      state := state.(clients := state.clients[info := ClientProxy(callback, recipient)]);
      state := state.(remoteIdle := state.clients == map[]);
      assert info in state.clients;
    }

    method OnRemoteDied(recipient: nat)
      modifies this
      ensures state == Deliver(old(state), recipient)
    {
      if recipient !in state.notices || recipient !in state.infos {
        return;
      }
      state := state.(notices := state.notices - {recipient});
      UnregisterUpdateCallback(state.infos[recipient]);
    }

    method GetUpgradeCallback(info: UpgradeInfo) returns (callback: Option<nat>)
      ensures callback == if info in state.clients then state.clients[info].callback else None
    {
      if info !in state.clients {
        return None;
      }
      return state.clients[info].callback;
    }
  }
}
