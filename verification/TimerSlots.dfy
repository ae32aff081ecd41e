/** The sixteen timer slots of the utility library, and the operating system's timers they stand for. */
module TimerSlots {
  import opened Structs

  const TIMERLIST_LEN := 16

  /** A slot is free when its `tid` is 0. */
  datatype Slot = Slot(tid: nat, timeout: uint32, timerId: nat)

  const FREE := Slot(0, 0, 0)

  /** `live` are the timers the operating system holds for the process. */
  datatype Timers = Timers(slots: seq<Slot>, live: set<nat>)

  function AllFree(): (r: seq<Slot>)
    ensures |r| == TIMERLIST_LEN && forall i :: 0 <= i < |r| ==> r[i] == FREE
  {
    seq(TIMERLIST_LEN, _ => FREE)
  }

  const EMPTY := Timers(AllFree(), {})

  const OHOS_SUCCESS := 0
  const OHOS_FAILURE := -1

  // ---------- the operations ----------

  /** The lowest free slot from `from` on; the end of the list if there is none. */
  function LowestFree(slots: seq<Slot>, from: nat): (r: nat)
    requires from <= |slots|
    ensures from <= r <= |slots|
    ensures r < |slots| ==> slots[r].tid == 0
    ensures forall i :: from <= i < r ==> slots[i].tid != 0
    decreases |slots| - from
  {
    if from == |slots| || slots[from].tid == 0 then from else LowestFree(slots, from + 1)
  }

  /** Slot 0 is never given away. `created` is what timer_create comes to. */
  function Register(t: Timers, timeout: uint32, created: Option<nat>): (Timers, nat)
    requires |t.slots| == TIMERLIST_LEN
  {
    var tid := LowestFree(t.slots, 1);
    if tid == TIMERLIST_LEN || created.None? then (t, 0)
    else (Timers(t.slots[tid := Slot(tid, timeout, created.value)], t.live + {created.value}), tid)
  }

  /** The slot is given up even if its timer could not be deleted. */
  function Deregister(t: Timers, tid: nat, deleted: bool): (Timers, int)
    requires |t.slots| == TIMERLIST_LEN
  {
    if tid >= TIMERLIST_LEN || t.slots[tid].tid != tid then (t, OHOS_FAILURE)
    else (Timers(t.slots[tid := t.slots[tid].(tid := 0)],
                 if deleted then t.live - {t.slots[tid].timerId} else t.live),
          if deleted then OHOS_SUCCESS else OHOS_FAILURE)
  }

  function Held(slots: seq<Slot>): set<nat> {
    set i | 0 <= i < |slots| && slots[i].tid != 0 :: slots[i].timerId
  }

  /** Every timer still held is deleted, but for those the system would not delete. */
  function Exit(t: Timers, kept: set<nat>): Timers {
    Timers(EMPTY.slots, t.live - (Held(t.slots) - kept))
  }

  datatype Step =
    | RegisterStep(timeout: uint32, created: Option<nat>)
    | DeregisterStep(tid: nat, deleted: bool)
    | ExitStep(kept: set<nat>)

  function Next(t: Timers, step: Step): (r: Timers)
    requires |t.slots| == TIMERLIST_LEN
    ensures |r.slots| == TIMERLIST_LEN
  {
    match step
    case RegisterStep(timeout, created) => Register(t, timeout, created).0
    case DeregisterStep(tid, deleted) => Deregister(t, tid, deleted).0
    case ExitStep(kept) => Exit(t, kept)
  }

  function Run(t: Timers, steps: seq<Step>): (r: Timers)
    requires |t.slots| == TIMERLIST_LEN
    ensures |r.slots| == TIMERLIST_LEN
    decreases |steps|
  {
    if steps == [] then t else Run(Next(t, steps[0]), steps[1..])
  }

  // ---------- the shape of the list ----------

  /** Slot i holds timer id i or none, and slot 0 has never been used. */
  ghost predicate Shaped(slots: seq<Slot>) {
    && |slots| == TIMERLIST_LEN
    && (forall i :: 0 <= i < |slots| ==> slots[i].tid == 0 || slots[i].tid == i)
    && slots[0] == FREE
  }

  lemma StepShaped(t: Timers, step: Step)
    requires Shaped(t.slots)
    ensures Shaped(Next(t, step).slots)
  {
  }

  lemma {:induction false} RunShaped(t: Timers, steps: seq<Step>)
    requires Shaped(t.slots)
    ensures Shaped(Run(t, steps).slots)
    decreases |steps|
  {
    if steps != [] {
      StepShaped(t, steps[0]);
      RunShaped(Next(t, steps[0]), steps[1..]);
    }
  }

  /** In every run: a registration returns 0 exactly if all fifteen slots are taken or no timer could be created,
      and otherwise the lowest id not in use, which then is in use and leads to that timer. */
  lemma RegistrationInEveryRun(steps: seq<Step>, timeout: uint32, created: Option<nat>)
    ensures var t := Run(EMPTY, steps);
            var (u, tid) := Register(t, timeout, created);
            && Shaped(t.slots) && Shaped(u.slots)
            && (tid == 0 <==> created.None? || forall i :: 1 <= i < TIMERLIST_LEN ==> t.slots[i].tid == i)
            && (tid == 0 ==> u == t)
            && (tid != 0 ==> && 1 <= tid < TIMERLIST_LEN
                             && t.slots[tid].tid == 0
                             && (forall i :: 1 <= i < tid ==> t.slots[i].tid == i)
                             && u.slots == t.slots[tid := Slot(tid, timeout, created.value)])
  {
    RunShaped(EMPTY, steps);
    var t := Run(EMPTY, steps);
    StepShaped(t, RegisterStep(timeout, created));
  }

  /** The first slot with the id. */
  function Lookup(slots: seq<Slot>, tid: nat, from: nat): Option<nat>
    requires from <= |slots|
    decreases |slots| - from
  {
    if tid == 0 || from == |slots| then None
    else if slots[from].tid == tid then Some(from)
    else Lookup(slots, tid, from + 1)
  }

  /** Searching for an id comes to the same as indexing with it. */
  lemma {:induction false} LookupIsIndexing(slots: seq<Slot>, tid: nat, from: nat)
    requires Shaped(slots) && from <= |slots|
    ensures Lookup(slots, tid, from) ==
            if 0 < tid < |slots| && from <= tid && slots[tid].tid == tid then Some(tid) else None
    decreases |slots| - from
  {
    if tid != 0 && from < |slots| {
      LookupIsIndexing(slots, tid, from + 1);
    }
  }

  // ---------- no timer is lost ----------

  /** What the operating system promises: a new timer has an id of its own, and only a timer it has can be
      deleted. */
  ghost predicate Possible(t: Timers, step: Step)
    requires |t.slots| == TIMERLIST_LEN
  {
    match step
    case RegisterStep(_, created) => created.Some? ==> created.value !in t.live
    case DeregisterStep(tid, deleted) =>
      deleted && tid < TIMERLIST_LEN && t.slots[tid].tid == tid ==> t.slots[tid].timerId in t.live
    case ExitStep(_) => true
  }

  /** A deletion the system refuses, of a timer that is held, or the deletion of timer 0 under the name of id 0. */
  predicate Loses(t: Timers, step: Step)
    requires |t.slots| == TIMERLIST_LEN
  {
    match step
    case RegisterStep(_, _) => false
    case DeregisterStep(tid, deleted) =>
      && tid < TIMERLIST_LEN && t.slots[tid].tid == tid
      && (if tid == 0 then deleted && 0 in t.live else !deleted)
    case ExitStep(kept) => kept * Held(t.slots) != {}
  }

  ghost predicate OneEach(slots: seq<Slot>) {
    forall i, j :: 0 <= i < j < |slots| && slots[i].tid != 0 && slots[j].tid != 0 ==>
      slots[i].timerId != slots[j].timerId
  }

  /** The slots hold the live timers, each of them once. */
  ghost predicate Balanced(t: Timers) {
    Shaped(t.slots) && OneEach(t.slots) && t.live == Held(t.slots)
  }

  lemma HeldAdded(slots: seq<Slot>, k: nat, slot: Slot)
    requires k < |slots| && slots[k].tid == 0 && slot.tid != 0
    ensures Held(slots[k := slot]) == Held(slots) + {slot.timerId}
  {
    var after := slots[k := slot];
    forall i | 0 <= i < |slots| && slots[i].tid != 0
      ensures slots[i].timerId in Held(after)
    {
      assert after[i] == slots[i];
    }
    assert after[k] == slot;
  }

  lemma HeldDropped(slots: seq<Slot>, k: nat)
    requires k < |slots| && slots[k].tid != 0 && OneEach(slots)
    ensures Held(slots[k := slots[k].(tid := 0)]) == Held(slots) - {slots[k].timerId}
  {
    var after := slots[k := slots[k].(tid := 0)];
    forall i | 0 <= i < |slots| && slots[i].tid != 0 && i != k
      ensures slots[i].timerId in Held(after)
    {
      assert after[i] == slots[i];
    }
  }

  lemma RegisterBalanced(t: Timers, timeout: uint32, created: Option<nat>)
    requires Balanced(t) && Possible(t, RegisterStep(timeout, created))
    ensures Balanced(Register(t, timeout, created).0)
  {
    StepShaped(t, RegisterStep(timeout, created));
    var tid := LowestFree(t.slots, 1);
    if tid < TIMERLIST_LEN && created.Some? {
      HeldAdded(t.slots, tid, Slot(tid, timeout, created.value));
    }
  }

  lemma DeregisterBalanced(t: Timers, tid: nat, deleted: bool)
    requires Balanced(t)
    ensures Balanced(Deregister(t, tid, deleted).0) <==> !Loses(t, DeregisterStep(tid, deleted))
  {
    StepShaped(t, DeregisterStep(tid, deleted));
    if tid == 0 {
      DeregisterZero(t, deleted);
    } else if tid < TIMERLIST_LEN && t.slots[tid].tid == tid {
      HeldDropped(t.slots, tid);
      assert t.slots[tid].timerId in Held(t.slots);
    }
  }

  /** Timers left over by the exit are those that were held and could not be deleted. */
  lemma ExitBalanced(t: Timers, kept: set<nat>)
    requires Balanced(t)
    ensures Exit(t, kept).live == kept * Held(t.slots)
    ensures Balanced(Exit(t, kept)) <==> !Loses(t, ExitStep(kept))
  {
    assert Held(EMPTY.slots) == {};
  }

  /** From a balanced list, a step leads to a balanced one if and only if it loses no timer. */
  lemma BalancedExactly(t: Timers, step: Step)
    requires Balanced(t) && Possible(t, step)
    ensures Balanced(Next(t, step)) <==> !Loses(t, step)
  {
    match step
    case RegisterStep(timeout, created) => RegisterBalanced(t, timeout, created);
    case DeregisterStep(tid, deleted) => DeregisterBalanced(t, tid, deleted);
    case ExitStep(kept) => ExitBalanced(t, kept);
  }

  ghost predicate PossibleRun(t: Timers, steps: seq<Step>)
    requires |t.slots| == TIMERLIST_LEN
    decreases |steps|
  {
    steps == [] || (Possible(t, steps[0]) && PossibleRun(Next(t, steps[0]), steps[1..]))
  }

  ghost predicate BalancedThroughout(t: Timers, steps: seq<Step>)
    requires |t.slots| == TIMERLIST_LEN
    decreases |steps|
  {
    Balanced(t) && (steps == [] || BalancedThroughout(Next(t, steps[0]), steps[1..]))
  }

  predicate LosesNone(t: Timers, steps: seq<Step>)
    requires |t.slots| == TIMERLIST_LEN
    decreases |steps|
  {
    steps == [] || (!Loses(t, steps[0]) && LosesNone(Next(t, steps[0]), steps[1..]))
  }

  lemma {:induction false} RunBalancedExactly(t: Timers, steps: seq<Step>)
    requires Balanced(t) && PossibleRun(t, steps)
    ensures BalancedThroughout(t, steps) <==> LosesNone(t, steps)
    decreases |steps|
  {
    if steps != [] {
      BalancedExactly(t, steps[0]);
      if !Loses(t, steps[0]) {
        RunBalancedExactly(Next(t, steps[0]), steps[1..]);
      }
    }
  }

  /** In every run the system can produce, the timers it holds are at all times exactly those in the slots, one each,
      if and only if no step of the run loses one. */
  lemma NoTimerLost(steps: seq<Step>)
    requires PossibleRun(EMPTY, steps)
    ensures BalancedThroughout(EMPTY, steps) <==> LosesNone(EMPTY, steps)
  {
    EmptyBalanced();
    RunBalancedExactly(EMPTY, steps);
  }

  lemma EmptyBalanced()
    ensures Balanced(EMPTY)
  {
    assert Held(EMPTY.slots) == {};
  }

  /** A deletion that fails loses the timer: the slot is given up and the timer lives on. */
  lemma FailedDeletionLeaks(t: Timers, tid: nat)
    requires Balanced(t) && 0 < tid < TIMERLIST_LEN && t.slots[tid].tid == tid
    ensures var u := Deregister(t, tid, false).0;
            u.live == Held(u.slots) + {t.slots[tid].timerId} && t.slots[tid].timerId !in Held(u.slots)
  {
    HeldDropped(t.slots, tid);
  }

  /** Giving up id 0 is accepted, although no registration returns it. It leaves the slots alone, and takes the
      system's timer 0 away from the slot that holds it if there is one and the deletion succeeds; otherwise it
      does nothing. */
  lemma DeregisterZero(t: Timers, deleted: bool)
    requires Balanced(t)
    ensures var (u, code) := Deregister(t, 0, deleted);
            && code == (if deleted then OHOS_SUCCESS else OHOS_FAILURE)
            && u.slots == t.slots
            && (Balanced(u) <==> !(deleted && 0 in t.live))
  {
    var u := Deregister(t, 0, deleted).0;
    assert u.slots == t.slots;
  }

  /** A deregistration succeeds exactly if the id's slot is in use, or it is id 0, and the system deletes the timer;
      an unknown id fails and changes nothing. */
  lemma DeregisterCode(t: Timers, tid: nat, deleted: bool)
    requires Shaped(t.slots)
    ensures var (u, code) := Deregister(t, tid, deleted);
            && (code == 0 <==> deleted && (tid == 0 || (tid < 16 && t.slots[tid].tid == tid)))
            && (code == 0 || code == -1)
            && (tid >= 16 || (tid != 0 && t.slots[tid].tid == 0) ==> u == t)
            && (0 < tid < 16 ==> u.slots[tid].tid == 0)
  {
  }

  lemma FirstRegistered(timeout: uint32, id: nat)
    ensures var t := Next(EMPTY, RegisterStep(timeout, Some(id)));
            && t.slots[1] == Slot(1, timeout, id) && t.live == {id}
            && t.slots == EMPTY.slots[1 := Slot(1, timeout, id)]
  {
    assert LowestFree(EMPTY.slots, 1) == 1;
  }

  lemma RunTwo(t: Timers, a: Step, b: Step)
    requires |t.slots| == TIMERLIST_LEN
    ensures Run(t, [a, b]) == Next(Next(t, a), b)
  {
    assert [a, b][1..] == [b];
    assert Run(Next(t, a), [b]) == Next(Next(t, a), b);
  }

  /** A timer is leaked by one registration and one failed deletion. */
  lemma LeakReached(timeout: uint32, id: nat)
    ensures var t := Run(EMPTY, [RegisterStep(timeout, Some(id)), DeregisterStep(1, false)]);
            Held(t.slots) == {} && t.live == {id}
  {
    RunTwo(EMPTY, RegisterStep(timeout, Some(id)), DeregisterStep(1, false));
    FirstRegistered(timeout, id);
  }

  /** And by an exit whose deletion fails. */
  lemma ExitLeakReached(timeout: uint32, id: nat)
    ensures var t := Run(EMPTY, [RegisterStep(timeout, Some(id)), ExitStep({id})]);
            Held(t.slots) == {} && t.live == {id}
  {
    RunTwo(EMPTY, RegisterStep(timeout, Some(id)), ExitStep({id}));
    FirstRegistered(timeout, id);
  }

  /** The first timer the system creates may be its timer 0: giving up id 0 then deletes it, and slot 1 still
      counts as holding it. */
  lemma TimerZeroLost(timeout: uint32)
    ensures var t := Run(EMPTY, [RegisterStep(timeout, Some(0)), DeregisterStep(0, true)]);
            t.slots[1].tid == 1 && Held(t.slots) == {0} && t.live == {}
  {
    RunTwo(EMPTY, RegisterStep(timeout, Some(0)), DeregisterStep(0, true));
    FirstRegistered(timeout, 0);
    var t := Run(EMPTY, [RegisterStep(timeout, Some(0)), DeregisterStep(0, true)]);
    assert t.slots[1] == Slot(1, timeout, 0);
    assert forall i :: 0 <= i < |t.slots| && t.slots[i].tid != 0 ==> i == 1;
  }

  // ---------- the timer's period ----------

  const MILLISECOND_PER_SECOND := 1000
  const NANOSECOND_PER_MILLISECOND := 1_000_000

  function Seconds(timeout: uint32): int32 {
    timeout / MILLISECOND_PER_SECOND
  }

  function Nanoseconds(timeout: uint32): int32 {
    timeout % MILLISECOND_PER_SECOND * NANOSECOND_PER_MILLISECOND
  }

  /** The two parts make up the timeout and are in the range timer_settime asks for. They are both 0, which
      stops a timer instead of starting it, exactly for a timeout of 0. */
  lemma PeriodExact(timeout: uint32)
    ensures Seconds(timeout) * 1000 + Nanoseconds(timeout) / 1_000_000 == timeout
    ensures Nanoseconds(timeout) % 1_000_000 == 0
    ensures 0 <= Nanoseconds(timeout) < 1_000_000_000 && Seconds(timeout) >= 0
    ensures Seconds(timeout) == 0 && Nanoseconds(timeout) == 0 <==> timeout == 0
  {
  }

  // ---------- the library's own code ----------

  class TimerList {
    const list: array<Slot>
    ghost var live: set<nat>

    ghost predicate Valid()
      reads this, list
    {
      list.Length == TIMERLIST_LEN && Shaped(list[..])
    }

    ghost function View(): Timers
      reads this, list
    {
      Timers(list[..], live)
    }

    constructor ()
      ensures Valid() && View() == EMPTY && fresh(list)
    {
      list := new Slot[TIMERLIST_LEN](_ => FREE);
      live := {};
      new;
      assert list[..] == EMPTY.slots;
    }

    /** The index of the slot with the id, or none. */
    method GetTimerById(tid: nat) returns (found: Option<nat>)
      requires Valid()
      ensures found == if 0 < tid < TIMERLIST_LEN && list[tid].tid == tid then Some(tid) else None
    {
      if tid == 0 {
        return None;
      }
      for i := 0 to list.Length
        invariant forall j :: 0 <= j < i ==> list[j].tid != tid
      {
        if list[i].tid == tid {
          return Some(i);
        }
      }
      return None;
    }

    method RegisterCycleTimerCB(timeout: uint32, created: Option<nat>) returns (tid: nat)
      requires Valid()
      modifies this`live, list
      ensures Valid() && (View(), tid) == Register(old(View()), timeout, created)
    {
      tid := 1;
      while tid < list.Length
        invariant 1 <= tid <= list.Length
        invariant list[..] == old(list[..]) && live == old(live)
        invariant LowestFree(list[..], 1) == LowestFree(list[..], tid)
      {
        if list[tid].tid == 0 {
          if created.None? {
            return 0;
          }
          list[tid] := Slot(tid, timeout, created.value);
          live := live + {created.value};
          assert list[..] == old(list[..])[tid := Slot(tid, timeout, created.value)];
          return;
        }
        tid := tid + 1;
      }
      return 0;
    }

    method DeregisterCycleTimerCB(tid: nat, deleted: bool) returns (code: int)
      requires Valid()
      modifies this`live, list
      ensures Valid() && (View(), code) == Deregister(old(View()), tid, deleted)
    {
      if tid >= TIMERLIST_LEN {
        return OHOS_FAILURE;
      }
      if list[tid].tid == tid {
        if deleted {
          live := live - {list[tid].timerId};
        }
        list[tid] := list[tid].(tid := 0);
        assert list[..] == old(list[..])[tid := old(list[tid]).(tid := 0)];
        return if deleted then OHOS_SUCCESS else OHOS_FAILURE;
      }
      return OHOS_FAILURE;
    }

    method ExitUpdateTimer(kept: set<nat>)
      requires Valid()
      modifies this`live, list
      ensures Valid() && View() == Exit(old(View()), kept)
    {
      ghost var slots := list[..];
      for i := 0 to list.Length
        invariant list[..] == slots
        invariant live == old(live) - (Held(slots[..i]) - kept)
      {
        assert slots[..i + 1] == slots[..i] + [slots[i]];
        HeldSnoc(slots[..i], slots[i]);
        if list[i].tid != 0 && list[i].timerId !in kept {
          live := live - {list[i].timerId};
        }
      }
      assert slots[..list.Length] == slots;
      for i := 0 to list.Length
        invariant forall j :: 0 <= j < i ==> list[j] == FREE
        invariant live == old(live) - (Held(slots) - kept)
      {
        list[i] := FREE;
      }
      assert list[..] == EMPTY.slots;
    }
  }

  lemma HeldSnoc(slots: seq<Slot>, slot: Slot)
    ensures Held(slots + [slot]) == Held(slots) + (if slot.tid != 0 then {slot.timerId} else {})
  {
    var all := slots + [slot];
    forall i | 0 <= i < |slots| && slots[i].tid != 0
      ensures slots[i].timerId in Held(all)
    {
      assert all[i] == slots[i];
    }
    assert all[|slots|] == slot;
  }
}
