/** How the reason for a restart is handed from the process that schedules it to the one it starts, through
    one preference entry. */
module RestartReason {
  import opened Structs
  import opened FirmwareFlow

  datatype Event = Schedule(reason: int) | Start(bootSeconds: int)

  /** What the preferences hold after `events`. */
  function Record(events: seq<Event>): Option<int>
    decreases |events|
  {
    if events == [] then None
    else
      var before := Record(events[..|events| - 1]);
      match events[|events| - 1]
      case Schedule(reason) => Some(reason)
      case Start(bootSeconds) => StartupReason(before, bootSeconds).1
  }

  /** What the start at `i` takes as its reason. */
  function Returned(events: seq<Event>, i: nat): int
    requires i < |events| && events[i].Start?
  {
    StartupReason(Record(events[..i]), events[i].bootSeconds).0
  }

  predicate Late(e: Event) {
    e.Start? && e.bootSeconds > BOOT_COMPLETE_SIMULATE_DURATION
  }

  /** Nothing between `k` and `i` schedules a restart or starts outside the boot window. */
  ghost predicate Undisturbed(events: seq<Event>, k: nat, i: nat)
    requires i <= |events|
  {
    forall j :: k < j < i ==> !events[j].Schedule? && !Late(events[j])
  }

  /** The reason scheduled at `k` is meant for the start at `i`. */
  ghost predicate HandedTo(events: seq<Event>, k: nat, i: nat) {
    && k < i < |events|
    && events[k].Schedule? && events[k].reason != REASON_UNKNOWN
    && Late(events[i])
    && Undisturbed(events, k, i)
  }

  lemma RecordStep(events: seq<Event>, i: nat)
    requires i < |events|
    ensures Record(events[..i + 1]) ==
            match events[i]
            case Schedule(reason) => Some(reason)
            case Start(bootSeconds) => StartupReason(Record(events[..i]), bootSeconds).1
  {
    assert events[..i + 1][..i] == events[..i];
  }

  /** A reason stays on record while nothing disturbs it. */
  lemma {:induction false} Standing(events: seq<Event>, k: nat, i: nat)
    requires k < i <= |events| && events[k].Schedule? && Undisturbed(events, k, i)
    ensures Record(events[..i]) == Some(events[k].reason)
    decreases i
  {
    RecordStep(events, i - 1);
    if k < i - 1 {
      Standing(events, k, i - 1);
    }
  }

  /** A recorded reason has an event that recorded it, undisturbed since. */
  lemma {:induction false} Origin(events: seq<Event>, i: nat) returns (k: nat)
    requires i <= |events|
    requires Record(events[..i]).Some? && Record(events[..i]).value != REASON_UNKNOWN
    ensures k < i && events[k] == Schedule(Record(events[..i]).value) && Undisturbed(events, k, i)
    decreases i
  {
    RecordStep(events, i - 1);
    if events[i - 1].Schedule? {
      k := i - 1;
    } else {
      k := Origin(events, i - 1);
    }
  }

  /** A start inside the boot window is a reboot. Any other start reports the reason meant for it, and a
      scheduled task if none is: no other. */
  lemma HandOff(events: seq<Event>, i: nat)
    requires i < |events| && events[i].Start?
    ensures !Late(events[i]) ==> Returned(events, i) == REASON_DEVICE_REBOOT
    ensures forall k: nat :: HandedTo(events, k, i) ==> Returned(events, i) == events[k].reason
    ensures Late(events[i]) && (forall k: nat :: !HandedTo(events, k, i)) ==> Returned(events, i) == REASON_SCHEDULE_TASK
  {
    forall k: nat | HandedTo(events, k, i)
      ensures Returned(events, i) == events[k].reason
    {
      Standing(events, k, i);
    }
    var recorded := Record(events[..i]);
    if Late(events[i]) && recorded.Some? && recorded.value != REASON_UNKNOWN {
      var k := Origin(events, i);
      assert HandedTo(events, k, i);
    }
  }

  /** One schedule is handed to one start at most, and one start is handed one schedule's reason at most. */
  lemma HandedOnce(events: seq<Event>, k: nat, i: nat, k': nat, i': nat)
    requires HandedTo(events, k, i) && HandedTo(events, k', i')
    ensures k == k' <==> i == i'
  {
  }

  /** A reset is reported exactly by the start that was handed a reset. */
  lemma ResetReported(events: seq<Event>, i: nat)
    requires i < |events| && events[i].Start?
    ensures Returned(events, i) == REASON_PROCESS_ENV_RESET <==>
            exists k: nat :: HandedTo(events, k, i) && events[k].reason == REASON_PROCESS_ENV_RESET
  {
    HandOff(events, i);
  }
}
