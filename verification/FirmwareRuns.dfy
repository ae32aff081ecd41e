/** Runs on the empty device that begin with an offer of the server. */
module FirmwareRuns {
  import opened Structs
  import opened FirmwareTables
  import opened VersionCompare
  import opened FirmwareFlow
  import opened FirmwareSafety
  import opened FirmwareRows

  function PathOf(item: ServerItem): string {
    PACKAGE_PATH + "/" + LastSplit(item.url)
  }

  function Rows(items: seq<ServerItem>): (r: seq<Component>)
    ensures |r| == |items|
    ensures forall i :: 0 <= i < |r| ==> r[i].spath == PathOf(items[i]) && r[i].verifyInfo == items[i].verifyInfo &&
                                         r[i].size == items[i].size && r[i].versionId == ""
  {
    Prepared(Analysed(items))
  }

  function Offer(items: seq<ServerItem>): Step {
    CheckStep(CheckSuccess, Analysed(items))
  }

  lemma {:induction false} RunThen(dev: Device, s: State, steps: seq<Step>, last: Step)
    ensures Run(dev, s, steps + [last]) == Next(dev, Run(dev, s, steps), last)
    decreases |steps|
  {
    if steps == [] {
      assert [] + [last] == [last] && [last][1..] == [];
    } else {
      assert (steps + [last])[0] == steps[0] && (steps + [last])[1..] == steps[1..] + [last];
      RunThen(dev, Next(dev, s, steps[0]), steps[1..], last);
    }
  }

  /** What the tables hold of `items` in the given status. */
  ghost predicate Holding(dev: Device, s: State, items: seq<ServerItem>, status: Status) {
    && |s.tasks| == 1 && s.tasks[0].taskId == dev.sha("") && s.tasks[0].status == status
    && SameRows(Rows(items), s.components)
  }

  lemma Offered(dev: Device, s: State, items: seq<ServerItem>)
    requires items != [] && !HasUndoneTask(s.tasks) && !SameWithDb(s.components, Analysed(items))
    ensures var t := Next(dev, s, Offer(items));
            && Holding(dev, t, items, CheckVersionSuccess)
            && t.files == map[] && t.proof == None
            && t.downloads == s.downloads && t.installs == s.installs
  {
    NoIdsJoined(Rows(items));
  }

  /** A stored version offered once more is stored anew, its progress lost, if and only if its packages differ in
      size or digest among themselves and nothing is under way. */
  lemma OfferedAgain(dev: Device, s: State, items: seq<ServerItem>, status: Status)
    requires items != [] && Holding(dev, s, items, status)
    ensures Replaces(s, CheckSuccess, Analysed(items)) <==> !HasUndoneTask(s.tasks) && !AllAlike(items)
  {
    RecheckSame(s.components, items);
  }

  lemma OfferRun(dev: Device, items: seq<ServerItem>)
    requires items != []
    ensures var s := Run(dev, INITIAL, [Offer(items)]);
            && Holding(dev, s, items, CheckVersionSuccess) && s.files == map[] && s.proof == None
            && s.downloads == [] && s.installs == [] && s.reason == None
  {
    assert !SameWithDb([], Analysed(items));
    Offered(dev, INITIAL, items);
    RunThen(dev, INITIAL, [], Offer(items));
    assert [] + [Offer(items)] == [Offer(items)];
  }

  /** A version whose packages are alike in size and digest, offered twice: every row ends up with the url of the last
      package, so each has its own if and only if they all have that one. */
  lemma MergedRun(dev: Device, items: seq<ServerItem>)
    requires items != [] && AllAlike(items)
    ensures var s := Run(dev, INITIAL, [Offer(items)] + [Offer(items)]);
            && |s.components| == |items|
            && (forall i :: 0 <= i < |items| ==> s.components[i].url == items[|items| - 1].url)
            && ((forall i :: 0 <= i < |items| ==> s.components[i].url == items[i].url) <==>
                forall i :: 0 <= i < |items| ==> items[i].url == items[0].url)
  {
    OfferRun(dev, items);
    RunThen(dev, INITIAL, [Offer(items)], Offer(items));
    var s := Run(dev, INITIAL, [Offer(items)]);
    RecheckSame(s.components, items);
    SameVersionWritten(dev, s, CheckSuccess, Analysed(items));
    forall i | 0 <= i < |items|
      ensures UpdateUrls(s.components, Analysed(items))[i].url == items[|items| - 1].url
    {
      UrlsMerged(s.components, items, i);
    }
  }
}
