/** Where the digest guarantee stops. Runs from the empty device, for all offers and packages: a version replaced
    under a download, under an install, or under a request to apply; a package written again after it was checked;
    a task of several packages. */
module FirmwareStale {
  import opened Structs
  import opened FirmwareTables
  import opened VersionCompare
  import opened FirmwareFlow
  import opened FirmwareSafety
  import opened FirmwareRuns
  import opened FirmwareStanding
  import opened FirmwareVerified
  import opened FirmwarePackages

  const REQUEST := DownloadStep(true, true)

  // ---------- offers and downloads ----------

  /** An offer against a single row is the same exactly on size and digest. */
  lemma SameOffer(dev: Device, s: State, item: ServerItem, other: ServerItem, status: Status)
    requires Holding(dev, s, [item], status)
    ensures SameWithDb(s.components, Analysed([other])) <==>
            item.size == other.size && item.verifyInfo == other.verifyInfo
  {
    var row := s.components[0];
    assert s.components == [row];
    assert QueryByVersionId([row], "") == Some(row);
    var list := Analysed([other]);
    assert list[0] in list;
  }

  lemma Requested(dev: Device, s: State, items: seq<ServerItem>)
    requires Holding(dev, s, items, CheckVersionSuccess)
    ensures Next(dev, s, REQUEST) ==
            s.(downloads := s.downloads + [DownloadFlow(s.components, dev.sha(""))])
  {
  }

  lemma VerifyInfoKept(a: seq<Component>, b: seq<Component>, path: string)
    requires SameRows(a, b)
    ensures VerifyInfoFor(a, path) == VerifyInfoFor(b, path)
    decreases |a|
  {
    if a != [] {
      assert b[0].spath == a[0].spath && b[0].verifyInfo == a[0].verifyInfo;
      VerifyInfoKept(a[1..], b[1..], path);
    }
  }

  /** The digest the check expects of the package of item `i`. */
  function Expected(items: seq<ServerItem>, i: nat): string
    requires i < |items|
  {
    VerifyInfoFor(Rows(items), PathOf(items[i]))
  }

  /** Offer, request, the package of item `i`, and its success. */
  function DownloadRun(items: seq<ServerItem>, i: nat, package: string): seq<Step> {
    [Offer(items), REQUEST] + [PackageStep(0, i, Some(package))] + [ReportStep(0, i, ReportSuccess, ONE_HUNDRED)]
  }

  ghost predicate Downloaded(dev: Device, s: State, items: seq<ServerItem>, i: nat, package: string)
    requires i < |items|
  {
    && Holding(dev, s, items, DownloadSuccess)
    && s.downloads == [] && s.installs == []
    && s.files == map[PathOf(items[i]) := package]
    && s.proof == Some(Proof(PathOf(items[i]), Expected(items, i), Some(package)))
  }

  lemma RequestRun(dev: Device, items: seq<ServerItem>)
    requires items != []
    ensures var s := Run(dev, INITIAL, [Offer(items), REQUEST]);
            && Holding(dev, s, items, CheckVersionSuccess)
            && s.files == map[] && s.proof == None && s.installs == []
            && s.downloads == [DownloadFlow(s.components, dev.sha(""))]
  {
    OfferRun(dev, items);
    Requested(dev, Run(dev, INITIAL, [Offer(items)]), items);
    RunThen(dev, INITIAL, [Offer(items)], REQUEST);
    assert [Offer(items)] + [REQUEST] == [Offer(items), REQUEST];
  }

  /** A success reported by the first flow for its row `i`, with the package it expects in place. */
  lemma SuccessReported(dev: Device, s: State, items: seq<ServerItem>, i: nat, package: string)
    requires i < |items| && Holding(dev, s, items, CheckVersionSuccess) && s.installs == []
    requires |s.downloads| > 0 && s.downloads[0] == DownloadFlow(s.components, dev.sha(""))
    requires s.files == map[PathOf(items[i]) := package]
    requires DigestMatches(dev.sha, Expected(items, i), Some(package))
    ensures var t := Next(dev, s, ReportStep(0, i, ReportSuccess, ONE_HUNDRED));
            && Downloaded(dev, t.(downloads := []), items, i, package)
            && t.downloads == s.downloads[1..]
  {
    var path, t := PathOf(items[i]), Next(dev, s, ReportStep(0, i, ReportSuccess, ONE_HUNDRED));
    VerifyInfoKept(Rows(items), s.components, path);
    assert s.components[i].spath == path && FileAt(s.files, path) == Some(package);
    AcceptedReport(dev, s, i, path, Expected(items, i), Some(package));
    Reported(dev, s, t, items, i, package);
  }

  lemma Reported(dev: Device, s: State, t: State, items: seq<ServerItem>, i: nat, package: string)
    requires i < |items| && SameRows(Rows(items), s.components) && SameRows(s.components, t.components)
    requires |t.tasks| == 1 && t.tasks[0].taskId == dev.sha("") && t.tasks[0].status == DownloadSuccess
    requires t.installs == [] && t.files == map[PathOf(items[i]) := package]
    requires t.proof == Some(Proof(PathOf(items[i]), Expected(items, i), Some(package)))
    ensures Downloaded(dev, t.(downloads := []), items, i, package)
  {
    SameRowsTransitive(Rows(items), s.components, t.components);
  }

  lemma AcceptedReport(dev: Device, s: State, i: nat, path: string, verifyInfo: string, content: Option<string>)
    requires |s.tasks| == 1 && |s.downloads| > 0 && i < |s.downloads[0].components|
    requires s.downloads[0].taskId == s.tasks[0].taskId && s.downloads[0].components[i].spath == path
    requires VerifyInfoFor(s.downloads[0].components, path) == verifyInfo && FileAt(s.files, path) == content
    requires DigestMatches(dev.sha, verifyInfo, content)
    ensures var t := Next(dev, s, ReportStep(0, i, ReportSuccess, ONE_HUNDRED));
            && |t.tasks| == 1 && t.tasks[0].taskId == s.tasks[0].taskId && t.tasks[0].status == DownloadSuccess
            && SameRows(s.components, t.components) && t.files == s.files
            && t.proof == Some(Proof(path, verifyInfo, content))
            && t.downloads == s.downloads[1..] && t.installs == s.installs
  {
    ReportExact(dev, s, 0, i, ReportSuccess, ONE_HUNDRED);
  }

  lemma Written(dev: Device, s: State, i: nat, path: string, content: string)
    requires |s.downloads| > 0 && i < |s.downloads[0].components| && s.downloads[0].components[i].spath == path
    ensures Next(dev, s, PackageStep(0, i, Some(content))) == s.(files := s.files[path := content])
  {
  }

  lemma DownloadReached(dev: Device, items: seq<ServerItem>, i: nat, package: string)
    requires i < |items| && DigestMatches(dev.sha, Expected(items, i), Some(package))
    ensures Downloaded(dev, Run(dev, INITIAL, DownloadRun(items, i, package)), items, i, package)
  {
    var write, report := PackageStep(0, i, Some(package)), ReportStep(0, i, ReportSuccess, ONE_HUNDRED);
    RequestRun(dev, items);
    var s2 := Run(dev, INITIAL, [Offer(items), REQUEST]);
    RunThen(dev, INITIAL, [Offer(items), REQUEST], write);
    RunThen(dev, INITIAL, [Offer(items), REQUEST] + [write], report);
    FirstDownload(dev, s2, items, i, package);
  }

  /** The package and the success, with one request or more at work. */
  lemma FirstDownload(dev: Device, s: State, items: seq<ServerItem>, i: nat, package: string)
    requires i < |items| && Holding(dev, s, items, CheckVersionSuccess) && s.installs == [] && s.files == map[]
    requires |s.downloads| > 0 && s.downloads[0] == DownloadFlow(s.components, dev.sha(""))
    requires DigestMatches(dev.sha, Expected(items, i), Some(package))
    ensures var t := Next(dev, Next(dev, s, PackageStep(0, i, Some(package))),
                          ReportStep(0, i, ReportSuccess, ONE_HUNDRED));
            && Downloaded(dev, t.(downloads := []), items, i, package)
            && t.downloads == s.downloads[1..]
  {
    var path := PathOf(items[i]);
    assert s.components[i].spath == path;
    Written(dev, s, i, path, package);
    SuccessReported(dev, s.(files := s.files[path := package]), items, i, package);
  }

  // ---------- a version replaced ----------

  predicate SameTo(first: ServerItem, second: ServerItem) {
    first.size == second.size && first.verifyInfo == second.verifyInfo
  }

  /** A second offer leaves the first in place if it compares equal, and takes its place otherwise. */
  lemma SecondOffer(dev: Device, s: State, first: ServerItem, second: ServerItem, status: Status)
    requires Holding(dev, s, [first], status) && !HasUndoneTask(s.tasks)
    ensures var t := Next(dev, s, Offer([second]));
            && t.downloads == s.downloads && t.installs == s.installs
            && if SameTo(first, second) then
                 Holding(dev, t, [first], status) && t.files == s.files && t.proof == s.proof
               else
                 Holding(dev, t, [second], CheckVersionSuccess) && t.files == map[] && t.proof == None
  {
    SameOffer(dev, s, first, second, status);
    if SameTo(first, second) {
      var t := Next(dev, s, Offer([second]));
      UpdateUrlsSameRows(s.components, Analysed([second]));
      SameRowsTransitive(Rows([first]), s.components, t.components);
    } else {
      Offered(dev, s, [second]);
    }
  }

  lemma ProvedSingle(dev: Device, s: State, item: ServerItem, status: Status)
    requires Holding(dev, s, [item], status) && s.proof.Some?
    requires DigestMatches(dev.sha, s.proof.value.verifyInfo, s.proof.value.content)
    ensures Proved(dev, s) <==> PathOf(item) == s.proof.value.path && item.verifyInfo == s.proof.value.verifyInfo
  {
    assert s.components[0] in s.components;
    assert forall c :: c in s.components ==> c == s.components[0];
  }

  /** The second offer arrives between the download request and its first report. */
  function StaleRun(first: ServerItem, second: ServerItem, package: string): seq<Step> {
    [Offer([first]), REQUEST] + [Offer([second])] + [PackageStep(0, 0, Some(package))] +
    [ReportStep(0, 0, ReportSuccess, ONE_HUNDRED)]
  }

  /** Every version has the same task id, so the late report of the first download marks the second version as
      downloaded. What then stands in the table was checked if and only if the two versions have one digest,
      and also one package path or one size. */
  lemma StaleDownload(dev: Device, first: ServerItem, second: ServerItem, package: string)
    requires DigestMatches(dev.sha, first.verifyInfo, Some(package))
    ensures var s := Run(dev, INITIAL, StaleRun(first, second, package));
            && CanInstall(dev, s.tasks)
            && (Proved(dev, s) <==>
                  first.verifyInfo == second.verifyInfo &&
                  (PathOf(first) == PathOf(second) || first.size == second.size))
  {
    var c, d := Offer([second]), PackageStep(0, 0, Some(package));
    var e := ReportStep(0, 0, ReportSuccess, ONE_HUNDRED);
    var start := [Offer([first]), REQUEST];
    RequestRun(dev, [first]);
    RunThen(dev, INITIAL, start, c);
    RunThen(dev, INITIAL, start + [c], d);
    RunThen(dev, INITIAL, start + [c] + [d], e);
    StaleReport(dev, Run(dev, INITIAL, start), first, second, package);
  }

  lemma StaleReport(dev: Device, s: State, first: ServerItem, second: ServerItem, package: string)
    requires DigestMatches(dev.sha, first.verifyInfo, Some(package))
    requires Holding(dev, s, [first], CheckVersionSuccess)
    requires s.downloads == [DownloadFlow(s.components, dev.sha(""))]
    ensures var t := Next(dev, Next(dev, Next(dev, s, Offer([second])), PackageStep(0, 0, Some(package))),
                          ReportStep(0, 0, ReportSuccess, ONE_HUNDRED));
            && CanInstall(dev, t.tasks)
            && (Proved(dev, t) <==>
                  first.verifyInfo == second.verifyInfo &&
                  (PathOf(first) == PathOf(second) || first.size == second.size))
  {
    var path := PathOf(first);
    SecondOffer(dev, s, first, second, CheckVersionSuccess);
    var u := Next(dev, s, Offer([second]));
    assert u.downloads[0].components[0].spath == path;
    Written(dev, u, 0, path, package);
    var w := u.(files := u.files[path := package]);
    assert VerifyInfoFor(w.downloads[0].components, path) == first.verifyInfo;
    AcceptedReport(dev, w, 0, path, first.verifyInfo, Some(package));
    var t := Next(dev, w, ReportStep(0, 0, ReportSuccess, ONE_HUNDRED));
    var kept := if SameTo(first, second) then first else second;
    SameRowsTransitive(Rows([kept]), w.components, t.components);
    ProvedSingle(dev, t, kept, DownloadSuccess);
  }

  lemma ExpectedOne(item: ServerItem)
    ensures Expected([item], 0) == item.verifyInfo
  {
    assert Rows([item])[0].spath == PathOf(item);
  }

  /** An apply is requested for a downloaded version, another is offered, and then the apply begins. */
  function ApplyRun(first: ServerItem, second: ServerItem, package: string): seq<Step> {
    DownloadRun([first], 0, package) + [UpgradeStep(OrderApply, true)] + [Offer([second])] + [BeginStep(0)]
  }

  /** No download is at work when the version is replaced, yet the task ends up updating; it was checked if and
      only if the offers compare equal. */
  lemma StaleApply(dev: Device, first: ServerItem, second: ServerItem, package: string)
    requires DigestMatches(dev.sha, first.verifyInfo, Some(package))
    ensures var s := Run(dev, INITIAL, ApplyRun(first, second, package));
            && PastDownload(s) && s.tasks[0].status == Updating && s.downloads == []
            && (Proved(dev, s) <==> SameTo(first, second))
            && (!SameTo(first, second) ==> s.proof == None && Holding(dev, s, [second], Updating))
  {
    var start := DownloadRun([first], 0, package);
    var a, b, c := UpgradeStep(OrderApply, true), Offer([second]), BeginStep(0);
    ExpectedOne(first);
    DownloadReached(dev, [first], 0, package);
    RunThen(dev, INITIAL, start, a);
    RunThen(dev, INITIAL, start + [a], b);
    RunThen(dev, INITIAL, start + [a] + [b], c);
    StaleApplied(dev, Run(dev, INITIAL, start), first, second, package);
  }

  lemma ApplyBegins(dev: Device, s: State)
    requires |s.tasks| == 1 && s.components != [] && |s.installs| == 1
    requires s.installs[0].applies && !s.installs[0].begun
    ensures var t := Next(dev, s, BeginStep(0));
            && |t.tasks| == 1 && t.tasks[0].taskId == s.tasks[0].taskId && t.tasks[0].status == Updating
            && t.components == s.components && t.proof == s.proof && t.downloads == s.downloads
  {
  }

  lemma StaleApplied(dev: Device, s: State, first: ServerItem, second: ServerItem, package: string)
    requires Downloaded(dev, s, [first], 0, package) && DigestMatches(dev.sha, first.verifyInfo, Some(package))
    ensures var t := Next(dev, Next(dev, Next(dev, s, UpgradeStep(OrderApply, true)), Offer([second])), BeginStep(0));
            && PastDownload(t) && t.tasks[0].status == Updating && t.downloads == []
            && (Proved(dev, t) <==> SameTo(first, second))
            && (!SameTo(first, second) ==> t.proof == None && Holding(dev, t, [second], Updating))
  {
    ExpectedOne(first);
    var flow := InstallFlow(DeviceInstallType(dev), true, false, "", "", false);
    var u := s.(installs := [flow]);
    assert Next(dev, s, UpgradeStep(OrderApply, true)) == u;
    SecondOffer(dev, u, first, second, DownloadSuccess);
    var w := Next(dev, u, Offer([second]));
    ApplyBegins(dev, w);
    if SameTo(first, second) {
      ProvedSingle(dev, Next(dev, w, BeginStep(0)), first, Updating);
    }
  }

  /** The system installer's success is reported twice, once as progress and once as its result; another version
      is offered in between. */
  function InstallRun(first: ServerItem, second: ServerItem, package: string): seq<Step> {
    DownloadRun([first], 0, package) + [UpgradeStep(OrderInstall, true)] + [BeginStep(0)] +
    [ProgressStep(0, ProgressSuccess, ONE_HUNDRED)] + [Offer([second])] + [ResultStep(0, true, ONE_HUNDRED)]
  }

  /** The late result marks the new version as installed; it was checked if and only if the offers compare equal. */
  lemma StaleInstall(dev: Device, first: ServerItem, second: ServerItem, package: string)
    requires dev.abSlots && |package| == first.size && DigestMatches(dev.sha, first.verifyInfo, Some(package))
    ensures var s := Run(dev, INITIAL, InstallRun(first, second, package));
            && PastDownload(s) && s.tasks[0].status == InstallSuccess
            && (Proved(dev, s) <==> SameTo(first, second))
  {
    var start := DownloadRun([first], 0, package);
    var a, b, c := UpgradeStep(OrderInstall, true), BeginStep(0), ProgressStep(0, ProgressSuccess, ONE_HUNDRED);
    var d, e := Offer([second]), ResultStep(0, true, ONE_HUNDRED);
    DownloadReached(dev, [first], 0, package) by {
      ExpectedOne(first);
    }
    RunThen(dev, INITIAL, start, a);
    RunThen(dev, INITIAL, start + [a], b);
    RunThen(dev, INITIAL, start + [a] + [b], c);
    RunThen(dev, INITIAL, start + [a] + [b] + [c], d);
    RunThen(dev, INITIAL, start + [a] + [b] + [c] + [d], e);
    var s4 := Run(dev, INITIAL, start);
    InstallBegun(dev, s4, first, package);
    var s6 := Next(dev, Next(dev, s4, a), b);
    InstallAnswered(dev, s6, first);
    ResultAfterOffer(dev, Next(dev, s6, c), first, second, package);
  }

  ghost predicate InstallFlowOf(dev: Device, s: State, advanced: bool) {
    && |s.installs| == 1 && s.installs[0].begun && s.installs[0].installType == SysInstaller
    && s.installs[0].taskId == dev.sha("") && s.installs[0].advanced == advanced
  }

  lemma InstallBegun(dev: Device, s: State, first: ServerItem, package: string)
    requires dev.abSlots && Downloaded(dev, s, [first], 0, package) && |package| == first.size
    ensures var t := Next(dev, Next(dev, s, UpgradeStep(OrderInstall, true)), BeginStep(0));
            && Holding(dev, t, [first], Installing) && InstallFlowOf(dev, t, false) && t.proof == s.proof
  {
    var flow := InstallFlow(SysInstaller, false, false, "", "", false);
    var u := s.(installs := [flow]);
    assert s.components[0].spath == PathOf(first) && s.components[0].size == first.size;
    assert PackagesReady(s.files, s.components);
    assert Next(dev, s, UpgradeStep(OrderInstall, true)) == u;
    RowsInstall(u, first);
  }

  lemma RowsInstall(u: State, first: ServerItem)
    requires |u.tasks| == 1 && |u.installs| == 1 && SameRows(Rows([first]), u.components)
    requires u.installs[0] == InstallFlow(SysInstaller, false, false, "", "", false)
    requires PackagesReady(u.files, u.components)
    ensures var t := InstallBegin(u, 0);
            && |t.tasks| == 1 && t.tasks[0].taskId == u.tasks[0].taskId && t.tasks[0].status == Installing
            && SameRows(Rows([first]), t.components) && t.proof == u.proof
            && |t.installs| == 1 && t.installs[0].begun && t.installs[0].installType == SysInstaller
            && t.installs[0].taskId == u.tasks[0].taskId && !t.installs[0].advanced
  {
    var t := InstallBegin(u, 0);
    assert SameRows(u.components, t.components);
    SameRowsTransitive(Rows([first]), u.components, t.components);
  }

  lemma InstallAnswered(dev: Device, s: State, first: ServerItem)
    requires Holding(dev, s, [first], Installing) && InstallFlowOf(dev, s, false)
    ensures var t := Next(dev, s, ProgressStep(0, ProgressSuccess, ONE_HUNDRED));
            && Holding(dev, t, [first], InstallSuccess) && InstallFlowOf(dev, t, true) && t.proof == s.proof
  {
    var t := Next(dev, s, ProgressStep(0, ProgressSuccess, ONE_HUNDRED));
    assert SameRows(s.components, t.components);
    SameRowsTransitive(Rows([first]), s.components, t.components);
  }

  lemma ResultAfterOffer(dev: Device, s: State, first: ServerItem, second: ServerItem, package: string)
    requires Holding(dev, s, [first], InstallSuccess) && InstallFlowOf(dev, s, true)
    requires s.proof == Some(Proof(PathOf(first), first.verifyInfo, Some(package)))
    requires DigestMatches(dev.sha, first.verifyInfo, Some(package))
    ensures var t := Next(dev, Next(dev, s, Offer([second])), ResultStep(0, true, ONE_HUNDRED));
            && PastDownload(t) && t.tasks[0].status == InstallSuccess
            && (Proved(dev, t) <==> SameTo(first, second))
  {
    SecondOffer(dev, s, first, second, InstallSuccess);
    var u := Next(dev, s, Offer([second]));
    var t := Next(dev, u, ResultStep(0, true, ONE_HUNDRED));
    assert t.components == u.components && t.proof == u.proof;
    if SameTo(first, second) {
      ProvedSingle(dev, t, first, InstallSuccess);
    }
  }

  // ---------- a package written again ----------

  /** Two downloads are requested before either reports, and the second goes on after the first is done. */
  function OverwriteRun(item: ServerItem, good: string, other: string): seq<Step> {
    [Offer([item]), REQUEST] + [REQUEST] + [PackageStep(0, 0, Some(good))] +
    [ReportStep(0, 0, ReportSuccess, ONE_HUNDRED)] + [PackageStep(0, 0, Some(other))]
  }

  /** What can then be installed is the second flow's package, which nothing has checked. */
  lemma OverwrittenPackage(dev: Device, item: ServerItem, good: string, other: string)
    requires DigestMatches(dev.sha, item.verifyInfo, Some(good))
    ensures var s := Run(dev, INITIAL, OverwriteRun(item, good, other));
            && CanInstall(dev, s.tasks) && Proved(dev, s)
            && FileAt(s.files, PathOf(item)) == Some(other)
            && (Sealed(dev, s) <==> good == other)
  {
    var start, a := [Offer([item]), REQUEST], PackageStep(0, 0, Some(good));
    var b, c := ReportStep(0, 0, ReportSuccess, ONE_HUNDRED), PackageStep(0, 0, Some(other));
    RequestRun(dev, [item]);
    RunThen(dev, INITIAL, start, REQUEST);
    RunThen(dev, INITIAL, start + [REQUEST], a);
    RunThen(dev, INITIAL, start + [REQUEST] + [a], b);
    RunThen(dev, INITIAL, start + [REQUEST] + [a] + [b], c);
    var s2 := Run(dev, INITIAL, start);
    Requested(dev, s2, [item]);
    ExpectedOne(item);
    var s3 := Next(dev, s2, REQUEST);
    FirstDownload(dev, s3, [item], 0, good);
    Overwritten(dev, Next(dev, Next(dev, s3, a), b), item, good, other);
  }

  lemma Overwritten(dev: Device, s: State, item: ServerItem, good: string, other: string)
    requires Downloaded(dev, s.(downloads := []), [item], 0, good) && |s.downloads| > 0
    requires |s.downloads[0].components| == 1 && s.downloads[0].components[0].spath == PathOf(item)
    requires DigestMatches(dev.sha, item.verifyInfo, Some(good))
    ensures var t := Next(dev, s, PackageStep(0, 0, Some(other)));
            && CanInstall(dev, t.tasks) && Proved(dev, t)
            && FileAt(t.files, PathOf(item)) == Some(other)
            && (Sealed(dev, t) <==> good == other)
  {
    ExpectedOne(item);
    Written(dev, s, 0, PathOf(item), other);
    ProvedSingle(dev, Next(dev, s, PackageStep(0, 0, Some(other))), item, DownloadSuccess);
  }

  // ---------- several packages ----------

  /** The check that made the proof was on this row's package. */
  predicate Checked(s: State, c: Component) {
    s.proof.Some? && c.spath == s.proof.value.path && c.verifyInfo == s.proof.value.verifyInfo
  }

  predicate OnePackage(items: seq<ServerItem>, i: nat)
    requires i < |items|
  {
    forall j :: 0 <= j < |items| ==> PathOf(items[j]) == PathOf(items[i]) && items[j].verifyInfo == items[i].verifyInfo
  }

  lemma {:induction false} VerifyInfoAmong(rows: seq<Component>, path: string, verifyInfo: string)
    requires exists c :: c in rows && c.spath == path
    requires forall c :: c in rows && c.spath == path ==> c.verifyInfo == verifyInfo
    ensures VerifyInfoFor(rows, path) == verifyInfo
  {
  }

  lemma AllCheckedExactly(s: State, items: seq<ServerItem>, i: nat)
    requires i < |items| && SameRows(Rows(items), s.components) && s.proof.Some?
    requires s.proof.value.path == PathOf(items[i]) && s.proof.value.verifyInfo == Expected(items, i)
    ensures (forall c :: c in s.components ==> Checked(s, c)) <==> OnePackage(items, i)
  {
    var rows, path := Rows(items), PathOf(items[i]);
    assert rows[i] in rows;
    if OnePackage(items, i) {
      VerifyInfoAmong(rows, path, items[i].verifyInfo);
    }
    if forall c :: c in s.components ==> Checked(s, c) {
      assert forall j :: 0 <= j < |items| ==> s.components[j] in s.components;
      assert Checked(s, s.components[i]);
    }
  }

  lemma ReadyExactly(s: State, items: seq<ServerItem>, i: nat, package: string)
    requires i < |items| && SameRows(Rows(items), s.components) && s.files == map[PathOf(items[i]) := package]
    ensures PackagesReady(s.files, s.components) <==>
            forall j :: 0 <= j < |items| ==> PathOf(items[j]) == PathOf(items[i]) && items[j].size == |package|
  {
    assert forall j :: 0 <= j < |items| ==> s.components[j] in s.components;
  }

  /** A version of any number of packages, one of which is downloaded and accepted: the task then counts as
      downloaded, with no file of any other package on the device. Every package was checked if and only if all
      rows name the accepted one by path and digest. */
  lemma FirstPackageDecides(dev: Device, items: seq<ServerItem>, i: nat, package: string)
    requires i < |items| && DigestMatches(dev.sha, Expected(items, i), Some(package))
    ensures var s := Run(dev, INITIAL, DownloadRun(items, i, package));
            && CanInstall(dev, s.tasks) && |s.components| == |items|
            && (forall j :: 0 <= j < |items| && PathOf(items[j]) != PathOf(items[i]) ==>
                  FileAt(s.files, PathOf(items[j])) == None)
            && ((forall c :: c in s.components ==> Checked(s, c)) <==> OnePackage(items, i))
  {
    DownloadReached(dev, items, i, package);
    AllCheckedExactly(Run(dev, INITIAL, DownloadRun(items, i, package)), items, i);
  }

  /** What becomes of an install and of an apply then. An install starts if and only if every row has the path of
      the accepted package and its size, and empties the tables otherwise: sizes are looked at, digests are not.
      An apply starts whatever the packages. */
  lemma InstallAfterFirst(dev: Device, items: seq<ServerItem>, i: nat, package: string)
    requires i < |items| && DigestMatches(dev.sha, Expected(items, i), Some(package))
    ensures var s := Run(dev, INITIAL, DownloadRun(items, i, package));
            var install := Next(dev, s, UpgradeStep(OrderInstall, true));
            var ready := forall j :: 0 <= j < |items| ==>
                           PathOf(items[j]) == PathOf(items[i]) && items[j].size == |package|;
            && (ready ==> |install.installs| == 1 && install.tasks == s.tasks)
            && (!ready ==> Cleared(install) && install.installs == [])
            && |Next(dev, s, UpgradeStep(OrderApply, true)).installs| == 1
  {
    DownloadReached(dev, items, i, package);
    var s := Run(dev, INITIAL, DownloadRun(items, i, package));
    ReadyExactly(s, items, i, package);
    InstallGate(dev, s);
  }

  lemma InstallGate(dev: Device, s: State)
    requires |s.tasks| == 1 && s.tasks[0].status == DownloadSuccess && s.installs == []
    ensures var install := Next(dev, s, UpgradeStep(OrderInstall, true));
            if PackagesReady(s.files, s.components) then |install.installs| == 1 && install.tasks == s.tasks
            else Cleared(install) && install.installs == []
    ensures |Next(dev, s, UpgradeStep(OrderApply, true)).installs| == 1
  {
  }
}
