/** What each step writes: the task row and the component rows after it, status and percentage by name. */
module FirmwareRows {
  import opened Structs
  import opened FirmwareTables
  import opened VersionCompare
  import opened FirmwareFlow
  import opened FirmwareSafety

  /** The rows with the url take the status and percentage, the others stay. */
  ghost predicate Marked(a: seq<Component>, b: seq<Component>, url: string, status: Status, percent: int) {
    && |a| == |b|
    && forall i :: 0 <= i < |a| ==>
         b[i] == if a[i].url == url then a[i].(status := status, progress := percent) else a[i]
  }

  ghost predicate AllMarked(a: seq<Component>, b: seq<Component>, status: Status, percent: int) {
    |a| == |b| && forall i :: 0 <= i < |a| ==> b[i] == a[i].(status := status, progress := percent)
  }

  predicate OneTask(s: State, taskId: string, status: Status, percent: int) {
    |s.tasks| == 1 && s.tasks[0].taskId == taskId && s.tasks[0].status == status && s.tasks[0].progress == percent
  }

  /** Nothing of the two tables and the files. */
  predicate Emptied(s: State) {
    s.tasks == [] && s.components == [] && s.files == map[]
  }

  // ---------- install ----------

  /** Progress of the system installer about the stored task. Installing at p percent: task and the flow's row say
      installing at p. Success: both say installed. Failure: installing failed, if the flow has left its install
      step before, and nothing is stored otherwise. */
  lemma ProgressWritten(dev: Device, s: State, k: nat, percent: int)
    requires |s.tasks| == 1 && k < |s.installs|
    requires var f := s.installs[k]; f.begun && f.installType == SysInstaller && f.taskId == s.tasks[0].taskId
    ensures var f := s.installs[k];
            var id := f.taskId;
            var going := Next(dev, s, ProgressStep(k, ProgressInstalling, percent));
            var done := Next(dev, s, ProgressStep(k, ProgressSuccess, percent));
            var failed := Next(dev, s, ProgressStep(k, ProgressFail, percent));
            && OneTask(going, id, Installing, percent)
            && Marked(s.components, going.components, f.url, Installing, percent)
            && going.installs == s.installs && going.files == s.files
            && OneTask(done, id, InstallSuccess, percent)
            && Marked(s.components, done.components, f.url, InstallSuccess, percent)
            && done.installs == s.installs[k := f.(advanced := true)] && done.files == s.files
            && (if f.advanced then OneTask(failed, id, InstallFail, percent) &&
                                   Marked(s.components, failed.components, f.url, InstallFail, percent)
                else Emptied(failed))
  {
  }

  /** An updater flow, and a flow that has not begun, take no progress. */
  lemma ProgressIgnored(dev: Device, s: State, k: nat, progress: Progress, percent: int)
    requires k < |s.installs| && (!s.installs[k].begun || s.installs[k].installType == Updater)
    ensures Next(dev, s, ProgressStep(k, progress, percent)) == s
  {
  }

  /** A flow begins once. */
  lemma BeginIgnored(dev: Device, s: State, k: nat)
    requires k < |s.installs| && s.installs[k].begun
    ensures Next(dev, s, BeginStep(k)) == s
  {
  }

  /** The result of a begun flow of the stored task: installed at a hundred percent, or failed at the percentage last
      known, by the name of its installer; a failure that is the flow's first answer leaves nothing stored. */
  lemma ResultWritten(dev: Device, s: State, k: nat, percent: int)
    requires |s.tasks| == 1 && k < |s.installs|
    requires s.installs[k].begun && s.installs[k].taskId == s.tasks[0].taskId
    ensures var f := s.installs[k];
            var done := Next(dev, s, ResultStep(k, true, percent));
            var failed := Next(dev, s, ResultStep(k, false, percent));
            && OneTask(done, f.taskId, InstallSuccess, 100) && done.components == s.components
            && done.installs == s.installs[..k] + s.installs[k + 1..] == failed.installs
            && done.files == s.files
            && (if f.advanced
                then OneTask(failed, f.taskId, if f.installType == SysInstaller then InstallFail else UpdateFail, percent)
                     && failed.components == s.components
                else Emptied(failed))
  {
  }

  /** A flow begins on complete packages: the system installer's task and rows are installing, the updater's
      updating, at no percentage, and the flow belongs to that task and its first row. */
  lemma BeginWritten(dev: Device, s: State, k: nat)
    requires |s.tasks| == 1 && s.components != [] && PackagesReady(s.files, s.components)
    requires k < |s.installs| && !s.installs[k].begun && !s.installs[k].applies
    ensures var f := s.installs[k];
            var t := Next(dev, s, BeginStep(k));
            var status := if f.installType == SysInstaller then Installing else Updating;
            && OneTask(t, s.tasks[0].taskId, status, 0) && AllMarked(s.components, t.components, status, 0)
            && |t.installs| == |s.installs| && t.installs[k].begun && t.installs[k].taskId == s.tasks[0].taskId
            && t.installs[k].url == s.components[0].url && t.installs[k].installType == f.installType
            && t.files == s.files
  {
    forall c | c in s.components
      ensures c.url in Urls(s.components)
    {
    }
  }

  /** Otherwise it ends at once: on incomplete packages nothing is stored any more, and an apply only marks the task
      as updating. */
  lemma BeginEnds(dev: Device, s: State, k: nat)
    requires |s.tasks| == 1 && s.components != [] && k < |s.installs| && !s.installs[k].begun
    ensures var f := s.installs[k];
            var t := Next(dev, s, BeginStep(k));
            && (f.applies ==>
                  OneTask(t, s.tasks[0].taskId, Updating, 0) && t.components == s.components && t.files == s.files)
            && (!f.applies && !PackagesReady(s.files, s.components) ==> Emptied(t))
            && (f.applies || !PackagesReady(s.files, s.components) ==>
                  t.installs == s.installs[..k] + s.installs[k + 1..])
  {
  }

  /** Which requests start a flow, and of what kind: an apply on a downloaded version, or on an A/B device on an
      installed one; an install only on a downloaded version, with space and complete packages. Incomplete packages
      empty the tables. No other order does anything. */
  lemma UpgradeGate(dev: Device, s: State, order: Order, space: bool)
    requires |s.tasks| == 1
    ensures var t := Next(dev, s, UpgradeStep(order, space));
            var status := s.tasks[0].status;
            var flow := InstallFlow(if dev.abSlots then SysInstaller else Updater, order == OrderApply, false, "", "",
                                    false);
            match order
            case OrderApply =>
              t == if status == DownloadSuccess || (status == InstallSuccess && dev.abSlots)
                   then s.(installs := s.installs + [flow]) else s
            case OrderInstall => InstallGate(s, t, flow, space)
            case OrderInstallAndApply => InstallGate(s, t, flow, space)
            case _ => t == s
  {
  }

  ghost predicate InstallGate(s: State, t: State, flow: InstallFlow, space: bool)
    requires |s.tasks| == 1
  {
    if s.tasks[0].status != DownloadSuccess || !space then t == s
    else if PackagesReady(s.files, s.components) then t == s.(installs := s.installs + [flow])
    else Emptied(t) && t.installs == s.installs
  }

  /** Packages are complete when there are some and each has a file of its size. */
  lemma ReadyMeans(files: map<string, string>, components: seq<Component>)
    ensures PackagesReady(files, components) <==>
            components != [] &&
            forall i :: 0 <= i < |components| ==>
              components[i].spath in files && |files[components[i].spath]| == components[i].size
  {
    assert forall i :: 0 <= i < |components| ==> components[i] in components;
  }

  // ---------- download ----------

  /** A flow is started exactly for a checked version, with network and space, on the rows and the id of the table. */
  lemma DownloadGate(dev: Device, s: State, net: bool, space: bool)
    requires |s.tasks| == 1
    ensures Next(dev, s, DownloadStep(net, space)) ==
            if s.tasks[0].status == CheckVersionSuccess && net && space
            then s.(downloads := s.downloads + [DownloadFlow(s.components, s.tasks[0].taskId)]) else s
  {
  }

  /** A download of the stored task at p percent: task and the package's row say so, and the flow goes on. */
  lemma DownloadingWritten(dev: Device, s: State, k: nat, i: nat, percent: int)
    requires |s.tasks| == 1 && k < |s.downloads| && i < |s.downloads[k].components|
    requires s.downloads[k].taskId == s.tasks[0].taskId
    ensures var t := Next(dev, s, ReportStep(k, i, ReportDownloading, percent));
            && OneTask(t, s.tasks[0].taskId, Downloading, percent)
            && Marked(s.components, t.components, s.downloads[k].components[i].url, Downloading, percent)
            && t.downloads == s.downloads && t.files == s.files
  {
  }

  /** Its end: the flow is over whatever it reports. */
  lemma FlowEnded(dev: Device, s: State, k: nat, i: nat, report: Report, percent: int)
    requires k < |s.downloads| && i < |s.downloads[k].components| && report != ReportDownloading
    ensures Next(dev, s, ReportStep(k, i, report, percent)).downloads == s.downloads[..k] + s.downloads[k + 1..]
  {
  }

  /** An accepted package makes the task downloaded, a rejected one leaves nothing stored. */
  lemma SuccessWritten(dev: Device, s: State, k: nat, i: nat, percent: int)
    requires |s.tasks| == 1 && k < |s.downloads| && i < |s.downloads[k].components|
    requires s.downloads[k].taskId == s.tasks[0].taskId
    ensures var d := s.downloads[k];
            var c := d.components[i];
            var t := Next(dev, s, ReportStep(k, i, ReportSuccess, percent));
            if DigestMatches(dev.sha, VerifyInfoFor(d.components, c.spath), FileAt(s.files, c.spath))
            then OneTask(t, s.tasks[0].taskId, DownloadSuccess, percent) && t.files == s.files &&
                 Marked(s.components, t.components, c.url, DownloadSuccess, percent)
            else Emptied(t)
  {
  }

  lemma FailWritten(dev: Device, s: State, k: nat, i: nat, percent: int)
    requires |s.tasks| == 1 && k < |s.downloads| && i < |s.downloads[k].components|
    requires s.downloads[k].taskId == s.tasks[0].taskId
    ensures Emptied(Next(dev, s, ReportStep(k, i, ReportFail, percent)))
  {
  }

  /** A cancellation takes the task and all rows back to checked, and the files away. */
  lemma CancelWritten(dev: Device, s: State, k: nat, i: nat, percent: int)
    requires |s.tasks| == 1 && k < |s.downloads| && i < |s.downloads[k].components|
    requires s.downloads[k].taskId == s.tasks[0].taskId
    ensures var t := Next(dev, s, ReportStep(k, i, ReportCancel, percent));
            && OneTask(t, s.tasks[0].taskId, CheckVersionSuccess, 0) && t.files == map[]
            && AllMarked(s.components, t.components, CheckVersionSuccess, 0)
  {
    var d := s.downloads[k];
    var r := RecordReport(dev, s, d, d.components[i], ReportCancel, percent);
    forall j | 0 <= j < |r.components|
      ensures r.components[j].url in Urls(r.components)
    {
      assert r.components[j] in r.components;
    }
  }

  /** A flow of another task touches the rows with its url and no task. */
  lemma OtherTaskWritten(dev: Device, s: State, k: nat, i: nat, report: Report, percent: int)
    requires |s.tasks| == 1 && k < |s.downloads| && i < |s.downloads[k].components|
    requires s.downloads[k].taskId != s.tasks[0].taskId
    requires s.tasks[0].status != DownloadFail && s.tasks[0].status != DownloadCancel
    ensures var t := Next(dev, s, ReportStep(k, i, report, percent));
            var status := match report
                          case ReportDownloading => Downloading
                          case ReportFail => DownloadFail
                          case ReportSuccess => DownloadSuccess
                          case ReportCancel => DownloadCancel;
            t.tasks == s.tasks && Marked(s.components, t.components, s.downloads[k].components[i].url, status, percent)
  {
  }

  /** The digest that counts is that of the first row with the path, and none if there is no such row. */
  lemma {:induction false} VerifyInfoOfFirst(rows: seq<Component>, path: string, i: nat)
    requires i <= |rows| && forall j :: 0 <= j < i ==> rows[j].spath != path
    requires i < |rows| ==> rows[i].spath == path
    ensures VerifyInfoFor(rows, path) == if i < |rows| then rows[i].verifyInfo else ""
    decreases |rows|
  {
    if i > 0 {
      assert forall j :: 0 <= j < i - 1 ==> rows[1..][j] == rows[j + 1];
      VerifyInfoOfFirst(rows[1..], path, i - 1);
    }
  }

  predicate HexDigit(c: char) {
    '0' <= c <= '9' || 'a' <= c <= 'f' || 'A' <= c <= 'F'
  }

  /** The value of a hexadecimal digit. */
  function Nibble(c: char): int {
    if '0' <= c <= '9' then c as int - '0' as int
    else if 'a' <= c <= 'f' then c as int - 'a' as int + 10
    else c as int - 'A' as int + 10
  }

  /** Two digests in hexadecimal count as the same exactly when they are the same bytes, whatever the letters' case. */
  lemma SameDigestMeans(a: string, b: string)
    requires forall i :: 0 <= i < |a| ==> HexDigit(a[i])
    requires forall i :: 0 <= i < |b| ==> HexDigit(b[i])
    ensures SameDigest(a, b) <==> |a| == |b| && forall i :: 0 <= i < |a| ==> Nibble(a[i]) == Nibble(b[i])
  {
    if |a| == |b| {
      forall i | 0 <= i < |a|
        ensures Lower(a[i]) == Lower(b[i]) <==> Nibble(a[i]) == Nibble(b[i])
      {
        assert HexDigit(a[i]) && HexDigit(b[i]);
      }
    }
  }

  /** A package is accepted if no digest is asked for, or it is there and has the digest. */
  lemma AcceptedMeans(sha: Hash, verifyInfo: string, content: Option<string>)
    ensures DigestMatches(sha, "", content)
    ensures verifyInfo != "" && content.None? ==> !DigestMatches(sha, verifyInfo, content)
    ensures verifyInfo != "" && content.Some? ==>
              (DigestMatches(sha, verifyInfo, content) <==> SameDigest(sha(content.value), verifyInfo))
  {
  }

  // ---------- check ----------

  /** A failed check, and any check while a task is downloading, paused, verifying, installing or updating, changes
      nothing. */
  lemma CheckIgnored(dev: Device, s: State, status: CheckStatus, list: seq<Component>)
    requires |s.tasks| <= 1
    ensures status == CheckFail || status == FileListRequestFail || status == ChangelogRequestFail ||
            (s.tasks != [] && (s.tasks[0].status == Downloading || s.tasks[0].status == DownloadPause ||
                               s.tasks[0].status == Verifying || s.tasks[0].status == Installing ||
                               s.tasks[0].status == Updating))
            <==> IsCheckFailed(status) || HasUndoneTask(s.tasks)
    ensures IsCheckFailed(status) || HasUndoneTask(s.tasks) ==> Next(dev, s, CheckStep(status, list)) == s
  {
  }

  /** A check that finds no version empties the tables, and says that the task is cancelled if there was one. */
  lemma NoVersionWritten(dev: Device, s: State, status: CheckStatus)
    requires |s.tasks| <= 1 && !IsCheckFailed(status) && !HasUndoneTask(s.tasks)
    ensures var t := Next(dev, s, CheckStep(status, []));
            && Emptied(t)
            && t.events == s.events + (if s.tasks == [] then [] else [TaskCancel(s.tasks[0].taskId)])
  {
  }

  /** A new version is stored as offered, each row checked and with its package's path, under a task at no
      percentage. */
  lemma VersionWritten(dev: Device, s: State, status: CheckStatus, list: seq<Component>)
    requires Replaces(s, status, list)
    ensures var t := Next(dev, s, CheckStep(status, list));
            && |t.components| == |list|
            && (forall i :: 0 <= i < |list| ==>
                  t.components[i] ==
                  list[i].(status := CheckVersionSuccess,
                           spath := "/data/update/ota_package/firmware/versions" + "/" + list[i].fileName))
            && |t.tasks| == 1 && t.tasks[0].status == CheckVersionSuccess && t.tasks[0].progress == 0
            && t.events == s.events && t.files == map[]
  {
  }

  /** The last offer with a row's version id. */
  ghost predicate LastWith(list: seq<Component>, versionId: string, j: nat) {
    j < |list| && list[j].versionId == versionId && forall m :: j < m < |list| ==> list[m].versionId != versionId
  }

  /** Refreshing gives a row the url of the last offer with its version id, and nothing else; a row without an offer
      stays. */
  lemma {:induction false} UrlsRefreshed(rows: seq<Component>, list: seq<Component>, i: nat)
    requires i < |rows|
    ensures forall j: nat :: LastWith(list, rows[i].versionId, j) ==>
              UpdateUrls(rows, list)[i] == rows[i].(url := list[j].url)
    ensures (forall j :: 0 <= j < |list| ==> list[j].versionId != rows[i].versionId) ==>
              UpdateUrls(rows, list)[i] == rows[i]
    decreases |list|
  {
    if list != [] {
      var next, rest := UpdateUrl(rows, list[0].versionId, list[0].url), list[1..];
      UrlsRefreshed(next, rest, i);
      assert next[i].versionId == rows[i].versionId;
      forall j: nat | LastWith(list, rows[i].versionId, j)
        ensures UpdateUrls(rows, list)[i] == rows[i].(url := list[j].url)
      {
        assert forall m :: 0 <= m < |rest| ==> rest[m] == list[m + 1];
        if j > 0 {
          assert LastWith(rest, next[i].versionId, j - 1);
        }
      }
      assert forall m :: 0 <= m < |rest| ==> rest[m] == list[m + 1];
    }
  }

  /** A check that finds the stored version refreshes the urls while the version is only checked, and does nothing
      later. */
  lemma SameVersionWritten(dev: Device, s: State, status: CheckStatus, list: seq<Component>)
    requires |s.tasks| == 1 && !IsCheckFailed(status) && !HasUndoneTask(s.tasks)
    requires list != [] && SameWithDb(s.components, list)
    ensures Next(dev, s, CheckStep(status, list)) ==
            if s.tasks[0].status == CheckVersionSuccess then s.(components := UpdateUrls(s.components, list)) else s
  {
  }

  /** Without version ids, the offer of a version that is stored gives every row the url of the last package: each
      keeps one of its own if and only if all have that one. */
  lemma UrlsMerged(rows: seq<Component>, items: seq<ServerItem>, i: nat)
    requires StoredFrom(rows, items) && i < |rows|
    ensures UpdateUrls(rows, Analysed(items))[i] == rows[i].(url := items[|items| - 1].url)
    ensures UpdateUrls(rows, Analysed(items))[i].url == items[i].url <==> items[i].url == items[|items| - 1].url
  {
    var list := Analysed(items);
    assert LastWith(list, rows[i].versionId, |list| - 1);
    UrlsRefreshed(rows, list, i);
  }

  // ---------- what the analysis fills in ----------

  /** The package id names the component, the version code is its version number, and its file has the name that
      follows the last slash of the url. */
  lemma AnalysedFields(items: seq<ServerItem>, i: nat)
    requires i < |items|
    ensures var c := Analysed(items)[i];
            && c.componentId == items[i].descriptPackageId && c.url == items[i].url && c.size == items[i].size
            && c.verifyInfo == items[i].verifyInfo && c.versionNumber == items[i].versionCode
            && c.blVersionType == 1 && c.versionId == "" && c.spath == ""
            && '/' !in c.fileName
            && ('/' in c.url ==> exists k :: 0 <= k < |c.url| && c.url[k] == '/' && c.fileName == c.url[k + 1..])
            && ('/' !in c.url ==> c.fileName == "")
  {
    LastSplitMeans(items[i].url);
  }

  lemma {:induction false} LastSplitMeans(url: string)
    ensures '/' !in LastSplit(url)
    ensures '/' in url ==> exists k :: 0 <= k < |url| && url[k] == '/' && LastSplit(url) == url[k + 1..]
    ensures '/' !in url ==> LastSplit(url) == ""
    decreases |url|
  {
    if '/' in url {
      if '/' in url[1..] {
        LastSplitMeans(url[1..]);
        var k :| 0 <= k < |url[1..]| && url[1..][k] == '/' && LastSplit(url[1..]) == url[1..][k + 1..];
        assert url[k + 1] == '/' && url[1..][k + 1..] == url[k + 2..];
      } else {
        assert url[0] == '/';
      }
    }
  }

  /** The text a task is named by: the version ids in order, with an underscore between them. */
  lemma {:induction false} JoinedIds(components: seq<Component>)
    requires components != [] && forall i :: 0 <= i < |components| ==> components[i].versionId != ""
    ensures JoinIds("", components) ==
            components[0].versionId +
            (if |components| == 1 then "" else "_" + JoinIds("", components[1..]))
    decreases |components|
  {
    var id, rest := components[0].versionId, components[1..];
    assert "" + id == id;
    assert JoinIds("", components) == JoinIds(id, rest);
    if rest != [] {
      JoinedOnto(id, rest);
      assert id + "_" + JoinIds("", rest) == id + ("_" + JoinIds("", rest));
    }
  }

  lemma {:induction false} JoinedOnto(joined: string, components: seq<Component>)
    requires forall i :: 0 <= i < |components| ==> components[i].versionId != ""
    ensures joined != "" && components != [] ==> JoinIds(joined, components) == joined + "_" + JoinIds("", components)
    decreases |components|
  {
    if joined != "" && components != [] {
      var id, rest := components[0].versionId, components[1..];
      assert "" + id == id;
      assert JoinIds("", components) == JoinIds(id, rest);
      JoinedOnto(joined + "_" + id, rest);
      JoinedOnto(id, rest);
      if rest != [] {
        assert joined + "_" + id + "_" + JoinIds("", rest) == joined + "_" + (id + "_" + JoinIds("", rest));
      }
    }
  }

  // ---------- clear-error, recovery ----------

  /** Clearing an error empties the tables exactly if the task has failed in download, transfer, verification,
      installation or update. */
  lemma ClearErrorWritten(dev: Device, s: State)
    requires |s.tasks| == 1
    ensures var t := Next(dev, s, ClearErrorStep);
            var status := s.tasks[0].status;
            if status == DownloadFail || status == PackageTransFail || status == InstallFail ||
               status == UpdateFail || status == VerifyFail
            then Emptied(t) else t == s
  {
  }

  /** Recovery: a download that was under way is dropped with everything stored; an install that was under way
      counts as downloaded in full again, its installing rows too; any other task stays. */
  lemma RecoveryWritten(dev: Device, s: State)
    requires |s.tasks| == 1
    ensures var t := RestoreUpdate(dev, s, false);
            var status := s.tasks[0].status;
            if status == DownloadPause || status == Downloading then Emptied(t)
            else if status == Installing || status == InstallSuccess then
              && OneTask(t, s.tasks[0].taskId, DownloadSuccess, 100) && t.files == s.files
              && |t.components| == |s.components|
              && (forall i :: 0 <= i < |s.components| && s.components[i].status == Installing ==>
                    t.components[i] == s.components[i].(status := DownloadSuccess, progress := 100))
              && (forall i :: 0 <= i < |s.components| && t.components[i] != s.components[i] ==>
                    exists j :: 0 <= j < |s.components| && s.components[j].status == Installing &&
                                s.components[j].url == s.components[i].url)
            else t == s
  {
    forall i | 0 <= i < |s.components| && s.components[i].status == Installing
      ensures s.components[i].url in UrlsInStatus(s.components, Installing)
    {
      assert s.components[i] in s.components;
    }
  }

  // ---------- files and flows ----------

  /** A download flow writes its package, or unlinks it, and nothing else. */
  lemma PackageWritten(dev: Device, s: State, k: nat, i: nat, content: string)
    requires k < |s.downloads| && i < |s.downloads[k].components|
    ensures var path := s.downloads[k].components[i].spath;
            && Next(dev, s, PackageStep(k, i, Some(content))) == s.(files := s.files[path := content])
            && Next(dev, s, PackageStep(k, i, None)) == s.(files := s.files - {path})
  {
  }

  /** A start forgets the flows of the process before it; the only one after it is the install that recovery issues
      again, by the system installer. It sends no event. */
  lemma StartDropsFlows(dev: Device, s: State, boot: int, space: bool)
    requires |s.tasks| <= 1
    ensures var t := Next(dev, s, RestartStep(boot, space));
            && t.downloads == [] && t.events == s.events
            && (t.installs == [] || t.installs == [InstallFlow(SysInstaller, false, false, "", "", false)])
            && (t.installs != [] ==>
                  s.tasks != [] && (s.tasks[0].status == Installing || s.tasks[0].status == InstallSuccess))
  {
  }
}
