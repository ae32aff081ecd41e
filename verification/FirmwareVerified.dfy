/** Runs in which no step can break a task's standing: those that never replace a version under a working flow. */
module FirmwareVerified {
  import opened Structs
  import opened FirmwareTables
  import opened VersionCompare
  import opened FirmwareFlow
  import opened FirmwareSafety
  import opened FirmwareStanding

  /** The running flows work on the task in the table, and what is past the download is proved. */
  ghost predicate Vouched(dev: Device, s: State) {
    && |s.tasks| <= 1
    && (s.tasks != [] ==>
          && (Beyond(s.tasks[0].status) || s.installs != [] ==> Proved(dev, s))
          && (forall d :: d in s.downloads ==> SameRows(d.components, s.components)))
  }

  /** No new version is put into the tables while a download or an install flow is at work. */
  predicate Quiet(s: State, step: Step) {
    step.CheckStep? && Replaces(s, step.status, step.list) ==> s.downloads == [] && s.installs == []
  }

  predicate QuietRun(dev: Device, s: State, steps: seq<Step>)
    decreases |steps|
  {
    steps == [] || (Quiet(s, steps[0]) && QuietRun(dev, Next(dev, s, steps[0]), steps[1..]))
  }

  lemma SameRowsTransitive(a: seq<Component>, b: seq<Component>, c: seq<Component>)
    requires SameRows(a, b) && SameRows(b, c)
    ensures SameRows(a, c)
  {
  }

  /** A change of progress that takes nothing new past the download. */
  lemma ProgressVouched(dev: Device, s: State, t: State)
    requires Vouched(dev, s) && Progressed(s, t) && t.proof == s.proof
    requires forall d :: d in t.downloads ==> d in s.downloads
    requires t.tasks != [] && (Beyond(t.tasks[0].status) || t.installs != []) ==>
               Beyond(s.tasks[0].status) || s.installs != []
    ensures Vouched(dev, t)
  {
    if t.tasks != [] {
      if Beyond(t.tasks[0].status) || t.installs != [] {
        ProvedSame(dev, s, t);
      }
      forall d | d in t.downloads
        ensures SameRows(d.components, t.components)
      {
        SameRowsTransitive(d.components, s.components, t.components);
      }
    }
  }

  /** A flow's row is the table's row, so what it accepts has its place in the table. */
  lemma RowOfFlow(d: DownloadFlow, i: nat, components: seq<Component>)
    requires i < |d.components| && SameRows(d.components, components)
    ensures var path := d.components[i].spath; HasRow(components, path, VerifyInfoFor(d.components, path))
  {
    var path := d.components[i].spath;
    assert d.components[i] in d.components;
    RowsKept(d.components, components, path, VerifyInfoFor(d.components, path));
  }

  /** The tables right after a callback, before the flow looks at them. */
  lemma RecordVouched(dev: Device, s: State, k: nat, i: nat, report: Report, percent: int)
    requires Vouched(dev, s) && k < |s.downloads| && i < |s.downloads[k].components|
    ensures Vouched(dev, RecordReport(dev, s, s.downloads[k], s.downloads[k].components[i], report, percent))
  {
    var d := s.downloads[k];
    var c := d.components[i];
    var t := RecordReport(dev, s, d, c, report, percent);
    assert d in s.downloads;
    assert Progressed(s, t);
    if Accepted(dev, s, d, c, report) && t.tasks != [] {
      SameRowsTransitive(d.components, s.components, t.components);
      RowOfFlow(d, i, t.components);
      forall e | e in t.downloads
        ensures SameRows(e.components, t.components)
      {
        SameRowsTransitive(e.components, s.components, t.components);
      }
    } else if t.tasks != [] {
      ProgressVouched(dev, s, t);
    }
  }

  lemma ReportVouched(dev: Device, s: State, k: nat, i: nat, report: Report, percent: int)
    requires Vouched(dev, s) && k < |s.downloads| && i < |s.downloads[k].components|
    ensures Vouched(dev, DownloadCallback(dev, s, k, i, report, percent))
  {
    RecordVouched(dev, s, k, i, report, percent);
    var r := RecordReport(dev, s, s.downloads[k], s.downloads[k].components[i], report, percent);
    if report != ReportDownloading {
      StepAfterVouched(dev, r, RemoveAt(s.downloads, k));
    }
  }

  lemma StepAfterVouched(dev: Device, r: State, flows: seq<DownloadFlow>)
    requires Vouched(dev, r) && forall d :: d in flows ==> d in r.downloads
    ensures Vouched(dev, StepAfterDownload(r).(downloads := flows))
  {
    var t := StepAfterDownload(r).(downloads := flows);
    if t.tasks != [] {
      assert Progressed(r, t);
      ProgressVouched(dev, r, t);
    }
  }

  lemma InstallVouched(dev: Device, s: State, order: Order, installType: InstallType, spaceEnough: bool)
    requires Vouched(dev, s)
    ensures Vouched(dev, DoInstall(dev, s, order, installType, spaceEnough))
  {
  }

  lemma BeginVouched(dev: Device, s: State, k: nat)
    requires Vouched(dev, s) && k < |s.installs|
    ensures Vouched(dev, InstallBegin(s, k))
  {
    BeginShape(s, k);
    var t := InstallBegin(s, k);
    if t.tasks != [] {
      ProgressVouched(dev, s, t);
    }
  }

  lemma ProgressStepVouched(dev: Device, s: State, k: nat, progress: Progress, percent: int)
    requires Vouched(dev, s) && k < |s.installs|
    ensures Vouched(dev, HandleInstallProgress(s, k, progress, percent))
  {
    ProgressShape(s, k, progress, percent);
    var t := HandleInstallProgress(s, k, progress, percent);
    if t.tasks != [] {
      ProgressVouched(dev, s, t);
    }
  }

  lemma ResultVouched(dev: Device, s: State, k: nat, success: bool, percent: int)
    requires Vouched(dev, s) && k < |s.installs|
    ensures Vouched(dev, HandleInstallResult(s, k, success, percent))
  {
    ResultShape(s, k, success, percent);
    var t := HandleInstallResult(s, k, success, percent);
    if t.tasks != [] {
      ProgressVouched(dev, s, t);
    }
  }

  lemma RestoreVouched(dev: Device, s: State, spaceEnough: bool)
    requires Vouched(dev, s)
    ensures Vouched(dev, RestoreUpdate(dev, s, spaceEnough))
  {
    if QueryStatus(s.tasks) == Installing || QueryStatus(s.tasks) == InstallSuccess {
      var t := s.(tasks := UpdateTask(s.tasks, s.tasks[0].taskId, DownloadSuccess, ONE_HUNDRED),
                  components := UpdateProgress(s.components, UrlsInStatus(s.components, Installing),
                                               DownloadSuccess, ONE_HUNDRED));
      ProgressVouched(dev, s, t);
      InstallVouched(dev, t, OrderInstallAndApply, SysInstaller, spaceEnough);
    }
  }

  lemma RestartVouched(dev: Device, s: State, bootSeconds: int, spaceEnough: bool)
    requires Vouched(dev, s)
    ensures Vouched(dev, Restart(dev, s, bootSeconds, spaceEnough))
  {
    var (startupReason, recorded) := StartupReason(s.reason, bootSeconds);
    var started := s.(downloads := [], installs := [], reason := recorded,
                      bootPending := startupReason == REASON_DEVICE_REBOOT);
    assert Vouched(dev, started);
    RestoreVouched(dev, ManagerInit(started, startupReason), spaceEnough);
  }

  lemma CheckVouched(dev: Device, s: State, status: CheckStatus, list: seq<Component>)
    requires Vouched(dev, s) && Quiet(s, CheckStep(status, list))
    ensures Vouched(dev, HandleCheckResult(dev, s, status, list))
  {
    CheckShape(dev, s, status, list);
    var t := HandleCheckResult(dev, s, status, list);
    if !Replaces(s, status, list) && t.tasks != [] {
      ProgressVouched(dev, s, t);
    }
  }

  lemma StepVouched(dev: Device, s: State, step: Step)
    requires Vouched(dev, s) && Quiet(s, step)
    ensures Vouched(dev, Next(dev, s, step))
  {
    match step
    case CheckStep(status, list) => CheckVouched(dev, s, status, list);
    case ReportStep(k, i, report, percent) =>
      if k < |s.downloads| && i < |s.downloads[k].components| {
        ReportVouched(dev, s, k, i, report, percent);
      }
    case UpgradeStep(order, space) => InstallVouched(dev, s, order, DeviceInstallType(dev), space);
    case BeginStep(k) => if k < |s.installs| { BeginVouched(dev, s, k); }
    case ProgressStep(k, progress, percent) =>
      if k < |s.installs| { ProgressStepVouched(dev, s, k, progress, percent); }
    case ResultStep(k, success, percent) =>
      if k < |s.installs| { ResultVouched(dev, s, k, success, percent); }
    case RestartStep(boot, space) => RestartVouched(dev, s, boot, space);
    case _ =>
  }

  lemma VouchedUnbroken(dev: Device, s: State, step: Step)
    requires Vouched(dev, s)
    ensures !Breaks(dev, s, step)
  {
    if s.tasks != [] && step.ReportStep? && step.k < |s.downloads| && step.i < |s.downloads[step.k].components| {
      assert s.downloads[step.k] in s.downloads;
      RowOfFlow(s.downloads[step.k], step.i, s.components);
    }
  }

  lemma {:induction false} QuietUnbroken(dev: Device, s: State, steps: seq<Step>)
    requires Vouched(dev, s) && QuietRun(dev, s, steps)
    ensures Avoids(dev, Breaking(dev), s, steps)
    decreases |steps|
  {
    if steps != [] {
      VouchedUnbroken(dev, s, steps[0]);
      StepVouched(dev, s, steps[0]);
      QuietUnbroken(dev, Next(dev, s, steps[0]), steps[1..]);
    }
  }

  /** After any run in which no new version replaces one that a flow is working on, a task downloaded,
      installing, installed or updating had a package accepted by the digest check; with a single component
      that is its package. Restarts and re-installs are steps like the others. */
  lemma OnlyVerifiedInstalls(dev: Device, steps: seq<Step>)
    requires QuietRun(dev, INITIAL, steps)
    ensures var s := Run(dev, INITIAL, steps);
            PastDownload(s) ==>
              && Proved(dev, s)
              && (|s.components| == 1 ==> s.proof.value.path == s.components[0].spath &&
                                          s.proof.value.verifyInfo == s.components[0].verifyInfo)
  {
    QuietUnbroken(dev, INITIAL, steps);
    CheckedThroughout(dev, steps);
    assert steps[..|steps|] == steps && Standing(dev)(Run(dev, INITIAL, steps[..|steps|]));
  }

  /** Wherever the run has been, a digest that fails empties the tables when the flow's task is in them, and
      makes no other task acceptable to an install. */
  lemma FailedDigestNotInstallable(dev: Device, s: State, k: nat, i: nat, percent: int)
    requires |s.tasks| <= 1 && k < |s.downloads| && i < |s.downloads[k].components|
    requires var d := s.downloads[k];
             !DigestMatches(dev.sha, VerifyInfoFor(d.components, d.components[i].spath),
                            FileAt(s.files, d.components[i].spath))
    ensures var t := DownloadCallback(dev, s, k, i, ReportSuccess, percent);
            QueryTaskId(s.tasks) == s.downloads[k].taskId ==> Cleared(t) || s.tasks == t.tasks == []
    ensures var t := DownloadCallback(dev, s, k, i, ReportSuccess, percent);
            QueryTaskId(s.tasks) != s.downloads[k].taskId && s.tasks != [] ==>
              t.tasks == [] || t.tasks[0].status == s.tasks[0].status ||
              t.tasks[0].status == CheckVersionSuccess
  {
  }
}
