/** What every step of a firmware upgrade keeps, and so what holds in every state any run reaches. */
module FirmwareSafety {
  import opened Structs
  import opened FirmwareTables
  import opened VersionCompare
  import opened FirmwareFlow

  // ---------- one task exactly when there are components ----------

  ghost predicate TablesAgree(dev: Device, tasks: seq<Task>, components: seq<Component>) {
    && |tasks| <= 1
    && (tasks == [] <==> components == [])
    && (tasks != [] ==> tasks[0].taskId == TaskIdOf(dev.sha, components) &&
                        tasks[0].combination == CombinationOf(components))
  }

  ghost predicate Tables(dev: Device, s: State) {
    TablesAgree(dev, s.tasks, s.components)
  }

  /** Same rows, other progress. */
  ghost predicate Progressed(s: State, t: State) {
    && |t.tasks| == |s.tasks|
    && (forall i :: 0 <= i < |s.tasks| ==>
          t.tasks[i].taskId == s.tasks[i].taskId && t.tasks[i].combination == s.tasks[i].combination)
    && SameRows(s.components, t.components)
  }

  ghost predicate Cleared(t: State) {
    t.tasks == [] && t.components == [] && t.files == map[] && t.proof == None
  }

  lemma CombinationKept(a: seq<Component>, b: seq<Component>)
    requires SameRows(a, b)
    ensures CombinationOf(a) == CombinationOf(b)
  {
    if c :| c in a && c.blVersionType == HOTA_TYPE {
      var i :| 0 <= i < |a| && a[i] == c;
      assert b[i] in b && b[i].blVersionType == HOTA_TYPE;
    }
    if c :| c in b && c.blVersionType == HOTA_TYPE {
      var i :| 0 <= i < |b| && b[i] == c;
      assert a[i] in a && a[i].blVersionType == HOTA_TYPE;
    }
  }

  lemma ProgressedKeepsTables(dev: Device, s: State, t: State)
    requires Tables(dev, s) && Progressed(s, t)
    ensures Tables(dev, t)
  {
    DigestKept(dev.sha, s.components, t.components);
    CombinationKept(s.components, t.components);
  }

  lemma InsertMakesTables(dev: Device, s: State, list: seq<Component>)
    requires list != []
    ensures Tables(dev, InsertVersion(dev, s, list))
  {
  }

  lemma CheckShape(dev: Device, s: State, status: CheckStatus, list: seq<Component>)
    ensures var t := HandleCheckResult(dev, s, status, list);
            if Replaces(s, status, list) then t == InsertVersion(dev, s, list)
            else Progressed(s, t) || Cleared(t)
  {
    UpdateUrlsSameRows(s.components, list);
  }

  lemma ReportShape(dev: Device, s: State, k: nat, i: nat, report: Report, percent: int)
    requires k < |s.downloads| && i < |s.downloads[k].components|
    ensures var t := DownloadCallback(dev, s, k, i, report, percent); Progressed(s, t) || Cleared(t)
  {
    var d := s.downloads[k];
    var r := RecordReport(dev, s, d, d.components[i], report, percent);
    assert Progressed(s, r);
    if report != ReportDownloading && r.tasks != [] {
      assert Progressed(r, DownloadCancelProcess(r));
    }
  }

  lemma InstallShape(dev: Device, s: State, order: Order, installType: InstallType, spaceEnough: bool)
    ensures var t := DoInstall(dev, s, order, installType, spaceEnough); Progressed(s, t) || Cleared(t)
  {
  }

  lemma BeginShape(s: State, k: nat)
    requires k < |s.installs|
    ensures var t := InstallBegin(s, k); Progressed(s, t) || Cleared(t)
  {
    assert Progressed(s, MarkInstalling(s, InstallingStatus(s.installs[k].installType)));
  }

  lemma AnswerShape(s: State, k: nat, status: Status, percent: int)
    requires k < |s.installs|
    ensures var t := InstallAnswer(s, k, status, percent); Progressed(s, t) || Cleared(t)
  {
  }

  lemma ProgressShape(s: State, k: nat, progress: Progress, percent: int)
    requires k < |s.installs|
    ensures var t := HandleInstallProgress(s, k, progress, percent); Progressed(s, t) || Cleared(t)
  {
    var status := ProgressStatus(progress);
    var t := s.(components := UpdateProgress(s.components, {s.installs[k].url}, status, percent));
    AnswerShape(t, k, status, percent);
  }

  lemma ResultShape(s: State, k: nat, success: bool, percent: int)
    requires k < |s.installs|
    ensures var t := HandleInstallResult(s, k, success, percent); Progressed(s, t) || Cleared(t)
  {
    AnswerShape(s, k, InstallSuccess, ONE_HUNDRED);
    AnswerShape(s, k, FailedStatus(s.installs[k].installType), percent);
  }

  lemma RestoreShape(dev: Device, s: State, spaceEnough: bool)
    ensures var t := RestoreUpdate(dev, s, spaceEnough); Progressed(s, t) || Cleared(t)
  {
  }

  lemma RestartShape(dev: Device, s: State, bootSeconds: int, spaceEnough: bool)
    ensures var t := Restart(dev, s, bootSeconds, spaceEnough); Progressed(s, t) || Cleared(t)
  {
    var (startupReason, recorded) := StartupReason(s.reason, bootSeconds);
    var started := s.(downloads := [], installs := [], reason := recorded,
                      bootPending := startupReason == REASON_DEVICE_REBOOT);
    RestoreShape(dev, ManagerInit(started, startupReason), spaceEnough);
  }

  /** The steps by which running flows report. */
  predicate FlowStep(step: Step) {
    step.ReportStep? || step.BeginStep? || step.ProgressStep? || step.ResultStep?
  }

  lemma FlowStepShape(dev: Device, s: State, step: Step)
    requires FlowStep(step)
    ensures var t := Next(dev, s, step); Progressed(s, t) || Cleared(t)
  {
    match step
    case ReportStep(k, i, report, percent) =>
      if k < |s.downloads| && i < |s.downloads[k].components| {
        ReportShape(dev, s, k, i, report, percent);
      }
    case BeginStep(k) => if k < |s.installs| { BeginShape(s, k); }
    case ProgressStep(k, progress, percent) =>
      if k < |s.installs| { ProgressShape(s, k, progress, percent); }
    case ResultStep(k, success, percent) => if k < |s.installs| { ResultShape(s, k, success, percent); }
  }

  lemma CallStepShape(dev: Device, s: State, step: Step)
    requires !FlowStep(step) && !step.CheckStep?
    ensures var t := Next(dev, s, step); Progressed(s, t) || Cleared(t)
  {
    match step
    case UpgradeStep(order, space) => InstallShape(dev, s, order, DeviceInstallType(dev), space);
    case RestartStep(boot, space) => RestartShape(dev, s, boot, space);
    case _ =>
  }

  /** A step leaves the rows with other progress, or empties both tables, or inserts a checked version. */
  lemma StepShape(dev: Device, s: State, step: Step)
    ensures var t := Next(dev, s, step);
            || Progressed(s, t)
            || Cleared(t)
            || (step.CheckStep? && Replaces(s, step.status, step.list) && t == InsertVersion(dev, s, step.list))
  {
    if FlowStep(step) {
      FlowStepShape(dev, s, step);
    } else if step.CheckStep? {
      CheckShape(dev, s, step.status, step.list);
    } else {
      CallStepShape(dev, s, step);
    }
  }

  lemma StepKeepsTables(dev: Device, s: State, step: Step)
    requires Tables(dev, s)
    ensures Tables(dev, Next(dev, s, step))
  {
    StepShape(dev, s, step);
    var t := Next(dev, s, step);
    if Progressed(s, t) {
      ProgressedKeepsTables(dev, s, t);
    } else if !Cleared(t) {
      InsertMakesTables(dev, s, step.list);
    }
  }

  lemma {:induction false} RunKeepsTables(dev: Device, s: State, steps: seq<Step>)
    requires Tables(dev, s)
    ensures Tables(dev, Run(dev, s, steps))
    decreases |steps|
  {
    if steps != [] {
      StepKeepsTables(dev, s, steps[0]);
      RunKeepsTables(dev, Next(dev, s, steps[0]), steps[1..]);
    }
  }

  /** In every reachable state: at most one task row, present exactly when the component table is not empty,
      named by the digest of the stored components and typed by them. */
  lemma TablesInEveryRun(dev: Device, steps: seq<Step>)
    ensures Tables(dev, Run(dev, INITIAL, steps))
  {
    RunKeepsTables(dev, INITIAL, steps);
  }

  // ---------- one digest for every question ----------

  /** The digest in the answer to a checkNewVersion that ended with `status`: a failed check reports no version,
      whatever is stored. */
  function CheckDigest(dev: Device, s: State, status: CheckStatus): Option<string> {
    if IsCheckFailed(status) || s.components == [] then None else Some(TaskIdOf(dev.sha, s.components))
  }

  /** The digest in the answer to getNewVersionInfo: empty when there is no version. */
  function NewVersionDigest(s: State): string {
    QueryTaskId(s.tasks)
  }

  /** The digest in the answer to getTaskInfo, if it reports a task. */
  function TaskInfoDigest(s: State): Option<string> {
    if s.tasks == [] then None else Some(s.tasks[0].taskId)
  }

  /** After any run and a check on top of it: getNewVersionInfo and getTaskInfo report the same version or both
      none, and the check's own answer agrees with them if and only if it did not fail or nothing is stored. */
  lemma DigestsAgree(dev: Device, steps: seq<Step>, status: CheckStatus, list: seq<Component>)
    ensures var s := Next(dev, Run(dev, INITIAL, steps), CheckStep(status, list));
            && NewVersionDigest(s) == (if TaskInfoDigest(s).Some? then TaskInfoDigest(s).value else "")
            && (CheckDigest(dev, s, status) == TaskInfoDigest(s) <==> !IsCheckFailed(status) || s.tasks == [])
  {
    TablesInEveryRun(dev, steps);
    StepKeepsTables(dev, Run(dev, INITIAL, steps), CheckStep(status, list));
  }

  // ---------- the statuses a row can have ----------

  /** Past the download: the statuses that stand for a package on the device. */
  predicate Beyond(status: Status) {
    status in {DownloadSuccess, Installing, InstallSuccess, InstallFail, Updating}
  }

  predicate Reachable(status: Status) {
    status == CheckVersionSuccess || status == Downloading || Beyond(status)
  }

  /** Flows of the updater never leave the install step early. */
  ghost predicate Settled(s: State) {
    && (forall i :: 0 <= i < |s.tasks| ==> Reachable(s.tasks[i].status))
    && (forall f :: f in s.installs && f.installType == Updater ==> !f.advanced)
    && |s.tasks| <= 1
  }

  lemma CheckSettled(dev: Device, s: State, status: CheckStatus, list: seq<Component>)
    requires Settled(s)
    ensures Settled(HandleCheckResult(dev, s, status, list))
  {
  }

  /** Right after a callback a row may also be failed or cancelled; the flow's next move takes that away. */
  ghost predicate Reported(s: State) {
    && (forall i :: 0 <= i < |s.tasks| ==>
          Reachable(s.tasks[i].status) || s.tasks[i].status in {DownloadFail, DownloadCancel})
    && (forall f :: f in s.installs && f.installType == Updater ==> !f.advanced)
    && |s.tasks| <= 1
  }

  lemma RecordReported(dev: Device, s: State, d: DownloadFlow, c: Component, report: Report, percent: int)
    requires Settled(s)
    ensures var t := RecordReport(dev, s, d, c, report, percent);
            Reported(t) && (report == ReportDownloading ==> Settled(t))
  {
  }

  lemma ReportedSettles(s: State)
    requires Reported(s)
    ensures Settled(StepAfterDownload(s))
  {
  }

  lemma ReportSettled(dev: Device, s: State, k: nat, i: nat, report: Report, percent: int)
    requires k < |s.downloads| && i < |s.downloads[k].components| && Settled(s)
    ensures Settled(DownloadCallback(dev, s, k, i, report, percent))
  {
    var d := s.downloads[k];
    RecordReported(dev, s, d, d.components[i], report, percent);
    ReportedSettles(RecordReport(dev, s, d, d.components[i], report, percent));
  }

  lemma InstallSettled(dev: Device, s: State, order: Order, installType: InstallType, spaceEnough: bool)
    requires Settled(s)
    ensures Settled(DoInstall(dev, s, order, installType, spaceEnough))
  {
  }

  lemma RestartSettled(dev: Device, s: State, bootSeconds: int, spaceEnough: bool)
    requires Settled(s)
    ensures Settled(Restart(dev, s, bootSeconds, spaceEnough))
  {
    var (startupReason, recorded) := StartupReason(s.reason, bootSeconds);
    var started := s.(downloads := [], installs := [], reason := recorded,
                      bootPending := startupReason == REASON_DEVICE_REBOOT);
    RestoreSettled(dev, ManagerInit(started, startupReason), spaceEnough);
  }

  lemma RestoreSettled(dev: Device, s: State, spaceEnough: bool)
    requires Settled(s)
    ensures Settled(RestoreUpdate(dev, s, spaceEnough))
  {
  }

  lemma BeginSettled(s: State, k: nat)
    requires k < |s.installs| && Settled(s)
    ensures Settled(InstallBegin(s, k))
  {
  }

  lemma ProgressSettled(s: State, k: nat, progress: Progress, percent: int)
    requires k < |s.installs| && Settled(s)
    ensures Settled(HandleInstallProgress(s, k, progress, percent))
  {
  }

  lemma ResultSettled(s: State, k: nat, success: bool, percent: int)
    requires k < |s.installs| && Settled(s)
    ensures Settled(HandleInstallResult(s, k, success, percent))
  {
  }

  lemma FlowStepSettled(dev: Device, s: State, step: Step)
    requires Settled(s) && FlowStep(step)
    ensures Settled(Next(dev, s, step))
  {
    match step
    case ReportStep(k, i, report, percent) =>
      if k < |s.downloads| && i < |s.downloads[k].components| {
        ReportSettled(dev, s, k, i, report, percent);
      }
    case BeginStep(k) => if k < |s.installs| { BeginSettled(s, k); }
    case ProgressStep(k, progress, percent) =>
      if k < |s.installs| { ProgressSettled(s, k, progress, percent); }
    case ResultStep(k, success, percent) => if k < |s.installs| { ResultSettled(s, k, success, percent); }
  }

  lemma StepSettled(dev: Device, s: State, step: Step)
    requires Settled(s)
    ensures Settled(Next(dev, s, step))
  {
    if FlowStep(step) {
      FlowStepSettled(dev, s, step);
    } else if step.CheckStep? {
      CheckSettled(dev, s, step.status, step.list);
    } else {
      match step
      case UpgradeStep(order, space) => InstallSettled(dev, s, order, DeviceInstallType(dev), space);
      case RestartStep(boot, space) => RestartSettled(dev, s, boot, space);
      case _ =>
    }
  }

  lemma {:induction false} RunSettled(dev: Device, s: State, steps: seq<Step>)
    requires Settled(s)
    ensures Settled(Run(dev, s, steps))
    decreases |steps|
  {
    if steps != [] {
      StepSettled(dev, s, steps[0]);
      RunSettled(dev, Next(dev, s, steps[0]), steps[1..]);
    }
  }

  /** Between steps a row is never paused, cancelled or failed in download: of the failed statuses only a
      failed install stays in the table, so that is all clear-error ever clears. */
  lemma ReachableStatuses(dev: Device, steps: seq<Step>)
    ensures var s := Run(dev, INITIAL, steps);
            && (s.tasks != [] ==> Reachable(s.tasks[0].status))
            && (if QueryStatus(s.tasks) == InstallFail then Cleared(DoClearError(s)) else DoClearError(s) == s)
  {
    RunSettled(dev, INITIAL, steps);
  }

  // ---------- the recorded restart reason ----------

  lemma DownloadReason(dev: Device, s: State, step: Step)
    requires step.ReportStep?
    ensures Next(dev, s, step).reason == s.reason
  {
  }

  lemma InstallReason(dev: Device, s: State, step: Step)
    requires step.ProgressStep? || step.ResultStep?
    ensures Next(dev, s, step).reason == s.reason
  {
  }

  lemma StepReason(dev: Device, s: State, step: Step)
    ensures Next(dev, s, step).reason ==
            match step
            case RestartStep(boot, _) => StartupReason(s.reason, boot).1
            case TerminateStep => Some(REASON_PROCESS_ENV_RESET)
            case _ => s.reason
  {
    if step.ReportStep? {
      DownloadReason(dev, s, step);
    } else if step.ProgressStep? || step.ResultStep? {
      InstallReason(dev, s, step);
    }
  }
}
