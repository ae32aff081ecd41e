/** The package on the device: whether what was checked is still what lies at its path. */
module FirmwarePackages {
  import opened Structs
  import opened FirmwareTables
  import opened VersionCompare
  import opened FirmwareFlow
  import opened FirmwareSafety
  import opened FirmwareStanding
  import opened FirmwareVerified

  /** The checked package is at its path as it was when it was checked. */
  predicate Intact(s: State) {
    s.proof.Some? && FileAt(s.files, s.proof.value.path) == s.proof.value.content
  }

  ghost predicate Sealed(dev: Device, s: State) {
    PastDownload(s) ==> Proved(dev, s) && Intact(s)
  }

  /** A download flow still at work writes something else to the path of the checked package. */
  predicate Overwrites(s: State, step: Step) {
    && PastDownload(s) && s.proof.Some?
    && step.PackageStep? && step.k < |s.downloads| && step.i < |s.downloads[step.k].components|
    && s.downloads[step.k].components[step.i].spath == s.proof.value.path
    && step.content != s.proof.value.content
  }

  /** A package rejected for another task is removed, and it was the checked one. */
  predicate Removes(dev: Device, s: State, step: Step) {
    && PastDownload(s) && s.proof.Some? && s.proof.value.content.Some?
    && step.ReportStep? && step.k < |s.downloads| && step.i < |s.downloads[step.k].components|
    && var d := s.downloads[step.k];
       var c := d.components[step.i];
       && Rejected(dev, s, d, c, step.report)
       && d.taskId != s.tasks[0].taskId && c.spath == s.proof.value.path
  }

  predicate Rejected(dev: Device, s: State, d: DownloadFlow, c: Component, report: Report) {
    report == ReportSuccess &&
    !DigestMatches(dev.sha, VerifyInfoFor(d.components, c.spath), FileAt(s.files, c.spath))
  }

  ghost predicate Spoils(dev: Device, s: State, step: Step) {
    s.tasks != [] &&
    (Misplaces(dev, s, step) || (Lifts(s, step) && !(Proved(dev, s) && Intact(s))) ||
     Overwrites(s, step) || Removes(dev, s, step))
  }

  // ---------- step by step ----------

  /** The package files stay, unless the task goes or goes back. */
  ghost predicate KeepsFiles(s: State, t: State) {
    !PastDownload(t) || t.files == s.files
  }

  lemma BeginKeepsFiles(s: State, k: nat)
    requires k < |s.installs|
    ensures KeepsFiles(s, InstallBegin(s, k))
  {
  }

  lemma AnswerKeepsFiles(dev: Device, s: State, step: Step)
    requires step.ProgressStep? || step.ResultStep?
    ensures KeepsFiles(s, Next(dev, s, step))
  {
  }

  lemma InstallKeepsFiles(dev: Device, s: State, step: Step)
    requires step.BeginStep? || step.ProgressStep? || step.ResultStep?
    ensures KeepsFiles(s, Next(dev, s, step))
  {
    if step.BeginStep? {
      if step.k < |s.installs| {
        BeginKeepsFiles(s, step.k);
      }
    } else {
      AnswerKeepsFiles(dev, s, step);
    }
  }

  lemma RestartKeepsFiles(dev: Device, s: State, boot: int, space: bool)
    ensures KeepsFiles(s, Restart(dev, s, boot, space))
  {
  }

  lemma OtherKeepsFiles(dev: Device, s: State, step: Step)
    requires !FlowStep(step) && !step.PackageStep?
    ensures KeepsFiles(s, Next(dev, s, step))
  {
    if step.RestartStep? {
      RestartKeepsFiles(dev, s, step.bootSeconds, step.spaceEnough);
    }
  }

  lemma ReportFiles(dev: Device, s: State, k: nat, i: nat, report: Report, percent: int)
    requires |s.tasks| <= 1 && k < |s.downloads| && i < |s.downloads[k].components|
    ensures var t := DownloadCallback(dev, s, k, i, report, percent);
            var d := s.downloads[k];
            var c := d.components[i];
            PastDownload(t) ==>
              if Rejected(dev, s, d, c, report) then d.taskId != s.tasks[0].taskId && t.files == s.files - {c.spath}
              else t.files == s.files
  {
  }

  /** From a task whose checked package lies at its path, a step leads to another such if and only if it is
      neither a breaking one nor one that touches that package. */
  lemma SealedExactly(dev: Device, s: State, step: Step)
    requires |s.tasks| <= 1 && Sealed(dev, s)
    ensures Sealed(dev, Next(dev, s, step)) <==> !Spoils(dev, s, step)
  {
    var t := Next(dev, s, step);
    if step.ReportStep? {
      ReportSealed(dev, s, step.k, step.i, step.report, step.percent);
    } else if step.PackageStep? {
      if t.files != s.files {
        ProvedSame(dev, s, t);
      }
    } else if FlowStep(step) {
      InstallSealed(dev, s, step);
    } else {
      OtherHolds(dev, s, step);
      HeldStands(dev, s, t);
      OtherKeepsFiles(dev, s, step);
    }
  }

  lemma InstallSealed(dev: Device, s: State, step: Step)
    requires |s.tasks| <= 1 && Sealed(dev, s) && FlowStep(step) && !step.ReportStep?
    ensures Sealed(dev, Next(dev, s, step)) <==> !Spoils(dev, s, step)
  {
    var t := Next(dev, s, step);
    InstallKeepsFiles(dev, s, step);
    InstallMoves(dev, s, step);
    if Lifts(s, step) {
      ProvedSame(dev, s, t);
    } else {
      HeldStands(dev, s, t);
    }
  }

  lemma ReportSealed(dev: Device, s: State, k: nat, i: nat, report: Report, percent: int)
    requires |s.tasks| <= 1 && Sealed(dev, s)
    ensures var step := ReportStep(k, i, report, percent);
            Sealed(dev, Next(dev, s, step)) <==> !Spoils(dev, s, step)
  {
    if k < |s.downloads| && i < |s.downloads[k].components| {
      ReportExact(dev, s, k, i, report, percent);
      ReportFiles(dev, s, k, i, report, percent);
      var t := DownloadCallback(dev, s, k, i, report, percent);
      var d := s.downloads[k];
      var c := d.components[i];
      if s.tasks != [] && Accepted(dev, s, d, c, report) {
        RowsKept(s.components, t.components, c.spath, VerifyInfoFor(d.components, c.spath));
      } else {
        HeldStands(dev, s, t);
      }
    }
  }

  // ---------- whole runs ----------

  ghost function Sealing(dev: Device): State -> bool {
    s => Sealed(dev, s)
  }

  ghost function Spoiling(dev: Device): (State, Step) -> bool {
    (s, step) => Spoils(dev, s, step)
  }

  /** In any run at all, every task past the download has its checked package on the device, byte for byte, if and
      only if no step of the run is a spoiling one. */
  lemma IntactThroughout(dev: Device, steps: seq<Step>)
    ensures Throughout(dev, Sealing(dev), INITIAL, steps) <==> Avoids(dev, Spoiling(dev), INITIAL, steps)
  {
    forall s, step | Tables(dev, s) && Sealing(dev)(s)
      ensures Sealing(dev)(Next(dev, s, step)) <==> !Spoiling(dev)(s, step)
    {
      SealedExactly(dev, s, step);
    }
    RunExactly(dev, Sealing(dev), Spoiling(dev), INITIAL, steps);
  }

  // ---------- runs that never spoil ----------

  /** A download is requested only when none is at work, and no version is replaced under a flow. */
  predicate Single(s: State, step: Step) {
    Quiet(s, step) && (step.DownloadStep? ==> s.downloads == [])
  }

  predicate SingleRun(dev: Device, s: State, steps: seq<Step>)
    decreases |steps|
  {
    steps == [] || (Single(s, steps[0]) && SingleRun(dev, Next(dev, s, steps[0]), steps[1..]))
  }

  /** Install flows belong to a task past its download, and then nothing downloads any more. */
  predicate Alone(s: State) {
    && |s.downloads| <= 1
    && (s.tasks != [] && s.installs != [] ==> PastDownload(s))
    && (PastDownload(s) ==> s.downloads == [])
  }

  ghost predicate Safe(dev: Device, s: State) {
    Vouched(dev, s) && Settled(s) && Sealed(dev, s) && Alone(s)
  }

  lemma SafeUnspoiled(dev: Device, s: State, step: Step)
    requires Safe(dev, s)
    ensures !Spoils(dev, s, step)
  {
    VouchedUnbroken(dev, s, step);
  }

  lemma ReportAlone(dev: Device, s: State, k: nat, i: nat, report: Report, percent: int)
    requires |s.tasks| <= 1 && Alone(s) && k < |s.downloads| && i < |s.downloads[k].components|
    ensures Alone(DownloadCallback(dev, s, k, i, report, percent))
  {
  }

  lemma CheckAlone(dev: Device, s: State, step: Step)
    requires Alone(s) && step.CheckStep? && Single(s, step)
    ensures Alone(Next(dev, s, step))
  {
    CheckHolds(dev, s, step.status, step.list);
  }

  lemma RestartAlone(dev: Device, s: State, boot: int, space: bool)
    requires |s.tasks| <= 1
    ensures Alone(Restart(dev, s, boot, space))
  {
  }

  lemma BeginAlone(s: State, k: nat)
    requires |s.tasks| <= 1 && Alone(s) && Settled(s) && k < |s.installs| && Settled(InstallBegin(s, k))
    ensures Alone(InstallBegin(s, k))
  {
  }

  lemma ProgressAlone(s: State, k: nat, progress: Progress, percent: int)
    requires |s.tasks| <= 1 && Alone(s) && k < |s.installs|
    requires Settled(HandleInstallProgress(s, k, progress, percent))
    ensures Alone(HandleInstallProgress(s, k, progress, percent))
  {
  }

  lemma ResultAlone(s: State, k: nat, success: bool, percent: int)
    requires |s.tasks| <= 1 && Alone(s) && k < |s.installs|
    requires Settled(HandleInstallResult(s, k, success, percent))
    ensures Alone(HandleInstallResult(s, k, success, percent))
  {
  }

  lemma StepAlone(dev: Device, s: State, step: Step)
    requires Safe(dev, s) && Single(s, step)
    ensures Alone(Next(dev, s, step))
  {
    StepSettled(dev, s, step);
    match step
    case CheckStep(_, _) => CheckAlone(dev, s, step);
    case ReportStep(k, i, report, percent) =>
      if k < |s.downloads| && i < |s.downloads[k].components| {
        ReportAlone(dev, s, k, i, report, percent);
      }
    case BeginStep(k) => if k < |s.installs| { BeginAlone(s, k); }
    case ProgressStep(k, progress, percent) =>
      if k < |s.installs| { ProgressAlone(s, k, progress, percent); }
    case ResultStep(k, success, percent) =>
      if k < |s.installs| { ResultAlone(s, k, success, percent); }
    case RestartStep(boot, space) => RestartAlone(dev, s, boot, space);
    case _ =>
  }

  lemma StepSafe(dev: Device, s: State, step: Step)
    requires Safe(dev, s) && Single(s, step)
    ensures Safe(dev, Next(dev, s, step))
  {
    StepVouched(dev, s, step);
    StepSettled(dev, s, step);
    StepAlone(dev, s, step);
    SafeUnspoiled(dev, s, step);
    SealedExactly(dev, s, step);
  }

  lemma {:induction false} RunSafe(dev: Device, s: State, steps: seq<Step>)
    requires Safe(dev, s) && SingleRun(dev, s, steps)
    ensures Safe(dev, Run(dev, s, steps)) && Avoids(dev, Spoiling(dev), s, steps)
    decreases |steps|
  {
    if steps != [] {
      SafeUnspoiled(dev, s, steps[0]);
      StepSafe(dev, s, steps[0]);
      RunSafe(dev, Next(dev, s, steps[0]), steps[1..]);
    }
  }

  /** With one download at a time and no version replaced under a flow, a task past the download always has on
      the device the very bytes the digest check accepted. */
  lemma CheckedBytesInstalled(dev: Device, steps: seq<Step>)
    requires SingleRun(dev, INITIAL, steps)
    ensures var s := Run(dev, INITIAL, steps);
            PastDownload(s) ==> Proved(dev, s) && FileAt(s.files, s.proof.value.path) == s.proof.value.content
  {
    RunSafe(dev, INITIAL, steps);
  }
}
