/** The standing of a task: past the download it should have had a package accepted by the digest check. Which
    steps keep that, exactly. */
module FirmwareStanding {
  import opened Structs
  import opened FirmwareTables
  import opened VersionCompare
  import opened FirmwareFlow
  import opened FirmwareSafety

  ghost predicate HasRow(components: seq<Component>, path: string, verifyInfo: string) {
    exists c :: c in components && c.spath == path && c.verifyInfo == verifyInfo
  }

  /** A download callback of this task found a package to match the digest of one of its rows. */
  ghost predicate Proved(dev: Device, s: State) {
    && s.proof.Some?
    && DigestMatches(dev.sha, s.proof.value.verifyInfo, s.proof.value.content)
    && HasRow(s.components, s.proof.value.path, s.proof.value.verifyInfo)
  }

  predicate PastDownload(s: State) {
    s.tasks != [] && Beyond(s.tasks[0].status)
  }

  ghost predicate Stands(dev: Device, s: State) {
    PastDownload(s) ==> Proved(dev, s)
  }

  // ---------- the steps that can break it ----------

  predicate Accepted(dev: Device, s: State, d: DownloadFlow, c: Component, report: Report) {
    && report == ReportSuccess
    && QueryTaskId(s.tasks) == d.taskId
    && DigestMatches(dev.sha, VerifyInfoFor(d.components, c.spath), FileAt(s.files, c.spath))
  }

  /** A package is accepted for the task in the table, by a flow whose row is not one of the table's. */
  ghost predicate Misplaces(dev: Device, s: State, step: Step) {
    && step.ReportStep? && step.k < |s.downloads| && step.i < |s.downloads[step.k].components|
    && var d := s.downloads[step.k];
       var c := d.components[step.i];
       Accepted(dev, s, d, c, step.report) && !HasRow(s.components, c.spath, VerifyInfoFor(d.components, c.spath))
  }

  /** An install flow puts the task past the download, whatever brought the task here. */
  predicate Lifts(s: State, step: Step) {
    s.tasks != [] &&
    match step
    case BeginStep(k) =>
      && k < |s.installs| && !s.installs[k].begun && s.components != []
      && (s.installs[k].applies || PackagesReady(s.files, s.components))
    case ProgressStep(k, progress, _) =>
      && k < |s.installs| && s.installs[k].begun && s.installs[k].taskId == s.tasks[0].taskId
      && s.installs[k].installType == SysInstaller
      && (progress == ProgressFail ==> s.installs[k].advanced)
    case ResultStep(k, success, _) =>
      && k < |s.installs| && s.installs[k].begun && s.installs[k].taskId == s.tasks[0].taskId
      && (success || (s.installs[k].advanced && s.installs[k].installType == SysInstaller))
    case _ => false
  }

  ghost predicate Breaks(dev: Device, s: State, step: Step) {
    s.tasks != [] && (Misplaces(dev, s, step) || (Lifts(s, step) && !Proved(dev, s)))
  }

  // ---------- step by step ----------

  lemma RowsKept(a: seq<Component>, b: seq<Component>, path: string, verifyInfo: string)
    requires SameRows(a, b)
    ensures HasRow(a, path, verifyInfo) <==> HasRow(b, path, verifyInfo)
  {
    if c :| c in a && c.spath == path && c.verifyInfo == verifyInfo {
      var i :| 0 <= i < |a| && a[i] == c;
      assert b[i] in b;
    }
    if c :| c in b && c.spath == path && c.verifyInfo == verifyInfo {
      var i :| 0 <= i < |b| && b[i] == c;
      assert a[i] in a;
    }
  }

  lemma ProvedSame(dev: Device, s: State, t: State)
    requires t.proof == s.proof && SameRows(s.components, t.components)
    ensures Proved(dev, s) <==> Proved(dev, t)
  {
    if s.proof.Some? {
      RowsKept(s.components, t.components, s.proof.value.path, s.proof.value.verifyInfo);
    }
  }

  /** The step took the task no further. */
  ghost predicate Holds(s: State, t: State) {
    Cleared(t) || !PastDownload(t) ||
    (Progressed(s, t) && t.proof == s.proof && PastDownload(s))
  }

  lemma HeldStands(dev: Device, s: State, t: State)
    requires Stands(dev, s) && Holds(s, t)
    ensures Stands(dev, t)
  {
    if PastDownload(t) {
      ProvedSame(dev, s, t);
    }
  }

  lemma CheckHolds(dev: Device, s: State, status: CheckStatus, list: seq<Component>)
    ensures Holds(s, HandleCheckResult(dev, s, status, list))
  {
    CheckShape(dev, s, status, list);
  }

  lemma RestartHolds(dev: Device, s: State, bootSeconds: int, spaceEnough: bool)
    requires |s.tasks| <= 1
    ensures Holds(s, Restart(dev, s, bootSeconds, spaceEnough))
  {
    var (startupReason, recorded) := StartupReason(s.reason, bootSeconds);
    var started := s.(downloads := [], installs := [], reason := recorded,
                      bootPending := startupReason == REASON_DEVICE_REBOOT);
    RestoreHolds(dev, ManagerInit(started, startupReason), spaceEnough);
  }

  lemma RestoreHolds(dev: Device, s: State, spaceEnough: bool)
    requires |s.tasks| <= 1
    ensures Holds(s, RestoreUpdate(dev, s, spaceEnough))
  {
    RestoreShape(dev, s, spaceEnough);
  }

  lemma InstallHolds(dev: Device, s: State, order: Order, installType: InstallType, spaceEnough: bool)
    ensures Holds(s, DoInstall(dev, s, order, installType, spaceEnough))
  {
  }

  /** Every step but a report, and a begin, progress or result that lifts. */
  lemma OtherHolds(dev: Device, s: State, step: Step)
    requires |s.tasks| <= 1 && !FlowStep(step)
    ensures Holds(s, Next(dev, s, step))
  {
    match step
    case CheckStep(status, list) => CheckHolds(dev, s, status, list);
    case RestartStep(boot, space) => RestartHolds(dev, s, boot, space);
    case UpgradeStep(order, space) => InstallHolds(dev, s, order, DeviceInstallType(dev), space);
    case _ =>
  }

  /** What lifts the task leaves its rows and its proof. */
  ghost predicate Raised(s: State, t: State) {
    Progressed(s, t) && t.proof == s.proof && PastDownload(t)
  }

  lemma BeginExact(s: State, k: nat)
    requires |s.tasks| <= 1 && k < |s.installs|
    ensures var t := InstallBegin(s, k); if Lifts(s, BeginStep(k)) then Raised(s, t) else Holds(s, t)
  {
    BeginShape(s, k);
  }

  lemma ProgressExact(s: State, k: nat, progress: Progress, percent: int)
    requires |s.tasks| <= 1 && k < |s.installs|
    ensures var t := HandleInstallProgress(s, k, progress, percent);
            if Lifts(s, ProgressStep(k, progress, percent)) then Raised(s, t) else Holds(s, t)
  {
    ProgressShape(s, k, progress, percent);
  }

  lemma ResultExact(s: State, k: nat, success: bool, percent: int)
    requires |s.tasks| <= 1 && k < |s.installs|
    ensures var t := HandleInstallResult(s, k, success, percent);
            if Lifts(s, ResultStep(k, success, percent)) then Raised(s, t) else Holds(s, t)
  {
    ResultShape(s, k, success, percent);
  }

  lemma ReportExact(dev: Device, s: State, k: nat, i: nat, report: Report, percent: int)
    requires |s.tasks| <= 1 && k < |s.downloads| && i < |s.downloads[k].components|
    ensures var t := DownloadCallback(dev, s, k, i, report, percent);
            var d := s.downloads[k];
            var c := d.components[i];
            if s.tasks != [] && Accepted(dev, s, d, c, report) then
              && PastDownload(t) && SameRows(s.components, t.components) && t.files == s.files
              && t.proof == Some(Proof(c.spath, VerifyInfoFor(d.components, c.spath), FileAt(s.files, c.spath)))
            else Holds(s, t)
  {
    ReportShape(dev, s, k, i, report, percent);
  }

  /** From a task that stands, a step leads to one that stands if and only if it is not one of those. */
  lemma StandsExactly(dev: Device, s: State, step: Step)
    requires |s.tasks| <= 1 && Stands(dev, s)
    ensures Stands(dev, Next(dev, s, step)) <==> !Breaks(dev, s, step)
  {
    var t := Next(dev, s, step);
    if !FlowStep(step) {
      OtherHolds(dev, s, step);
      HeldStands(dev, s, t);
    } else if step.ReportStep? {
      ReportStands(dev, s, step.k, step.i, step.report, step.percent);
    } else {
      InstallStands(dev, s, step);
    }
  }

  lemma InstallMoves(dev: Device, s: State, step: Step)
    requires |s.tasks| <= 1 && FlowStep(step) && !step.ReportStep?
    ensures var t := Next(dev, s, step); if Lifts(s, step) then Raised(s, t) else Holds(s, t)
  {
    if step.k < |s.installs| {
      match step
      case BeginStep(k) => BeginExact(s, k);
      case ProgressStep(k, progress, percent) => ProgressExact(s, k, progress, percent);
      case ResultStep(k, success, percent) => ResultExact(s, k, success, percent);
    }
  }

  lemma InstallStands(dev: Device, s: State, step: Step)
    requires |s.tasks| <= 1 && Stands(dev, s) && FlowStep(step) && !step.ReportStep?
    ensures Stands(dev, Next(dev, s, step)) <==> !Breaks(dev, s, step)
  {
    var t := Next(dev, s, step);
    InstallMoves(dev, s, step);
    if Lifts(s, step) {
      ProvedSame(dev, s, t);
    } else {
      HeldStands(dev, s, t);
    }
  }

  lemma ReportStands(dev: Device, s: State, k: nat, i: nat, report: Report, percent: int)
    requires |s.tasks| <= 1 && Stands(dev, s)
    ensures var step := ReportStep(k, i, report, percent);
            Stands(dev, Next(dev, s, step)) <==> !Breaks(dev, s, step)
  {
    if k < |s.downloads| && i < |s.downloads[k].components| {
      ReportExact(dev, s, k, i, report, percent);
      var t := DownloadCallback(dev, s, k, i, report, percent);
      var d := s.downloads[k];
      var c := d.components[i];
      if s.tasks != [] && Accepted(dev, s, d, c, report) {
        RowsKept(s.components, t.components, c.spath, VerifyInfoFor(d.components, c.spath));
      } else {
        HeldStands(dev, s, t);
      }
    }
  }

  // ---------- whole runs ----------

  /** Every state the run goes through is good. */
  ghost predicate Throughout(dev: Device, good: State -> bool, s: State, steps: seq<Step>) {
    forall n :: 0 <= n <= |steps| ==> good(Run(dev, s, steps[..n]))
  }

  /** No step of the run is a bad one where it is taken. */
  ghost predicate Avoids(dev: Device, bad: (State, Step) -> bool, s: State, steps: seq<Step>)
    decreases |steps|
  {
    steps == [] || (!bad(s, steps[0]) && Avoids(dev, bad, Next(dev, s, steps[0]), steps[1..]))
  }

  /** From a good state, exactly the bad steps lead to one that is not good. */
  ghost predicate Exact(dev: Device, good: State -> bool, bad: (State, Step) -> bool) {
    forall s, step :: Tables(dev, s) && good(s) ==> (good(Next(dev, s, step)) <==> !bad(s, step))
  }

  lemma ThroughoutSplit(dev: Device, good: State -> bool, s: State, steps: seq<Step>)
    requires steps != []
    ensures Throughout(dev, good, s, steps) <==>
            good(s) && Throughout(dev, good, Next(dev, s, steps[0]), steps[1..])
  {
    var t, rest := Next(dev, s, steps[0]), steps[1..];
    assert steps[..0] == [];
    assert forall n :: 1 <= n <= |steps| ==> steps[..n][0] == steps[0] && steps[..n][1..] == rest[..n - 1];
    if Throughout(dev, good, s, steps) {
      assert good(Run(dev, s, steps[..0]));
      forall n | 0 <= n <= |rest|
        ensures good(Run(dev, t, rest[..n]))
      {
        assert good(Run(dev, s, steps[..n + 1]));
      }
    }
    if good(s) && Throughout(dev, good, t, rest) {
      forall n | 0 <= n <= |steps|
        ensures good(Run(dev, s, steps[..n]))
      {
        if n > 0 {
          assert good(Run(dev, t, rest[..n - 1]));
        }
      }
    }
  }

  lemma {:induction false} RunExactly(dev: Device, good: State -> bool, bad: (State, Step) -> bool, s: State,
                                      steps: seq<Step>)
    requires Exact(dev, good, bad) && Tables(dev, s) && good(s)
    ensures Throughout(dev, good, s, steps) <==> Avoids(dev, bad, s, steps)
    decreases |steps|
  {
    if steps == [] {
      assert steps[..0] == [];
    } else {
      var t, rest := Next(dev, s, steps[0]), steps[1..];
      StepKeepsTables(dev, s, steps[0]);
      ThroughoutSplit(dev, good, s, steps);
      if good(t) {
        RunExactly(dev, good, bad, t, rest);
      } else {
        assert rest[..0] == [] && !good(Run(dev, t, rest[..0]));
      }
    }
  }

  ghost function Standing(dev: Device): State -> bool {
    s => Stands(dev, s)
  }

  ghost function Breaking(dev: Device): (State, Step) -> bool {
    (s, step) => Breaks(dev, s, step)
  }

  /** In any run at all, every state has its task checked by the digest before it counts as downloaded, installed
      or further, if and only if no step of the run is one of the breaking ones. */
  lemma CheckedThroughout(dev: Device, steps: seq<Step>)
    ensures Throughout(dev, Standing(dev), INITIAL, steps) <==> Avoids(dev, Breaking(dev), INITIAL, steps)
  {
    forall s, step | Tables(dev, s) && Standing(dev)(s)
      ensures Standing(dev)(Next(dev, s, step)) <==> !Breaking(dev)(s, step)
    {
      StandsExactly(dev, s, step);
    }
    RunExactly(dev, Standing(dev), Breaking(dev), INITIAL, steps);
  }
}
