/** One step of a firmware upgrade, as a function on the whole state: the two tables, the package files, the
    restart reason kept in the preferences, and the download and install flows running in the process.
    A step is one call or one callback; a process restart drops the running flows and keeps the rest. */
module FirmwareFlow {
  import opened Structs
  import opened FirmwareTables
  import opened VersionCompare

  // ---------- state ----------

  datatype Device = Device(sha: Hash, abSlots: bool)

  datatype InstallType = SysInstaller | Updater

  /** A download flow works on the rows and the task id it read when it started. */
  datatype DownloadFlow = DownloadFlow(components: seq<Component>, taskId: string)

  /** An install or apply flow: `begun` once its thread has read the tables; `advanced` once the flow manager
      has moved past the install step. */
  datatype InstallFlow = InstallFlow(installType: InstallType, applies: bool, begun: bool, taskId: string,
                                     url: string, advanced: bool)

  datatype Event = TaskCancel(taskId: string) | UpgradeSuccess(taskId: string) | UpgradeFail(taskId: string)

  /** What the last accepted digest check of this task looked at. */
  datatype Proof = Proof(path: string, verifyInfo: string, content: Option<string>)

  datatype State = State(tasks: seq<Task>, components: seq<Component>, files: map<string, string>,
                         reason: Option<int>, downloads: seq<DownloadFlow>, installs: seq<InstallFlow>,
                         bootPending: bool, events: seq<Event>, proof: Option<Proof>)

  const INITIAL := State([], [], map[], None, [], [], false, [], None)

  const ONE_HUNDRED := 100
  const PACKAGE_PATH := "/data/update/ota_package/firmware/versions"

  function RemoveAt<T>(s: seq<T>, k: nat): (r: seq<T>)
    requires k < |s|
    ensures forall x :: x in r ==> x in s
  {
    s[..k] + s[k + 1..]
  }

  /** Both tables, the package directory and with them the standing of the task go. */
  function ClearFirmwareInfo(s: State): State {
    s.(tasks := [], components := [], files := map[], proof := None)
  }

  // ---------- check result ----------

  datatype CheckStatus =
    | CheckSuccess | CheckFail | FileListRequestSuccess | FileListRequestFail
    | ChangelogRequestSuccess | ChangelogRequestFail

  predicate IsCheckFailed(status: CheckStatus) {
    status == CheckFail || status == FileListRequestFail || status == ChangelogRequestFail
  }

  predicate HasUndoneTask(tasks: seq<Task>) {
    QueryStatus(tasks) in {Downloading, DownloadPause, Verifying, Installing, Updating}
  }

  /** The rows as they are inserted: marked as checked, with the path their package will have. */
  function Prepared(list: seq<Component>): (r: seq<Component>)
    ensures |r| == |list|
    ensures forall i :: 0 <= i < |r| ==>
              r[i] == list[i].(status := CheckVersionSuccess, spath := PACKAGE_PATH + "/" + list[i].fileName)
  {
    seq(|list|, i requires 0 <= i < |list| =>
      list[i].(status := CheckVersionSuccess, spath := PACKAGE_PATH + "/" + list[i].fileName))
  }

  function InsertVersion(dev: Device, s: State, list: seq<Component>): State {
    var rows := Prepared(list);
    var task := Task(TaskIdOf(dev.sha, rows), CheckVersionSuccess, 0, CombinationOf(rows));
    ClearFirmwareInfo(s).(components := rows, tasks := [task])
  }

  function UpdateFirmwareComponent(s: State, list: seq<Component>): State {
    if QueryStatus(s.tasks) != CheckVersionSuccess then s
    else s.(components := UpdateUrls(s.components, list))
  }

  function HandleNoNewVersion(s: State): State {
    var notice := if s.tasks == [] then [] else [TaskCancel(s.tasks[0].taskId)];
    ClearFirmwareInfo(s).(events := s.events + notice)
  }

  /** A result that makes the tables hold a new version. */
  predicate Replaces(s: State, status: CheckStatus, list: seq<Component>) {
    !IsCheckFailed(status) && !HasUndoneTask(s.tasks) && list != [] && !SameWithDb(s.components, list)
  }

  function HandleCheckResult(dev: Device, s: State, status: CheckStatus, list: seq<Component>): State {
    if IsCheckFailed(status) || HasUndoneTask(s.tasks) then s
    else if list == [] then HandleNoNewVersion(s)
    else if SameWithDb(s.components, list) then UpdateFirmwareComponent(s, list)
    else InsertVersion(dev, s, list)
  }

  // ---------- download ----------

  /** The service's gate, the flow's own conditions, and a flow that remembers what it read. */
  function StartDownload(s: State, netAvailable: bool, spaceEnough: bool): State {
    if QueryStatus(s.tasks) != CheckVersionSuccess || !netAvailable || !spaceEnough then s
    else s.(downloads := s.downloads + [DownloadFlow(s.components, s.tasks[0].taskId)])
  }

  datatype Report = ReportDownloading | ReportFail | ReportSuccess | ReportCancel

  function ReportStatus(report: Report): Status {
    match report
    case ReportDownloading => Downloading
    case ReportFail => DownloadFail
    case ReportSuccess => DownloadSuccess
    case ReportCancel => DownloadCancel
  }

  function Lower(c: char): char {
    if 'A' <= c <= 'Z' then c - 'A' + 'a' else c
  }

  predicate SameDigest(a: string, b: string) {
    |a| == |b| && forall i :: 0 <= i < |a| ==> Lower(a[i]) == Lower(b[i])
  }

  function FileAt(files: map<string, string>, path: string): Option<string> {
    if path in files then Some(files[path]) else None
  }

  /** The download thread writes a package, or unlinks it. */
  function WritePackage(files: map<string, string>, path: string, content: Option<string>): map<string, string> {
    if content.Some? then files[path := content.value] else files - {path}
  }

  predicate DigestMatches(sha: Hash, verifyInfo: string, content: Option<string>) {
    verifyInfo == "" || (content.Some? && SameDigest(sha(content.value), verifyInfo))
  }

  /** The digest expected of a package: that of the first row with its path. */
  function VerifyInfoFor(components: seq<Component>, path: string): (r: string)
    ensures (exists c :: c in components && c.spath == path) ==>
              exists c :: c in components && c.spath == path && c.verifyInfo == r
  {
    if components == [] then ""
    else if components[0].spath == path then
      assert components[0] in components;
      components[0].verifyInfo
    else
      assert forall c :: c in components <==> c == components[0] || c in components[1..];
      VerifyInfoFor(components[1..], path)
  }

  /** A cancelled download goes back to the state after the check. */
  function DownloadCancelProcess(s: State): State
    requires s.tasks != []
  {
    s.(tasks := UpdateTask(s.tasks, s.tasks[0].taskId, CheckVersionSuccess, 0),
       components := UpdateProgress(s.components, Urls(s.components), CheckVersionSuccess, 0),
       files := map[])
  }

  function StepAfterDownload(s: State): State {
    match QueryStatus(s.tasks)
    case DownloadFail => ClearFirmwareInfo(s)
    case DownloadCancel => DownloadCancelProcess(s)
    case _ => s
  }

  /** The tables after a callback of flow `d` about its row `c`: the row gets the reported status, the task the
      status after the digest check. */
  function RecordReport(dev: Device, s: State, d: DownloadFlow, c: Component, report: Report, percent: int): State
  {
    var verifyInfo := VerifyInfoFor(d.components, c.spath);
    var accepted := report == ReportSuccess && DigestMatches(dev.sha, verifyInfo, FileAt(s.files, c.spath));
    var taskStatus := if report == ReportSuccess && !accepted then DownloadFail else ReportStatus(report);
    s.(files := if report == ReportSuccess && !accepted then s.files - {c.spath} else s.files,
       components := UpdateProgress(s.components, {c.url}, ReportStatus(report), percent),
       tasks := UpdateTask(s.tasks, d.taskId, taskStatus, percent),
       proof := if accepted && QueryTaskId(s.tasks) == d.taskId
                then Some(Proof(c.spath, verifyInfo, FileAt(s.files, c.spath))) else s.proof)
  }

  function DownloadCallback(dev: Device, s: State, k: nat, i: nat, report: Report, percent: int): State
    requires k < |s.downloads| && i < |s.downloads[k].components|
  {
    var d := s.downloads[k];
    var t := RecordReport(dev, s, d, d.components[i], report, percent);
    if report == ReportDownloading then t
    else StepAfterDownload(t).(downloads := RemoveAt(s.downloads, k))
  }

  // ---------- install ----------

  datatype Order = OrderDownload | OrderInstall | OrderDownloadAndInstall | OrderApply | OrderInstallAndApply

  function DeviceInstallType(dev: Device): InstallType {
    if dev.abSlots then SysInstaller else Updater
  }

  predicate CanInstall(dev: Device, tasks: seq<Task>) {
    QueryStatus(tasks) == DownloadSuccess || (dev.abSlots && QueryStatus(tasks) == InstallSuccess)
  }

  predicate PackagesReady(files: map<string, string>, components: seq<Component>) {
    components != [] &&
    forall c :: c in components ==> c.spath in files && |files[c.spath]| == c.size
  }

  function DoInstall(dev: Device, s: State, order: Order, installType: InstallType, spaceEnough: bool): State {
    var flow := InstallFlow(installType, order == OrderApply, false, "", "", false);
    if !CanInstall(dev, s.tasks) then s
    else if order == OrderApply then s.(installs := s.installs + [flow])
    else if order != OrderInstall && order != OrderInstallAndApply then s
    else if QueryStatus(s.tasks) != DownloadSuccess || !spaceEnough then s
    else if !PackagesReady(s.files, s.components) then ClearFirmwareInfo(s)
    else s.(installs := s.installs + [flow])
  }

  function StepAfterInstall(s: State): State {
    if QueryStatus(s.tasks) == InstallSuccess then s else ClearFirmwareInfo(s)
  }

  function InstallingStatus(installType: InstallType): Status {
    if installType == SysInstaller then Installing else Updating
  }

  function FailedStatus(installType: InstallType): Status {
    if installType == SysInstaller then InstallFail else UpdateFail
  }

  function MarkInstalling(s: State, status: Status): State {
    s.(tasks := UpdateTask(s.tasks, QueryTaskId(s.tasks), status, 0),
       components := UpdateProgress(s.components, Urls(s.components), status, 0))
  }

  /** Marks the tables and starts the installer, or fails at once if the packages are not all there. */
  function InstallRows(s: State, k: nat): State
    requires k < |s.installs| && s.components != []
  {
    var f := s.installs[k];
    var marked := MarkInstalling(s, InstallingStatus(f.installType));
    if PackagesReady(s.files, s.components) then
      marked.(installs :=
        s.installs[k := f.(begun := true, taskId := QueryTaskId(s.tasks), url := s.components[0].url)])
    else
      StepAfterInstall(marked.(installs := RemoveAt(s.installs, k),
        tasks := UpdateTask(marked.tasks, QueryTaskId(s.tasks), FailedStatus(f.installType), 0)))
  }

  /** The flow's thread reads the tables and acts on what it finds there. */
  function InstallBegin(s: State, k: nat): State
    requires k < |s.installs|
  {
    var f := s.installs[k];
    var ended := s.(installs := RemoveAt(s.installs, k));
    if f.begun then s
    else if f.applies then
      if s.components == [] then ended
      else ended.(tasks := UpdateTask(s.tasks, QueryTaskId(s.tasks), Updating, 0))
    else if s.components == [] then StepAfterInstall(ended)
    else InstallRows(s, k)
  }

  datatype Progress = ProgressInstalling | ProgressSuccess | ProgressFail

  function ProgressStatus(progress: Progress): Status {
    match progress
    case ProgressInstalling => Installing
    case ProgressSuccess => InstallSuccess
    case ProgressFail => InstallFail
  }

  /** The task takes the status; the flow leaves the install step at its first answer. */
  function InstallAnswer(s: State, k: nat, status: Status, percent: int): State
    requires k < |s.installs|
  {
    var f := s.installs[k];
    var t := s.(tasks := UpdateTask(s.tasks, f.taskId, status, percent),
                installs := s.installs[k := f.(advanced := true)]);
    if f.advanced then t else StepAfterInstall(t)
  }

  /** Only the system installer reports progress, and only about the first row. */
  function HandleInstallProgress(s: State, k: nat, progress: Progress, percent: int): State
    requires k < |s.installs|
  {
    var f := s.installs[k];
    if !f.begun || f.installType != SysInstaller then s
    else
      var status := ProgressStatus(progress);
      var t := s.(components := UpdateProgress(s.components, {f.url}, status, percent));
      if progress == ProgressInstalling then t.(tasks := UpdateTask(s.tasks, f.taskId, status, percent))
      else InstallAnswer(t, k, status, percent)
  }

  function HandleInstallResult(s: State, k: nat, success: bool, percent: int): State
    requires k < |s.installs|
  {
    var f := s.installs[k];
    if !f.begun then s
    else
      var t := if success then InstallAnswer(s, k, InstallSuccess, ONE_HUNDRED)
               else InstallAnswer(s, k, FailedStatus(f.installType), percent);
      t.(installs := RemoveAt(s.installs, k))
  }

  // ---------- clear-error, terminate ----------

  predicate IsUpgradeFailed(status: Status) {
    status in {DownloadFail, PackageTransFail, InstallFail, UpdateFail, VerifyFail}
  }

  function DoClearError(s: State): State {
    if IsUpgradeFailed(QueryStatus(s.tasks)) then ClearFirmwareInfo(s) else s
  }

  const REASON_UNKNOWN := -1
  const REASON_DEVICE_REBOOT := 0
  const REASON_SCHEDULE_TASK := 1
  const REASON_PROCESS_ENV_RESET := 2

  /** The reason is recorded before the restart timer is armed, so a failure to arm it leaves the record. */
  function DoTerminateUpgrade(s: State): State {
    s.(reason := Some(REASON_PROCESS_ENV_RESET))
  }

  // ---------- restart ----------

  const BOOT_COMPLETE_SIMULATE_DURATION := 60

  /** The reason a start reports, and what it leaves recorded. */
  function StartupReason(recorded: Option<int>, bootSeconds: int): (int, Option<int>) {
    if bootSeconds <= BOOT_COMPLETE_SIMULATE_DURATION then (REASON_DEVICE_REBOOT, recorded)
    else
      var r := if recorded.Some? then recorded.value else REASON_UNKNOWN;
      if r == REASON_UNKNOWN then (REASON_SCHEDULE_TASK, recorded) else (r, None)
  }

  /** A reset environment starts from nothing. */
  function ManagerInit(s: State, startupReason: int): State {
    if startupReason == REASON_PROCESS_ENV_RESET then ClearFirmwareInfo(s).(reason := None) else s
  }

  function HandleBootInstall(dev: Device, s: State, spaceEnough: bool): State
    requires s.tasks != []
  {
    var t := s.(tasks := UpdateTask(s.tasks, s.tasks[0].taskId, DownloadSuccess, ONE_HUNDRED),
                components := UpdateProgress(s.components, UrlsInStatus(s.components, Installing),
                                             DownloadSuccess, ONE_HUNDRED));
    DoInstall(dev, t, OrderInstallAndApply, SysInstaller, spaceEnough)
  }

  function RestoreUpdate(dev: Device, s: State, spaceEnough: bool): State {
    match QueryStatus(s.tasks)
    case DownloadPause => ClearFirmwareInfo(s)
    case Downloading => ClearFirmwareInfo(s)
    case Installing => HandleBootInstall(dev, s, spaceEnough)
    case InstallSuccess => HandleBootInstall(dev, s, spaceEnough)
    case _ => s
  }

  /** A process start after a crash, an exit or a boot `bootSeconds` ago. */
  function Restart(dev: Device, s: State, bootSeconds: int, spaceEnough: bool): State {
    var (startupReason, recorded) := StartupReason(s.reason, bootSeconds);
    var started := s.(downloads := [], installs := [], reason := recorded,
                    bootPending := startupReason == REASON_DEVICE_REBOOT);
    RestoreUpdate(dev, ManagerInit(started, startupReason), spaceEnough)
  }

  // ---------- boot result ----------

  /** Whether every row passed. A path the updater's result file does not mention is judged by comparing
      versions, once. */
  predicate AllPassed(results: map<string, string>, displayVersion: string, components: seq<Component>)
    decreases |components|
  {
    if components == [] then true
    else
      var c := components[0];
      var result := if c.spath in results then results[c.spath]
                    else if c.versionNumber == displayVersion then "pass" else "fail";
      result == "pass" && AllPassed(results[c.spath := result], displayVersion, components[1..])
  }

  function HandleBootComplete(s: State, results: map<string, string>, displayVersion: string): State {
    var t := s.(bootPending := false);
    if !s.bootPending || QueryStatus(s.tasks) != Updating then t
    else if s.components != [] && AllPassed(results, displayVersion, s.components) then
      if s.tasks[0].combination == Hota
      then ClearFirmwareInfo(t).(events := s.events + [UpgradeSuccess(s.tasks[0].taskId)])
      else t
    else ClearFirmwareInfo(t).(events := s.events + [UpgradeFail(s.tasks[0].taskId)])
  }

  // ---------- runs ----------

  datatype Step =
    | CheckStep(status: CheckStatus, list: seq<Component>)
    | DownloadStep(netAvailable: bool, spaceEnough: bool)
    | PackageStep(k: nat, i: nat, content: Option<string>)
    | ReportStep(k: nat, i: nat, report: Report, percent: int)
    | UpgradeStep(order: Order, spaceEnough: bool)
    | BeginStep(k: nat)
    | ProgressStep(k: nat, progress: Progress, percent: int)
    | ResultStep(k: nat, success: bool, percent: int)
    | ClearErrorStep
    | TerminateStep
    | RestartStep(bootSeconds: int, spaceEnough: bool)
    | BootStep(results: map<string, string>, displayVersion: string)

  function Next(dev: Device, s: State, step: Step): State {
    match step
    case CheckStep(status, list) => HandleCheckResult(dev, s, status, list)
    case DownloadStep(net, space) => StartDownload(s, net, space)
    case PackageStep(k, i, content) =>
      if k < |s.downloads| && i < |s.downloads[k].components|
      then s.(files := WritePackage(s.files, s.downloads[k].components[i].spath, content)) else s
    case ReportStep(k, i, report, percent) =>
      if k < |s.downloads| && i < |s.downloads[k].components|
      then DownloadCallback(dev, s, k, i, report, percent) else s
    case UpgradeStep(order, space) => DoInstall(dev, s, order, DeviceInstallType(dev), space)
    case BeginStep(k) => if k < |s.installs| then InstallBegin(s, k) else s
    case ProgressStep(k, progress, percent) =>
      if k < |s.installs| then HandleInstallProgress(s, k, progress, percent) else s
    case ResultStep(k, success, percent) =>
      if k < |s.installs| then HandleInstallResult(s, k, success, percent) else s
    case ClearErrorStep => DoClearError(s)
    case TerminateStep => DoTerminateUpgrade(s)
    case RestartStep(boot, space) => Restart(dev, s, boot, space)
    case BootStep(results, version) => HandleBootComplete(s, results, version)
  }

  function Run(dev: Device, s: State, steps: seq<Step>): State
    decreases |steps|
  {
    if steps == [] then s else Run(dev, Next(dev, s, steps[0]), steps[1..])
  }
}
