/** The firmware upgrade as the program carries it out: fields updated in place, loops over rows. Each method
    does exactly one step of the flow. */
module FirmwareEngine {
  import opened Structs
  import opened FirmwareTables
  import opened VersionCompare
  import opened FirmwareFlow

  lemma UrlsNext(components: seq<Component>, i: nat)
    requires i < |components|
    ensures Urls(components[..i + 1]) == Urls(components[..i]) + {components[i].url}
  {
    assert components[..i + 1] == components[..i] + [components[i]];
  }

  lemma UrlsInStatusNext(components: seq<Component>, i: nat, status: Status)
    requires i < |components|
    ensures UrlsInStatus(components[..i + 1], status) ==
            UrlsInStatus(components[..i], status) +
            (if components[i].status == status then {components[i].url} else {})
  {
    assert components[..i + 1] == components[..i] + [components[i]];
  }

  class Engine {
    const dev: Device
    var tasks: seq<Task>
    var components: seq<Component>
    var files: map<string, string>
    var reason: Option<int>
    var downloads: seq<DownloadFlow>
    var installs: seq<InstallFlow>
    var bootPending: bool
    var events: seq<Event>
    ghost var proof: Option<Proof>

    ghost function View(): State
      reads this
    {
      State(tasks, components, files, reason, downloads, installs, bootPending, events, proof)
    }

    constructor (dev: Device)
      ensures View() == INITIAL && this.dev == dev
    {
      this.dev := dev;
      tasks, components, files, reason := [], [], map[], None;
      downloads, installs, bootPending, events, proof := [], [], false, [], None;
    }

    method Clear()
      modifies this
      ensures View() == ClearFirmwareInfo(old(View()))
    {
      tasks := [];
      components := [];
      files := map[];
      proof := None;
    }

    // ---------- check ----------

    method UpdateComponentUrls(list: seq<Component>)
      modifies this`components
      ensures components == UpdateUrls(old(components), list)
    {
      for i := 0 to |list|
        invariant UpdateUrls(components, list[i..]) == UpdateUrls(old(components), list)
      {
        assert list[i..][1..] == list[i + 1..];
        components := UpdateUrl(components, list[i].versionId, list[i].url);
      }
    }

    method HandleNewVersion(list: seq<Component>)
      requires list != []
      modifies this
      ensures View() == if SameWithDb(old(components), list) then UpdateFirmwareComponent(old(View()), list)
                        else InsertVersion(dev, old(View()), list)
    {
      var same := IsVersionSameWithDb(components, list);
      if same {
        if QueryStatus(tasks) == CheckVersionSuccess {
          UpdateComponentUrls(list);
        }
        return;
      }
      Clear();
      components := Prepared(list);
      var taskId := BuildTaskId(dev.sha, components);
      var combination := GetCombinationType(components);
      tasks := [Task(taskId, CheckVersionSuccess, 0, combination)];
    }

    method SetCheckResult(status: CheckStatus, list: seq<Component>)
      modifies this
      ensures View() == HandleCheckResult(dev, old(View()), status, list)
    {
      if IsCheckFailed(status) || HasUndoneTask(tasks) {
        return;
      }
      if list != [] {
        HandleNewVersion(list);
        return;
      }
      if tasks != [] {
        events := events + [TaskCancel(tasks[0].taskId)];
      }
      Clear();
    }

    // ---------- download ----------

    method Download(netAvailable: bool, spaceEnough: bool)
      modifies this`downloads
      ensures View() == StartDownload(old(View()), netAvailable, spaceEnough)
    {
      if QueryStatus(tasks) != CheckVersionSuccess {
        return;
      }
      if netAvailable && spaceEnough {
        downloads := downloads + [DownloadFlow(components, tasks[0].taskId)];
      }
    }

    method VerifyDownloadPkg(rows: seq<Component>, path: string) returns (verifyInfo: string, accepted: bool)
      ensures verifyInfo == VerifyInfoFor(rows, path)
      ensures accepted == DigestMatches(dev.sha, verifyInfo, FileAt(files, path))
    {
      verifyInfo := "";
      var i := 0;
      while i < |rows|
        invariant 0 <= i <= |rows|
        invariant VerifyInfoFor(rows, path) == VerifyInfoFor(rows[i..], path)
      {
        if rows[i].spath == path {
          verifyInfo := rows[i].verifyInfo;
          break;
        }
        assert rows[i..][1..] == rows[i + 1..];
        i := i + 1;
      }
      accepted := verifyInfo == "" || (path in files && SameDigest(dev.sha(files[path]), verifyInfo));
    }

    /** Resets every row's progress, one where-url-equals update per row. */
    method MarkRows(status: Status)
      modifies this`components
      ensures components == UpdateProgress(old(components), Urls(old(components)), status, 0)
    {
      var rows := components;
      assert UpdateProgress(rows, Urls(rows[..0]), status, 0) == rows;
      for i := 0 to |rows|
        invariant components == UpdateProgress(rows, Urls(rows[..i]), status, 0)
      {
        UpdateTwice(rows, Urls(rows[..i]), {rows[i].url}, status, 0);
        UrlsNext(rows, i);
        components := UpdateProgress(components, {rows[i].url}, status, 0);
      }
      assert rows[..|rows|] == rows;
    }

    method StepAfter()
      modifies this
      ensures View() == StepAfterDownload(old(View()))
    {
      if QueryStatus(tasks) == DownloadFail {
        Clear();
      } else if QueryStatus(tasks) == DownloadCancel {
        tasks := UpdateTask(tasks, tasks[0].taskId, CheckVersionSuccess, 0);
        MarkRows(CheckVersionSuccess);
        files := map[];
      }
    }

    /** Checks the digest of a finished package and records the report in both tables. */
    method Record(d: DownloadFlow, c: Component, report: Report, percent: int)
      modifies this
      ensures View() == RecordReport(dev, old(View()), d, c, report, percent)
    {
      var status := ReportStatus(report);
      if report == ReportSuccess {
        var verifyInfo, accepted := VerifyDownloadPkg(d.components, c.spath);
        if accepted && QueryTaskId(tasks) == d.taskId {
          proof := Some(Proof(c.spath, verifyInfo, FileAt(files, c.spath)));
        }
        if !accepted {
          files := files - {c.spath};
          status := DownloadFail;
        }
      }
      components := UpdateProgress(components, {c.url}, ReportStatus(report), percent);
      tasks := UpdateTask(tasks, d.taskId, status, percent);
    }

    method OnDownloadReport(k: nat, i: nat, report: Report, percent: int)
      requires k < |downloads| && i < |downloads[k].components|
      modifies this
      ensures View() == DownloadCallback(dev, old(View()), k, i, report, percent)
    {
      var flows := RemoveAt(downloads, k);
      Record(downloads[k], downloads[k].components[i], report, percent);
      if report != ReportDownloading {
        StepAfter();
        downloads := flows;
      }
    }

    // ---------- install ----------

    method Install(order: Order, installType: InstallType, spaceEnough: bool)
      modifies this
      ensures View() == DoInstall(dev, old(View()), order, installType, spaceEnough)
    {
      if !CanInstall(dev, tasks) {
        return;
      }
      if order == OrderInstall || order == OrderInstallAndApply {
        if QueryStatus(tasks) != DownloadSuccess || !spaceEnough {
          return;
        }
        if !PackagesReady(files, components) {
          Clear();
          return;
        }
      } else if order != OrderApply {
        return;
      }
      installs := installs + [InstallFlow(installType, order == OrderApply, false, "", "", false)];
    }

    method AfterInstall()
      modifies this
      ensures View() == StepAfterInstall(old(View()))
    {
      if QueryStatus(tasks) != InstallSuccess {
        Clear();
      }
    }

    method BeginRows(k: nat)
      requires k < |installs| && components != []
      modifies this
      ensures View() == InstallRows(old(View()), k)
    {
      var f, taskId := installs[k], QueryTaskId(tasks);
      var url, ready := components[0].url, PackagesReady(files, components);
      tasks := UpdateTask(tasks, taskId, InstallingStatus(f.installType), 0);
      MarkRows(InstallingStatus(f.installType));
      if ready {
        installs := installs[k := f.(begun := true, taskId := taskId, url := url)];
      } else {
        installs := RemoveAt(installs, k);
        tasks := UpdateTask(tasks, taskId, FailedStatus(f.installType), 0);
        AfterInstall();
      }
    }

    method Begin(k: nat)
      requires k < |installs|
      modifies this
      ensures View() == InstallBegin(old(View()), k)
    {
      var f := installs[k];
      if f.begun {
        return;
      }
      if !f.applies && components != [] {
        BeginRows(k);
        return;
      }
      installs := RemoveAt(installs, k);
      if !f.applies {
        AfterInstall();
      } else if components != [] {
        tasks := UpdateTask(tasks, QueryTaskId(tasks), Updating, 0);
      }
    }

    method Answer(k: nat, status: Status, percent: int)
      requires k < |installs|
      modifies this
      ensures View() == InstallAnswer(old(View()), k, status, percent)
    {
      var f := installs[k];
      tasks := UpdateTask(tasks, f.taskId, status, percent);
      installs := installs[k := f.(advanced := true)];
      if !f.advanced {
        AfterInstall();
      }
    }

    method OnInstallProgress(k: nat, progress: Progress, percent: int)
      requires k < |installs|
      modifies this
      ensures View() == HandleInstallProgress(old(View()), k, progress, percent)
    {
      var f := installs[k];
      if !f.begun || f.installType != SysInstaller {
        return;
      }
      components := UpdateProgress(components, {f.url}, ProgressStatus(progress), percent);
      if progress == ProgressInstalling {
        tasks := UpdateTask(tasks, f.taskId, Installing, percent);
      } else {
        Answer(k, ProgressStatus(progress), percent);
      }
    }

    method OnInstallResult(k: nat, success: bool, percent: int)
      requires k < |installs|
      modifies this
      ensures View() == HandleInstallResult(old(View()), k, success, percent)
    {
      var f := installs[k];
      if !f.begun {
        return;
      }
      var flows := RemoveAt(installs, k);
      if success {
        Answer(k, InstallSuccess, ONE_HUNDRED);
      } else {
        Answer(k, FailedStatus(f.installType), percent);
      }
      installs := flows;
    }

    // ---------- clear-error, terminate, restart, boot ----------

    method ClearError()
      modifies this
      ensures View() == DoClearError(old(View()))
    {
      if tasks != [] && IsUpgradeFailed(tasks[0].status) {
        Clear();
      }
    }

    method TerminateUpgrade()
      modifies this`reason
      ensures View() == DoTerminateUpgrade(old(View()))
    {
      reason := Some(REASON_PROCESS_ENV_RESET);
    }

    method GetStartupReason(bootSeconds: int) returns (startupReason: int)
      modifies this`reason
      ensures (startupReason, reason) == StartupReason(old(reason), bootSeconds)
    {
      if bootSeconds <= BOOT_COMPLETE_SIMULATE_DURATION {
        return REASON_DEVICE_REBOOT;
      }
      if reason == None || reason == Some(REASON_UNKNOWN) {
        return REASON_SCHEDULE_TASK;
      }
      startupReason := reason.value;
      reason := None;
    }

    method BootInstall(spaceEnough: bool)
      requires tasks != []
      modifies this
      ensures View() == HandleBootInstall(dev, old(View()), spaceEnough)
    {
      tasks := UpdateTask(tasks, tasks[0].taskId, DownloadSuccess, ONE_HUNDRED);
      var rows := components;
      assert UpdateProgress(rows, UrlsInStatus(rows[..0], Installing), DownloadSuccess, ONE_HUNDRED) == rows;
      for i := 0 to |rows|
        invariant components == UpdateProgress(rows, UrlsInStatus(rows[..i], Installing),
                                               DownloadSuccess, ONE_HUNDRED)
        invariant View() == old(View()).(tasks := tasks, components := components)
        invariant tasks == UpdateTask(old(tasks), old(tasks)[0].taskId, DownloadSuccess, ONE_HUNDRED)
      {
        UrlsInStatusNext(rows, i, Installing);
        UpdateTwice(rows, UrlsInStatus(rows[..i], Installing), {rows[i].url}, DownloadSuccess, ONE_HUNDRED);
        if rows[i].status == Installing {
          components := UpdateProgress(components, {rows[i].url}, DownloadSuccess, ONE_HUNDRED);
        }
      }
      assert rows[..|rows|] == rows;
      Install(OrderInstallAndApply, SysInstaller, spaceEnough);
    }

    method Start(bootSeconds: int, spaceEnough: bool)
      modifies this
      ensures View() == Restart(dev, old(View()), bootSeconds, spaceEnough)
    {
      downloads, installs := [], [];
      var startupReason := GetStartupReason(bootSeconds);
      bootPending := startupReason == REASON_DEVICE_REBOOT;
      if startupReason == REASON_PROCESS_ENV_RESET {
        Clear();
        reason := None;
      }
      Restore(spaceEnough);
    }

    method Restore(spaceEnough: bool)
      modifies this
      ensures View() == RestoreUpdate(dev, old(View()), spaceEnough)
    {
      var status := QueryStatus(tasks);
      if status == DownloadPause || status == Downloading {
        Clear();
      } else if status == Installing || status == InstallSuccess {
        BootInstall(spaceEnough);
      }
    }

    /** Judges every row, remembering each verdict under its path. */
    method UpdaterResult(results: map<string, string>, displayVersion: string) returns (passed: bool)
      ensures passed == AllPassed(results, displayVersion, components)
    {
      passed := true;
      var known := results;
      for i := 0 to |components|
        invariant AllPassed(results, displayVersion, components) ==
                  (passed && AllPassed(known, displayVersion, components[i..]))
      {
        var c := components[i];
        assert components[i..][0] == c && components[i..][1..] == components[i + 1..];
        if c.spath !in known {
          known := known[c.spath := if c.versionNumber == displayVersion then "pass" else "fail"];
        }
        assert known == known[c.spath := known[c.spath]];
        passed := passed && known[c.spath] == "pass";
      }
    }

    method BootComplete(results: map<string, string>, displayVersion: string)
      modifies this
      ensures View() == HandleBootComplete(old(View()), results, displayVersion)
    {
      var pending := bootPending;
      bootPending := false;
      if !pending || QueryStatus(tasks) != Updating {
        return;
      }
      var passed := UpdaterResult(results, displayVersion);
      var taskId := tasks[0].taskId;
      if components == [] || !passed {
        events := events + [UpgradeFail(taskId)];
        Clear();
      } else if tasks[0].combination == Hota {
        events := events + [UpgradeSuccess(taskId)];
        Clear();
      }
    }
  }
}
