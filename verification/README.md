# A verified model of the OTA update service

This project models the update service of the device: the firmware task it carries from a server check to a
finished upgrade across crashes and reboots, the IPC boundary its callers sit behind, the callbacks and the process
life that keep it reachable, the download thread, and the text and slot algorithms beside them. Everything here is
checked by the Dafny verifier alone; nothing in it executes the service.

`dafny verify dfyconfig.toml` checks the whole project.

## How it is organised

| area | files |
|---|---|
| IPC | `Structs`, `Wire`, `WireStructs` (records and their wire form), `MessageParcels` (the readers and writers), `UpdateIpc` (a whole call), `UpdateProxyStub` (proxy and stub) |
| firmware task | `FirmwareTables`, `VersionCompare`, `FirmwareFlow` (every step as a function on the persistent state), `FirmwareRows` (what each step writes), `FirmwareSafety`, `FirmwareStanding`, `FirmwareVerified`, `FirmwarePackages`, `FirmwareRecovery` (what holds over runs), `FirmwareRuns`, `FirmwareStale` (runs where it does not), `FirmwareEngine` (the same steps as the program carries them out) |
| callbacks | `CallbackRegistry` (the service's table and client death), `ServiceKit` (the client kits and service death), `ClientLife` (both together) |
| process life | `RestartReason`, `Startup` (checks, idle loop, restarts, over the callback table and the firmware task together) |
| download | `DownloadProgress` |
| text and slots | `Texts`, `Decimal`, `Json`, `EventJson`, `JsonBuilders`, `Changelog`, `TimerSlots` |

Where the program updates fields step by step there is a class whose methods are proved against a function of the
old state, and the theorems are about that function and its runs. A run is any finite sequence of steps, from any
number of clients, with any answers from the network, the operating system and the installer.

## Findings

Places where the code does less than it sets out to do. Each is shown by a run or an input, and has the condition
under which the code does meet the property proved in both directions.

- A task can count as downloaded, installed or updating though no package of it was checked. `StandsExactly` names the
  steps that do this, from the tables, the flows and the record of the last accepted digest check before the step, and
  `CheckedThroughout` lifts it to whole runs: all states of a run are right if and only if the run takes none of those
  steps. Three families of runs that do are worked
  out: another version is offered while a download, an install, or a request to apply is under way (`StaleDownload`,
  `StaleInstall`, `StaleApply`). The cause is that the analysis of a server response fills in no version id, so every
  version has the same task id, the digest of the empty text (`AnalysedDigest`). For the same reason a response offered
  twice is taken for a new version unless its packages agree in size and digest (`RecheckSame`, `OfferedAgain`), and if
  they do, all rows are given the url of the last package (`UrlsMerged`, `MergedRun`).
- The package that is installed need not be the one that was checked: a second download requested before the first
  reports goes on writing (`OverwrittenPackage`). `SealedExactly` and `IntactThroughout` give the exact condition.
- A task of several packages counts as downloaded once one is accepted, and every package was checked if and only if
  all rows name that one (`FirstPackageDecides`). Before an install, sizes are looked at again and digests are not;
  before an apply, nothing is (`InstallAfterFirst`).
- After a failed check, checkNewVersion reports no version although the other two queries report the stored one
  (`DigestsAgree`).
- A vector of more than 128 elements is written in full and read as empty (`VectorOverLimit`), and the elements are
  then taken for the fields that follow.
- The result code -2000 reaches a remote caller as success, with the values an empty reply reads as (`CodeMistaken`,
  `MistakenCall`), and so does a transport failure of 2000 (`UndeliveredCall`).
- The client kit's unregistration does not tell the service, which keeps the callback (`UnregisterLeavesEntry`,
  `LeftBehind`); `NeverStaleExactly` is the condition over runs.
- A death notice that arrives after its key was registered again takes out the new registration (`LateNotice`,
  `LateNoticeReached`); `FreshExactly` says when. A client that dies and comes back under its key is so left connected
  and without its callback (`ComebackRobbed`); `ServedInEveryRun` is the condition over runs of clients and service.
- A check that takes longer than five minutes lets a second one begin, and its answer hides the second from the idle
  loop, which may then unload the service (`HiddenCheck`); exactly when this can happen is `NoneHiddenExactly`.
- A termination requested before a reboot is not carried out by the start inside the 60-second boot window
  (`TerminatedTaskSurvivesBoot`, `TerminatedRun`); it is by the first start after it (`TerminatedTaskGone`). So two
  restarts need not leave what one does; `CrashRecovery` says exactly when they do.
- The download percentage counts the bytes of the running transfer that have reached the file twice, and is too high
  while there are such bytes and the transfer is not complete (`FractionOverstated`).
- An event id without a template gives a text that is no JSON (`UnknownEventInvalid`), and a string that needs an
  escape gives one that does not read back (`EventParses`).
- Giving up timer id 0 is accepted and can delete a timer that belongs to another id (`DeregisterZero`); a deletion
  that fails frees the slot and leaks the timer, at the exit too (`FailedDeletionLeaks`, `ExitBalanced`). `TimerZeroLost`,
  `LeakReached` and `ExitLeakReached` are the runs, `BalancedExactly` and `NoTimerLost` the exact condition.

## Model

| member | source | states |
|---|---|---|
| `UpdateIpc.RemoteEqualsLocal` | interfaces/inner_api/engine/update_service_proxy.cpp:36-514 | for each of the 20 calls, a granted remote call hands the service the same request; the code is that of the direct call iff it survives the shift by 2000, and the out-values are iff they fit the wire; whenever the caller is told of a failure they are untouched |
| `UpdateIpc.SuccessDelivered` | interfaces/inner_api/engine/update_service_proxy.cpp:52-514 | method by method: on success three methods leave the out-values alone, and every other gives those of the direct call, the six queries each with a result of its own kind |
| `UpdateIpc.UnreachableCall` | interfaces/inner_api/engine/update_service_proxy.cpp:27-72 | a call that cannot be made ends with 104, a null callback with 401, the out-values untouched |
| `UpdateIpc.HandledRequest` | services/engine/src/update_service_stub.cpp:406-433 | the stub answers the encoded request with the service's shifted code, and with the reply record exactly on success |
| `UpdateIpc.RequestRoundTrip` | services/engine/src/update_service_stub.cpp:69-368 | every request the proxy writes is read back equal by its handler |
| `UpdateIpc.OutputRoundTrip` | services/engine/src/update_service_stub.cpp:69-152 | a result record is read back equal iff its vectors have at most 128 elements and its sizes fit 32 bits |
| `UpdateIpc.OutsRoundTrip` | services/engine/src/update_service_stub.cpp:69-368 | business error and result together are read back iff both fit: an over-long error list spoils the result after it |
| `UpdateIpc.CodeKept` | interfaces/inner_api/engine/update_service_proxy.cpp:36-50 | shifting a code by 2000 and back keeps it iff it is not negative and does not overflow |
| `UpdateIpc.CodeMistaken` | services/engine/src/update_service_stub.cpp:36-36 | a code is taken for success by the caller iff it is success or -2000 |
| `UpdateIpc.MistakenCall` | interfaces/inner_api/engine/update_service_proxy.cpp:36-514 | a failed call is taken for success iff its code is -2000; the caller then gets no error and the empty result |
| `UpdateIpc.RefusedCall` | services/engine/src/update_service_stub.cpp:420-432 | a caller turned away gets the code that says why and keeps its out-values |
| `UpdateIpc.UndeliveredCall` | interfaces/inner_api/engine/update_service_proxy.cpp:36-50 | a failed delivery is reported as success iff the transport's code is 2000, and otherwise leaves the out-values |
| `UpdateProxyStub.UpdateServiceProxy.Invoke` | interfaces/inner_api/engine/update_service_proxy.cpp:52-514 | the proxy's parcel code, run against the stub's, is exactly the remote call the theorems are about |
| `UpdateProxyStub.UpdateServiceStub.OnRequest` | services/engine/src/update_service_stub.cpp:406-433 | the stub's parcel code gives the code and the reply of the specified request handling |
| `UpdateProxyStub.UpdateServiceStub.Handler` | services/engine/src/update_service_stub.cpp:69-368 | a handler reads its arguments, asks the service and writes the reply only on success |
| `UpdateProxyStub.WriteRequest` | interfaces/inner_api/engine/update_service_proxy.cpp:52-514 | appends exactly the request's wire form |
| `UpdateProxyStub.ReadRequest` | services/engine/src/update_service_stub.cpp:69-368 | reads the request the code and the cells stand for |
| `UpdateProxyStub.WriteOutput` | services/engine/src/update_service_stub.cpp:69-368 | appends exactly the wire form of a result |
| `UpdateProxyStub.ReadOutput` | interfaces/inner_api/engine/update_service_proxy.cpp:242-420 | reads the result of the expected kind |
| `Wire.DecodeEncodedAll` | services/engine/src/message_parcel_helper.cpp:29-78 | elements framed one by one are framed in sequence, whatever follows |
| `Wire.VectorFramed` | services/engine/src/message_parcel_helper.cpp:27-78 | a vector of at most 128 elements is read back with exactly the rest left |
| `Wire.VectorOverLimit` | services/engine/src/message_parcel_helper.cpp:29-60 | a longer vector is never read back, whatever its elements; it is read as empty, with its elements left unread before what follows |
| `Wire.UpgradeInfoFramed` | services/engine/src/message_parcel_helper.cpp:80-98 | framed round trip of the business key |
| `Wire.ErrorsRoundTrip` | services/engine/src/message_parcel_helper.cpp:29-53 | error-message vectors round trip with the rest left iff within the limit |
| `Wire.DescriptionsRoundTrip` | services/engine/src/message_parcel_helper.cpp:55-78 | component-description vectors round trip iff within the limit |
| `Wire.ComponentsRoundTrip` | services/engine/src/message_parcel_helper.cpp:130-171 | component vectors round trip iff within the limit and every size fits 32 bits |
| `WireStructs.BusinessErrorRoundTrip` | services/engine/src/message_parcel_helper.cpp:114-128 | framed round trip iff the error list is within the limit |
| `WireStructs.NewVersionInfoRoundTrip` | services/engine/src/message_parcel_helper.cpp:199-209 | framed round trip iff its components fit |
| `WireStructs.CheckResultRoundTrip` | services/engine/src/message_parcel_helper.cpp:185-197 | framed round trip iff its components fit |
| `WireStructs.CurrentVersionInfoRoundTrip` | services/engine/src/message_parcel_helper.cpp:211-225 | framed round trip iff its components fit |
| `WireStructs.TaskBodyRoundTrip` | services/engine/src/message_parcel_helper.cpp:227-247 | framed round trip of the task body through its two nested vectors, iff both fit |
| `WireStructs.TaskInfoRoundTrip` | services/engine/src/message_parcel_helper.cpp:249-261 | framed round trip iff its body fits |
| `WireStructs.EventInfoRoundTrip` | services/engine/src/message_parcel_helper.cpp:293-305 | framed round trip of an event iff its task body fits |
| `WireStructs.PolicyRoundTrip` | services/engine/src/message_parcel_helper.cpp:263-291 | framed round trip of every upgrade policy |
| `WireStructs.DescriptionOptionsFramed` | services/engine/src/message_parcel_helper.cpp:319-331 | framed round trip |
| `WireStructs.DownloadOptionsFramed` | services/engine/src/message_parcel_helper.cpp:333-345 | framed round trip |
| `MessageParcels.ReadErrorMessages` | services/engine/src/message_parcel_helper.cpp:29-41 | the reading loop computes the vector decoder and leaves its rest |
| `MessageParcels.WriteErrorMessages` | services/engine/src/message_parcel_helper.cpp:43-53 | the writing loop appends the vector's wire form |
| `MessageParcels.ReadVersionComponents` | services/engine/src/message_parcel_helper.cpp:130-152 | the reading loop computes the component-vector decoder |
| `MessageParcels.WriteVersionComponents` | services/engine/src/message_parcel_helper.cpp:154-171 | the writing loop appends the component vector's wire form |
| `MessageParcels.ReadTaskInfo` | services/engine/src/message_parcel_helper.cpp:249-254 | reads the flag and the body, each field in its place |
| `MessageParcels.WriteTaskInfo` | services/engine/src/message_parcel_helper.cpp:256-261 | appends the task's wire form |
| `FirmwareSafety.TablesInEveryRun` | services/firmware/upgrade/data_processor/src/firmware_check_data_processor.cpp:132-229 | in every reachable state there is at most one task row, present iff there are components, and named and typed by them |
| `FirmwareSafety.DigestsAgree` | services/firmware/upgrade/data_processor/src/firmware_check_data_processor.cpp:236-258 | after every run and a check on top of it, getNewVersionInfo and getTaskInfo report one digest or none, and the check's answer agrees iff it did not fail or nothing is stored |
| `FirmwareSafety.StepShape` | services/firmware/upgrade/data_processor/src/firmware_check_data_processor.cpp:76-152 | a step leaves the same rows with other progress, or empties both tables, or stores a newly checked version |
| `FirmwareSafety.StepKeepsTables` | services/firmware/upgrade/flow/src/firmware_manager.cpp:104-457 | each of the twelve steps keeps the agreement of the two tables |
| `FirmwareSafety.ReachableStatuses` | services/firmware/upgrade/mode/src/firmware_download_mode.cpp:94-162 | no row is ever left paused, cancelled or failed in download; clear-error only ever clears a failed install |
| `FirmwareRows.ProgressWritten` | services/firmware/upgrade/executor/src/firmware_install_executor.cpp:97-110 | installing at p percent marks task and row as installing at p, success as installed, failure as failed if the flow has answered before; else nothing is stored any more |
| `FirmwareRows.ProgressIgnored` | services/firmware/upgrade/executor/src/firmware_install_executor.cpp:63-78 | an updater flow, or one that has not begun, takes no progress |
| `FirmwareRows.BeginIgnored` | services/firmware/upgrade/executor/src/firmware_install_executor.cpp:38-88 | a flow begins once |
| `FirmwareRows.ResultWritten` | services/firmware/upgrade/executor/src/firmware_install_executor.cpp:112-131 | a result marks the task as installed at 100, or as failed by its installer at the percentage last known; a failure that is the first answer leaves nothing stored |
| `FirmwareRows.BeginWritten` | services/firmware/upgrade/executor/src/firmware_install_executor.cpp:52-62 | on complete packages task and all rows become installing, or updating for the updater, at 0 |
| `FirmwareRows.BeginEnds` | services/firmware/upgrade/executor/src/firmware_apply_executor.cpp:40-54 | an apply only marks the task as updating, and incomplete packages leave nothing stored |
| `FirmwareRows.UpgradeGate` | services/firmware/upgrade/flow/src/firmware_manager.cpp:212-241 | exactly which orders start a flow, of which kind, in which status |
| `FirmwareRows.ReadyMeans` | services/firmware/common/src/firmware_update_helper.cpp:123-143 | packages are complete iff there are some and each has a file of its size |
| `FirmwareRows.DownloadGate` | services/firmware/upgrade/mode/src/firmware_download_mode.cpp:50-92 | a flow starts iff a checked version is stored and there are network and space, on the table's rows and id |
| `FirmwareRows.DownloadingWritten` | services/firmware/upgrade/executor/src/firmware_download_executor.cpp:122-160 | a download at p percent marks task and row as downloading at p |
| `FirmwareRows.SuccessWritten` | services/firmware/upgrade/executor/src/firmware_download_executor.cpp:122-177 | an accepted package marks the task as downloaded and the row too, a rejected one leaves nothing stored |
| `FirmwareRows.FailWritten` | services/firmware/upgrade/mode/src/firmware_download_mode.cpp:139-145 | a failed download leaves nothing stored |
| `FirmwareRows.CancelWritten` | services/firmware/upgrade/mode/src/firmware_download_mode.cpp:147-162 | a cancelled one takes task and all rows back to checked at 0 and the files away |
| `FirmwareRows.FlowEnded` | services/firmware/upgrade/mode/src/firmware_download_mode.cpp:94-130 | a final report ends its flow and no other |
| `FirmwareRows.OtherTaskWritten` | services/firmware/upgrade/executor/src/firmware_download_executor.cpp:149-158 | a flow of another task marks the rows with its url and no task |
| `FirmwareRows.VerifyInfoOfFirst` | services/firmware/upgrade/executor/src/firmware_download_executor.cpp:162-170 | the digest that counts is that of the first row with the path, or none |
| `FirmwareRows.SameDigestMeans` | services/core/ability/utils/src/sha256_utils.cpp:43-59 | two hexadecimal digests count as the same iff they are the same bytes, whatever the case |
| `FirmwareRows.AcceptedMeans` | services/firmware/upgrade/executor/src/firmware_download_executor.cpp:171-176 | a package is accepted iff no digest is asked for, or it is there and has it |
| `FirmwareRows.CheckIgnored` | services/firmware/upgrade/data_processor/src/firmware_check_data_processor.cpp:76-117 | a failed check, and any while a task is under way in five named statuses, changes nothing |
| `FirmwareRows.NoVersionWritten` | services/firmware/upgrade/data_processor/src/firmware_check_data_processor.cpp:205-216 | a check without a version empties the tables and cancels the task, if there is one, by an event |
| `FirmwareRows.VersionWritten` | services/firmware/upgrade/data_processor/src/firmware_check_data_processor.cpp:132-159 | a new version is stored as offered, rows checked and with their package's path, under a task at 0 |
| `FirmwareRows.SameVersionWritten` | services/firmware/upgrade/data_processor/src/firmware_check_data_processor.cpp:188-203 | the stored version offered again has its urls refreshed while it is only checked, and is left alone later |
| `FirmwareRows.UrlsRefreshed` | services/firmware/data/db/src/firmware_component_operator.cpp:33-41 | a row gets the url of the last offer with its version id, and nothing else changes |
| `FirmwareRows.UrlsMerged` | services/firmware/upgrade/data_processor/src/firmware_check_data_processor.cpp:188-203 | without version ids every row gets the url of the last package |
| `FirmwareRuns.MergedRun` | services/firmware/upgrade/data_processor/src/firmware_check_data_processor.cpp:188-203 | the run of two offers after which all rows have one url, their own iff all have one |
| `FirmwareRows.AnalysedFields` | services/firmware/utils/src/firmware_check_analyze_utils.cpp:115-133 | which field of the response each field of a component is, and the file name as what follows the last slash |
| `FirmwareRows.JoinedIds` | services/firmware/common/src/firmware_update_helper.cpp:20-33 | a task is named by its version ids in order, underscores between |
| `FirmwareRows.ClearErrorWritten` | services/firmware/upgrade/flow/src/firmware_manager.cpp:265-280 | clear-error empties the tables iff the task is in one of five failed statuses |
| `FirmwareRows.RecoveryWritten` | services/firmware/upgrade/flow/src/firmware_manager.cpp:427-457 | recovery drops a download under way, takes an install under way back to downloaded at 100, and leaves the rest |
| `FirmwareRows.PackageWritten` | services/engine/src/progress_thread.cpp:111-157 | a download flow writes or unlinks its package and nothing else |
| `FirmwareRows.StartDropsFlows` | services/firmware/upgrade/flow/src/firmware_manager.cpp:62-126 | a start forgets all flows but the install that recovery issues again, and sends no event |
| `FirmwareStanding.StandsExactly` | services/firmware/upgrade/executor/src/firmware_download_executor.cpp:122-177 | from a task that is past the download only if a package of it was checked, each of the twelve steps keeps that iff it is not one of four named by the state before it: an acceptance for a row the table does not have, or a begin, progress or result of an install flow that raises an unchecked task |
| `FirmwareStanding.CheckedThroughout` | services/firmware/upgrade/flow/src/firmware_manager.cpp:104-457 | in any run, every state has its task checked before it counts as downloaded or further iff the run takes no such step |
| `FirmwareVerified.OnlyVerifiedInstalls` | services/firmware/upgrade/executor/src/firmware_download_executor.cpp:122-177 | so it is in every run in which no version is replaced under a working flow, restarts and re-installs included; with one component the checked package is its package |
| `FirmwarePackages.SealedExactly` | services/firmware/upgrade/executor/src/firmware_download_executor.cpp:122-177 | from a task whose checked package lies at its path unaltered, a step keeps that iff it breaks nothing and neither overwrites nor removes that package |
| `FirmwarePackages.IntactThroughout` | services/firmware/upgrade/executor/src/firmware_download_executor.cpp:70-177 | in any run, every task past the download has the checked bytes at their path iff the run takes no such step |
| `FirmwarePackages.CheckedBytesInstalled` | services/firmware/upgrade/mode/src/firmware_download_mode.cpp:50-92 | so it is in every run with one download at a time and no version replaced under a flow |
| `FirmwareVerified.StepVouched` | services/firmware/upgrade/flow/src/firmware_manager.cpp:212-241 | each step keeps that standing |
| `FirmwareVerified.FailedDigestNotInstallable` | services/firmware/upgrade/executor/src/firmware_download_executor.cpp:162-177 | a failed digest empties the tables if they hold its task, and makes no other task installable |
| `FirmwareStale.StaleDownload` | services/firmware/upgrade/executor/src/firmware_download_executor.cpp:122-160 | an offer between request and report: the task ends up installable, and was checked iff the versions agree in digest and in path or size |
| `FirmwareStale.StaleApply` | services/firmware/upgrade/executor/src/firmware_apply_executor.cpp:40-54 | an offer between a request to apply and its begin: the task ends up updating with no download at work, and was checked iff the offers compare equal |
| `FirmwareStale.StaleInstall` | services/firmware/upgrade/executor/src/firmware_install_executor.cpp:97-131 | an offer between an install's progress and its result: the task ends up installed, and was checked iff the offers compare equal |
| `FirmwareStale.OverwrittenPackage` | services/firmware/upgrade/executor/src/firmware_download_executor.cpp:70-115 | two downloads requested before either reports: the installable file is the second's, and is the checked one iff they wrote the same |
| `FirmwareStale.FirstPackageDecides` | services/firmware/upgrade/executor/src/firmware_download_executor.cpp:70-160 | in the run that downloads any one of any number of packages, the task ends up installable with no other file on the device, and every package was checked iff all rows agree with that one in path and digest |
| `FirmwareStale.InstallAfterFirst` | services/firmware/upgrade/mode/src/firmware_install_apply_mode.cpp:57-131 | an install then starts iff all rows have that path and that size, and empties the tables otherwise; an apply starts in any case |
| `FirmwareRecovery.CrashRecovery` | services/firmware/upgrade/flow/src/firmware_manager.cpp:62-126 | from every reachable state one restart leaves no task interrupted, and any number of restarts in a row leave tables and files as one does iff no reset is on record, or the first start carries it out, or it leaves nothing stored, or no later one is outside the boot window |
| `FirmwareRecovery.RestoreIdempotent` | services/firmware/upgrade/flow/src/firmware_manager.cpp:104-126 | recovery after recovery changes nothing at all |
| `FirmwareRecovery.ReissuedInstallAccepted` | services/firmware/upgrade/flow/src/firmware_manager.cpp:427-445 | the install that recovery re-issues starts iff there is space and the packages are complete, and passes the install gate unless the tables were emptied |
| `FirmwareRecovery.TerminatedTaskGone` | services/firmware/upgrade/flow/src/firmware_manager.cpp:62-86 | whatever happens between, the first start outside the boot window after a termination finds both tables empty |
| `FirmwareRecovery.TerminatedTaskSurvivesBoot` | services/startup/manage/src/startup_manager.cpp:132-147 | the start after a termination leaves what is stored iff it is inside the boot window or nothing is stored |
| `FirmwareRecovery.TerminatedRun` | services/startup/manage/src/startup_manager.cpp:132-147 | a run in which a stored version is terminated, is still there after a start inside the boot window, and is gone after the next outside it |
| `FirmwareRecovery.AllPassedMeaning` | services/firmware/upgrade/status/src/firmware_result_process.cpp:41-64 | the boot finds success iff every package passed, where rows that share a path share the verdict on the first of them |
| `FirmwareRecovery.AllPassedDistinct` | services/firmware/upgrade/status/src/firmware_result_process.cpp:41-64 | with distinct paths that is each row's own verdict |
| `FirmwareRecovery.BootFinishesUpdate` | services/firmware/upgrade/flow/src/firmware_manager.cpp:348-424 | over runs fed by analysed responses, a boot that finds a task updating always empties both tables and sends exactly one terminal event, success iff all packages passed |
| `FirmwareRecovery.RebootFinishesUpdate` | services/firmware/upgrade/flow/src/firmware_manager.cpp:82-102 | from every reachable updating state, a start and its boot result empty both tables with exactly one event iff the start is at most 60 seconds after the boot; any other leaves tables and events, but for a reset on record; a second boot result does nothing |
| `FirmwareTables.AnalysedDigest` | services/firmware/utils/src/firmware_check_analyze_utils.cpp:106-133 | every analysed response gives the digest of the empty text and the HOTA type |
| `FirmwareTables.BuildTaskId` | services/firmware/common/src/firmware_update_helper.cpp:20-33 | the loop computes the digest that names a task |
| `FirmwareTables.DigestKept` | services/firmware/common/src/firmware_update_helper.cpp:20-33 | no update of progress or url changes the digest |
| `FirmwareTables.GetCombinationType` | services/firmware/upgrade/data_processor/src/firmware_check_data_processor.cpp:218-229 | the loop finds HOTA iff some component is of that type |
| `VersionCompare.IsVersionSameWithDb` | services/firmware/upgrade/data_processor/src/firmware_check_data_processor.cpp:161-186 | the comparison loop decides the specified comparison |
| `VersionCompare.SameIffPermutation` | services/firmware/upgrade/data_processor/src/firmware_check_data_processor.cpp:161-186 | for distinct offered ids, "same" iff the lists are permutations of each other on id, size and digest |
| `VersionCompare.DistinctFill` | services/firmware/upgrade/data_processor/src/firmware_check_data_processor.cpp:161-186 | the pigeonhole behind it: equally many, distinct and all found means exactly the same keys |
| `VersionCompare.RecheckSame` | services/firmware/upgrade/data_processor/src/firmware_check_data_processor.cpp:161-186 | a response offered again compares equal to the rows stored of it iff all its packages have one size and one digest |
| `FirmwareRuns.OfferedAgain` | services/firmware/upgrade/data_processor/src/firmware_check_data_processor.cpp:76-152 | a stored version offered again is stored anew iff its packages are not alike and nothing is under way |
| `FirmwareEngine.Engine.SetCheckResult` | services/firmware/upgrade/data_processor/src/firmware_check_data_processor.cpp:45-117 | the new state is the check-result step of the old one |
| `FirmwareEngine.Engine.HandleNewVersion` | services/firmware/upgrade/data_processor/src/firmware_check_data_processor.cpp:132-203 | replaces the tables or refreshes urls, as the comparison says |
| `FirmwareEngine.Engine.Download` | services/firmware/upgrade/mode/src/firmware_download_mode.cpp:50-92 | starts a flow iff a checked version is stored and its conditions hold |
| `FirmwareEngine.Engine.VerifyDownloadPkg` | services/firmware/upgrade/executor/src/firmware_download_executor.cpp:162-177 | the search loop finds the digest expected of a path, and accepts iff the file has it or none is expected |
| `FirmwareEngine.Engine.OnDownloadReport` | services/firmware/upgrade/executor/src/firmware_download_executor.cpp:122-160 | the new state is the report step, mode's follow-up included |
| `FirmwareEngine.Engine.StepAfter` | services/firmware/upgrade/mode/src/firmware_download_mode.cpp:94-162 | clears after a failure, goes back to checked after a cancellation |
| `FirmwareEngine.Engine.Install` | services/firmware/upgrade/flow/src/firmware_manager.cpp:212-241 | the new state is the install request step |
| `FirmwareEngine.Engine.Begin` | services/firmware/upgrade/executor/src/firmware_install_executor.cpp:38-88 | the new state is the flow's first look at the tables |
| `FirmwareEngine.Engine.OnInstallProgress` | services/firmware/upgrade/executor/src/firmware_install_executor.cpp:97-110 | the new state is the progress step |
| `FirmwareEngine.Engine.OnInstallResult` | services/firmware/upgrade/executor/src/firmware_install_executor.cpp:112-131 | the new state is the result step |
| `FirmwareEngine.Engine.ClearError` | services/firmware/upgrade/flow/src/firmware_manager.cpp:265-280 | clears iff the task has failed |
| `FirmwareEngine.Engine.TerminateUpgrade` | services/firmware/upgrade/flow/src/firmware_manager.cpp:168-185 | records the reset request and nothing else |
| `FirmwareEngine.Engine.Restore` | services/firmware/upgrade/flow/src/firmware_manager.cpp:104-126 | the new state is the recovery step |
| `FirmwareEngine.Engine.Start` | services/firmware/upgrade/flow/src/firmware_manager.cpp:62-102 | the new state is a whole process start |
| `FirmwareEngine.Engine.BootComplete` | services/firmware/upgrade/flow/src/firmware_manager.cpp:297-312 | the new state is the boot-result step |
| `CallbackRegistry.RegistryInvariant` | services/engine/src/update_service.cpp:41-149 | after any run the idle flag says whether the table is empty, and recipients are attached exactly for the current entries with a live callback, on its object |
| `CallbackRegistry.RegisteredFound` | services/engine/src/update_service.cpp:110-149 | a registration gives its key the callback, watched if it lives, and touches no other; an unregistration takes its key away and no other |
| `CallbackRegistry.DeathTakesOwned` | services/engine/src/update_service.cpp:41-84 | a client's death, its notices delivered in any order, removes exactly the entries it owns, whatever other notices are on their way |
| `CallbackRegistry.LateNotice` | services/engine/src/update_service.cpp:41-48 | a late notice removes whatever entry its key has then; a live owner's only if it took the key over meanwhile |
| `CallbackRegistry.LateNoticeReached` | services/engine/src/update_service.cpp:41-125 | a run in which the notice of one client's death takes out the entry of another, alive |
| `CallbackRegistry.RegisterFresh` | services/engine/src/update_service.cpp:110-125 | registering a key keeps late notices harmless iff none for it is on its way |
| `CallbackRegistry.FreshExactly` | services/engine/src/update_service.cpp:41-149 | over whole runs, notices on their way are always for the entries they were meant for iff no key is registered while one for it is on its way |
| `CallbackRegistry.CalmDeathsSpareTheLiving` | services/engine/src/update_service.cpp:41-149 | in runs that never register a key with a notice on its way, no notice removes a live client's entry |
| `CallbackRegistry.InfoTrichotomy` | interfaces/inner_api/include/update_helper.h:247-283 | two keys share an entry iff all their fields agree |
| `CallbackRegistry.InfoTransitive` | interfaces/inner_api/include/update_helper.h:247-283 | the key order is transitive |
| `CallbackRegistry.UpdateService.RegisterUpdateCallback` | services/engine/src/update_service.cpp:110-125 | the new table is the registration step of the old one |
| `CallbackRegistry.UpdateService.UnregisterUpdateCallback` | services/engine/src/update_service.cpp:127-139 | the new table is the unregistration step |
| `CallbackRegistry.UpdateService.OnRemoteDied` | services/engine/src/update_service.cpp:41-48 | the new table is the delivery of the notice |
| `CallbackRegistry.UpdateService.GetUpgradeCallback` | services/engine/src/update_service.cpp:141-149 | the key's current callback, if any |
| `ServiceKit.ReconnectProtocol` | interfaces/inner_api/engine/update_service_kits_impl.cpp:42-149 | over every interleaving of service deaths, notices, calls and registrations of any number of clients, each using keys of its own, a kit connected to the live service has all its callbacks there, unaltered |
| `ServiceKit.RegisteredBoth` | interfaces/inner_api/engine/update_service_kits_impl.cpp:128-141 | a registration that reaches the service is known to it and to the kit, one that does not to neither |
| `ServiceKit.NeverStranded` | interfaces/inner_api/engine/update_service_kits_impl.cpp:42-97 | in every reachable state a kit that is not connected is owed its notice, and that and one call reconnect it with all its callbacks |
| `ServiceKit.SharedKeyLost` | interfaces/inner_api/engine/update_service_kits_impl.cpp:128-141 | a key registered by two clients is lost to the first iff the callbacks differ |
| `ServiceKit.UnregisterLeavesEntry` | interfaces/inner_api/engine/update_service_kits_impl.cpp:143-149 | unregistering leaves the service's entry behind iff there is one |
| `ServiceKit.StaleExactly` | interfaces/inner_api/engine/update_service_kits_impl.cpp:42-149 | of all steps, exactly a connected client's unregistration of a registered key leaves something stale at the service |
| `ServiceKit.NeverStaleExactly` | interfaces/inner_api/engine/update_service_kits_impl.cpp:42-149 | over whole runs, the service has only keys the connected client has iff the client takes no such step |
| `ServiceKit.LeftBehind` | interfaces/inner_api/engine/update_service_kits_impl.cpp:128-149 | after one registration and its withdrawal the service still has the callback |
| `ClientLife.ServedExactly` | services/engine/src/update_service.cpp:41-149 | with client deaths as well, each step keeps every attached kit served by the service's own table iff it is not a death notice for a key that an attached kit has by now |
| `ClientLife.ServedInEveryRun` | interfaces/inner_api/engine/update_service_kits_impl.cpp:42-149 | over whole runs of clients and service that die and come back, each client using keys of its own, attached kits are served at all times iff no such notice is handled |
| `ClientLife.RegistrationWritten` | interfaces/inner_api/engine/update_service_kits_impl.cpp:56-141 | a registration by a kit that has, or has to find, a live service is known to both sides |
| `ClientLife.KitsForget` | interfaces/inner_api/engine/update_service_kits_impl.cpp:143-149 | a withdrawal is known to the kit, and a client that ends leaves none |
| `ClientLife.CalmRunServed` | interfaces/inner_api/engine/update_service_kits_impl.cpp:56-141 | so they are in every run that registers or replays no key while a notice for it is on its way |
| `ClientLife.ComebackRobbed` | services/engine/src/update_service.cpp:41-125 | a run in which a client comes back under its key, is connected, and loses its entry to the notice of its own earlier death |
| `ServiceKit.Platform.GetUpdateService` | interfaces/inner_api/engine/update_service_kits_impl.cpp:56-92 | connects and replays as specified |
| `ServiceKit.Platform.Replay` | interfaces/inner_api/engine/update_service_kits_impl.cpp:87-90 | the replay loop registers every callback of the map, in whatever order |
| `ServiceKit.Platform.RegisterUpdateCallback` | interfaces/inner_api/engine/update_service_kits_impl.cpp:128-141 | registers with both sides iff the service is reached |
| `ServiceKit.Platform.OnServiceDied` | interfaces/inner_api/engine/update_service_kits_impl.cpp:42-54 | drops the handle only if it is to the incarnation that died |
| `RestartReason.HandOff` | services/startup/manage/src/startup_manager.cpp:132-147 | each start reports a reboot inside the boot window, else the reason handed to it, else a scheduled task |
| `RestartReason.HandedOnce` | services/startup/manage/src/startup_manager.cpp:132-147 | one scheduled reason goes to one start at most, and the other way round |
| `RestartReason.ResetReported` | services/startup/manage/src/startup_schedule.cpp:51-64 | a start reports a reset iff a reset was handed to it |
| `Startup.ExitExactly` | services/startup/manage/src/startup_manager.cpp:70-118 | in every reachable state a pass unloads the service iff the interval has passed, no callback is registered, both tables are empty, no check is on and the timer was armed |
| `Startup.ExitArmed` | services/startup/manage/src/schedule_manager.cpp:36-69 | the timer then has the configured interval iff its milliseconds fit 64 bits, and a positive one iff they are no multiple of 2^64 |
| `Startup.ExitLeavesNoCheck` | services/core/ability/status_cache/src/status_cache.cpp:23-38 | in orderly runs no check younger than five minutes is running when the service unloads |
| `Startup.AnswerSeen` | services/firmware/upgrade/executor/src/firmware_check_executor.cpp:32-45 | an answer keeps the running checks visible iff no other young one is running |
| `Startup.NoneHiddenExactly` | services/core/ability/status_cache/src/status_cache.cpp:23-38 | over whole runs, no young check is ever hidden from the status cache iff no answer arrives while another young check runs |
| `Startup.PromptAnswer` | services/firmware/upgrade/mode/src/firmware_manual_check_mode.cpp:50-73 | an answer within five minutes is such an answer |
| `Startup.HiddenCheck` | services/core/ability/status_cache/src/status_cache.cpp:23-38 | a run that unloads the service with a check one minute old |
| `Startup.ResetStart` | services/startup/manage/src/startup_manager.cpp:53-68 | over whole device runs, a start resets the environment iff a termination was handed to it, and the tables are then empty |
| `Startup.TerminationHolds` | services/firmware/upgrade/flow/src/firmware_manager.cpp:168-185 | the next start outside the boot window after a termination empties the tables, unless a pass of the idle loop before it found them empty and replaced the request |
| `Startup.SaneInEveryRun` | services/startup/manage/src/startup_manager.cpp:46-85 | across any number of starts, the callback table and the firmware tables keep their invariants and the intervals stay positive |
| `Startup.ParseConfig` | services/startup/manage/src/schedule_config.cpp:51-59 | a configured interval is never zero |
| `Startup.ConfigLoaded` | services/startup/manage/src/schedule_config.cpp:25-59 | each interval is the configured one, or four hours and five minutes |
| `Startup.StartedFresh` | services/startup/manage/src/startup_manager.cpp:32-68 | a start takes its configuration and the time and knows of no client and no check |
| `Startup.CheckBegins` | services/firmware/upgrade/mode/src/firmware_manual_check_mode.cpp:50-73 | a check begins iff there is a network, no update, and none marked as on for at most 300 seconds |
| `Startup.EventsTaken` | services/firmware/upgrade/executor/src/firmware_check_executor.cpp:32-45 | an answer ends its own check and is taken by the upgrade |
| `Startup.PassesSpaced` | services/startup/manage/src/startup_manager.cpp:87-108 | no pass looks, or unloads, within an idle interval of the start or of the last that looked |
| `Startup.TerminationArms` | services/firmware/upgrade/flow/src/firmware_manager.cpp:168-178 | a termination arms a start in 5000 milliseconds and records a reset, the latter even if the timer fails |
| `Startup.StartupManager.Looper` | services/startup/manage/src/startup_manager.cpp:70-85 | the loop body is exactly the specified pass |
| `Startup.StartupManager.IsIdle` | services/startup/access/src/access_manager.cpp:34-48 | the loop over the accesses finds idle iff remote and every access are |
| `Startup.StartupManager.CheckingNow` | services/core/ability/status_cache/src/status_cache.cpp:23-30 | a check counts for five minutes |
| `Startup.StartupManager.SetIsChecking` | services/core/ability/status_cache/src/status_cache.cpp:32-38 | the time is taken only when a check begins |
| `Startup.StartupManager.Schedule` | services/startup/manage/src/startup_schedule.cpp:51-64 | records the reason whether or not the timer is armed |
| `FirmwareEngine.Engine.GetStartupReason` | services/startup/manage/src/startup_manager.cpp:132-147 | reports a reason and consumes the record as specified |
| `DownloadProgress.FreshExecution` | services/engine/src/progress_thread.cpp:111-208 | a fresh, unstopped thread reports strictly rising percentages in 1..99, at most 99, then exactly one terminal report, for any number of ticks |
| `DownloadProgress.ExecutionReports` | services/engine/src/progress_thread.cpp:111-260 | the same from any state of the thread; the terminal report is missing only if stopped, or if it would repeat the last one |
| `DownloadProgress.SilentExactly` | services/engine/src/progress_thread.cpp:172-208 | undisturbed, an execution reports nothing iff the last report was a failure at 0 and this one fails before one percent |
| `DownloadProgress.HighestReported` | services/engine/src/progress_thread.cpp:172-219 | undisturbed, the percentage last reported is the highest below 100 that any tick came to |
| `DownloadProgress.TickReported` | services/engine/src/progress_thread.cpp:172-219 | an undisturbed tick whose bytes come to p percent, above the last report and below 100, is reported as p |
| `DownloadProgress.TickUnreported` | services/engine/src/progress_thread.cpp:172-219 | one that comes to no more, or to 100, is not, and the transfer goes on |
| `DownloadProgress.TickSignalled` | services/engine/src/progress_thread.cpp:172-260 | a tick that finds a stop, no network or a cancellation refuses the transfer, with the one report the case calls for |
| `DownloadProgress.UnknownSize` | services/engine/src/progress_thread.cpp:210-213 | before the size is known a tick only remembers a stop or a cancellation |
| `DownloadProgress.AbnormalReported` | services/engine/src/progress_thread.cpp:242-260 | no network is a failure with reason 11, a cancellation one with reason 9, used up by the report |
| `DownloadProgress.TransferEnded` | services/engine/src/progress_thread.cpp:143-157 | an undisturbed transfer ends in success at 100, or in failure at 0 with reason 13 and the package gone |
| `DownloadProgress.EarlyEnded` | services/engine/src/progress_thread.cpp:111-130 | one that cannot begin ends in failure at 0, with what went wrong, and the thread waits |
| `DownloadProgress.StoppedResumes` | services/engine/src/progress_thread.cpp:93-101 | a new request undoes a stop |
| `DownloadProgress.DottedNames` | services/engine/src/progress_thread.cpp:116-117 | every name with "/." or "./" in it is refused |
| `DownloadProgress.DottedParts` | services/engine/src/progress_thread.cpp:116-117 | and no other |
| `DownloadProgress.LifeReports` | services/engine/src/progress_thread.cpp:74-157 | over a thread's whole life: early failures at 0, one rising series, at most one ending |
| `DownloadProgress.PercentRange` | services/engine/src/progress_thread.cpp:210-219 | the percentage is in 0..100, and 100 iff all has come |
| `DownloadProgress.PercentBracket` | services/engine/src/progress_thread.cpp:210-219 | the percentage is the whole number of hundredths that are there: p(L+T) <= 100(N+L) < (p+1)(L+T) |
| `DownloadProgress.PercentIs` | services/engine/src/progress_thread.cpp:210-219 | and the only number with that property |
| `DownloadProgress.PercentMonotone` | services/engine/src/progress_thread.cpp:210-219 | it never goes down as bytes come and the local file grows |
| `DownloadProgress.FractionOverstated` | services/engine/src/progress_thread.cpp:210-219 | for any length at the start and any length read since, the fraction is never below the part that is there, and equals it iff no byte of the transfer has reached the file or all have come |
| `DownloadProgress.DownloadThread.DownloadCallback` | services/engine/src/progress_thread.cpp:172-208 | the throttle's new state and its answer to the transfer |
| `DownloadProgress.DownloadThread.Abnormal` | services/engine/src/progress_thread.cpp:242-260 | without network or cancelled: one report, the cancellation consumed |
| `DownloadProgress.DownloadThread.OnTick` | services/engine/src/progress_thread.cpp:210-219 | one tick, with the file length read afresh |
| `DownloadProgress.DownloadThread.ProcessThreadExecute` | services/engine/src/progress_thread.cpp:111-157 | a whole execution, and whether the thread waits for another |
| `Json.RenderParses` | interfaces/inner_api/include/json_builder.h:26-99 | text written without escapes is read back by a parser of sections 2 to 7 of RFC 8259 iff nothing in it needed one |
| `Json.SpaceBefore` | interfaces/inner_api/include/json_builder.h:26-99 | the parser takes no notice of the white space of section 2 of RFC 8259 before a text |
| `Json.ValueFramed` | interfaces/inner_api/include/json_builder.h:26-99 | the text of a plain value is read back with exactly the rest left, through nested arrays and objects |
| `Json.RenderedWeight` | interfaces/inner_api/include/json_builder.h:43-48 | the least text that can mean a value is longer than the builder's iff some string needs an escape |
| `EventJson.EventParses` | services/engine/src/update_helper.cpp:71-157 | an event's text reads back as its mask-selected fields iff it has a template and no selected string needs an escape |
| `EventJson.EventRead` | interfaces/inner_api/include/update_helper.h:199-220 | for each of the twenty events, which of the seven fields a reader of its text finds, with what value |
| `EventJson.KnownEvents` | interfaces/inner_api/include/update_helper.h:199-220 | an event has a template iff it is 1 to 20 above the base |
| `EventJson.ElementsRead` | services/engine/src/update_helper.cpp:51-102 | the documents of error messages and components, key by key |
| `EventJson.UnknownEventInvalid` | services/engine/src/update_helper.cpp:125-132 | an event without a template gives no JSON text |
| `EventJson.BodyFields` | services/engine/src/update_helper.cpp:125-157 | each of the seven fields is found under its key iff the mask selects it and, for a list, it is not empty |
| `EventJson.BodyPlain` | services/engine/src/update_helper.cpp:125-157 | the body's document needs no escape iff its selected strings do not |
| `JsonBuilders.EventJsonText` | services/engine/src/update_helper.cpp:71-78 | the builder writes exactly the specified event text |
| `JsonBuilders.TaskBodyJson` | services/engine/src/update_helper.cpp:125-157 | the builder writes the body's document, or nothing without a template |
| `JsonBuilders.ComponentJson` | services/engine/src/update_helper.cpp:89-102 | the builder writes the component's document, its sizes as signed numbers |
| `JsonBuilders.ErrorMessageJsons` | services/engine/src/update_helper.cpp:115-123 | one text per error message, in order |
| `JsonBuilders.JsonBuilder.AppendEntry` | interfaces/inner_api/include/json_builder.h:43-99 | an open object stays a well-formed prefix with one member more |
| `JsonBuilders.JsonBuilder.AppendList` | interfaces/inner_api/include/json_builder.h:59-77 | a list becomes a member iff it has elements |
| `JsonBuilders.ListText` | interfaces/inner_api/include/json_builder.h:59-74 | the loop writes the array's text, commas between and none after |
| `Changelog.ChangelogRoundTrip` | services/engine/src/update_service_impl_firmware.cpp:162-167 | for every type and content, separators included, the stored file reads back as the type and the content without any "quota" |
| `Changelog.ReplaceStringAll` | services/core/ability/utils/include/string_utils.h:101-113 | the loop terminates with the leftmost non-overlapping replacement |
| `Changelog.ReplacedIsFree` | services/core/ability/utils/include/string_utils.h:101-113 | nothing of what was replaced is left or arises anew, if the replacement shares no character with it |
| `Changelog.ReplacedTwice` | services/core/ability/utils/include/string_utils.h:101-113 | replacing again changes nothing |
| `Changelog.StringRemove` | services/core/ability/utils/include/string_utils.h:115-131 | removes the first section, or nothing |
| `Changelog.OtherLanguageDropped` | services/engine/src/update_service_impl_firmware.cpp:282-290 | a stored change log is read without the first section of the other language |
| `Changelog.ChineseReader` | services/engine/src/update_service_impl_firmware.cpp:282-290 | a reader of "zh-cn" is shown the change log without its English section |
| `Changelog.OtherReader` | services/engine/src/update_service_impl_firmware.cpp:282-290 | any other reader without its Chinese one |
| `Changelog.NothingRemoved` | services/core/ability/utils/include/string_utils.h:115-131 | without the section's start, or an end after it, nothing is removed |
| `Changelog.NoSeparator` | services/engine/src/update_service_impl_firmware.cpp:162-167 | a file without a separator is all type and all content |
| `Changelog.AtoiOfInt` | services/firmware/utils/src/firmware_check_analyze_utils.cpp:149-149 | the stored type reads back for every number |
| `TimerSlots.RegistrationInEveryRun` | services/utils/src/dupdate_timer.c:96-125 | in every run slot i holds id i or none, slot 0 is never used, and a registration returns the lowest free id, or 0 iff all are taken or creation fails |
| `TimerSlots.LookupIsIndexing` | services/utils/src/dupdate_timer.c:54-69 | searching for an id is indexing with it |
| `TimerSlots.BalancedExactly` | services/utils/src/dupdate_timer.c:77-149 | from a list whose slots hold the system's timers, one each, a step keeps that iff it loses none: no refused deletion of a held timer, and no deletion of timer 0 by id 0 |
| `TimerSlots.NoTimerLost` | services/utils/src/dupdate_timer.c:77-149 | over every run the system can produce, that holds at all times iff no step loses a timer |
| `TimerSlots.ExitBalanced` | services/utils/src/dupdate_timer.c:77-94 | what the exit leaves alive is what was held and could not be deleted |
| `TimerSlots.FailedDeletionLeaks` | services/utils/src/dupdate_timer.c:134-140 | a failed deletion frees the slot and leaves the timer alive |
| `TimerSlots.LeakReached` | services/utils/src/dupdate_timer.c:96-149 | the run of one registration and one failed deletion that leaks a timer |
| `TimerSlots.ExitLeakReached` | services/utils/src/dupdate_timer.c:77-125 | the run of one registration and one exit whose deletion fails |
| `TimerSlots.DeregisterZero` | services/utils/src/dupdate_timer.c:127-149 | giving up id 0 is accepted; it breaks the balance iff the system's timer 0 is alive and deleted by it |
| `TimerSlots.DeregisterCode` | services/utils/src/dupdate_timer.c:127-149 | success iff the id's slot is in use, or it is id 0, and the system deletes the timer; an unknown id fails and changes nothing |
| `TimerSlots.TimerZeroLost` | services/utils/src/dupdate_timer.c:96-149 | the run in which giving up id 0 deletes the timer of id 1 |
| `TimerSlots.PeriodExact` | services/utils/src/dupdate_timer.c:159-164 | seconds and nanoseconds make up the timeout, nanoseconds below a billion; both 0 iff the timeout is |
| `TimerSlots.TimerList.GetTimerById` | services/utils/src/dupdate_timer.c:54-69 | the loop finds the id's own slot or none |
| `TimerSlots.TimerList.RegisterCycleTimerCB` | services/utils/src/dupdate_timer.c:96-125 | the new list and the returned id are those of the registration step |
| `TimerSlots.TimerList.DeregisterCycleTimerCB` | services/utils/src/dupdate_timer.c:127-149 | the new list and the code are those of the deregistration step |
| `TimerSlots.TimerList.ExitUpdateTimer` | services/utils/src/dupdate_timer.c:77-94 | deletes every held timer and frees every slot |

## Left out

- The JavaScript binding, logging, dumps, system events and the empty stub sources: no state of their own to reason about.
- curl, OpenSSL, SysInstaller, the updater and the reboot call: their answers are inputs of the steps; the tick contract assumed of libcurl is that a known total is not exceeded and that a refused tick is the last.
- The relational store and the preference files: tables are sequences of rows with where-equals updates, writes succeed, and preferences are the one entry that matters.
- SHA-256 is a parameter: nothing depends on what it computes.
- UTF-8 and UTF-16 conversion at the IPC boundary is taken as the identity, and a parcel is a sequence of typed cells rather than bytes.
- Permission and token checks are boolean inputs of a call, and a null callback object is refused as the proxy refuses it.
- Threads: each call or callback is one step; nothing is said about interleavings inside one.
- A download flow ends with its first final report, and an install flow's callbacks after its own end are not modelled, since the flow object is gone by then. The shortcut for a package that is already complete on disk is one of the reports.
- The updater's result file is taken as parsed, as a map from package path to result.
- The service's table seen by `ServiceKit` is a map from key to callback; its death recipients are the subject of `CallbackRegistry`, and of `ClientLife` together with the kits. Attaching the kit's own death recipient, and a call to a live service, are taken to succeed.
- The percentage is computed over exact reals, not doubles.
- `atoi` on a number that does not fit 32 bits is undefined in C; the model does not say what it gives.
- The automatic download switch, the polling cycle, battery limits and the battery and network listeners.
- Pause and resume of a download: the service only answers that they are not supported.
- OnlyVerifiedInstalls: covers the runs in which no version is replaced while a flow works on it, because it is false of others; `CheckedThroughout` is the exact condition for all runs.
- CheckedBytesInstalled: covers the runs with one download at a time, because it is false of others; `IntactThroughout` is the exact condition for all runs.
- ExitLeavesNoCheck: excludes runs in which an answer arrives while another check younger than five minutes runs, because it is false there; `NoneHiddenExactly` gives the exact condition.
- ReplaceStringAll: requires a text to replace that is not empty, because the loop never ends on an empty one.
