/** The composite records on the wire. Each comes back, in front of anything and leaving exactly that, if and
    only if every vector in it has at most 128 elements and every size_t in it fits 32 bits. */
module WireStructs {
  import opened Structs
  import opened Wire

  // ---------- BusinessError ----------

  function EncBusinessError(x: BusinessError): Cells {
    [Text(x.message)] + ([Int(x.errorNum)] + EncErrors(x.data))
  }

  function DecBusinessError(p: Cells): (BusinessError, Cells) {
    var (message, p1) := TakeText(p);
    var (errorNum, p2) := TakeInt32(p1);
    var (data, p3) := DecErrors(p2);
    (BusinessError(message, errorNum, data), p3)
  }

  lemma BusinessErrorRoundTrip(x: BusinessError, rest: Cells)
    requires Addressable(x.data)
    ensures DecBusinessError(EncBusinessError(x) + rest) == (x, rest) <==> FitVector(x.data)
  {
    var p2 := EncErrors(x.data) + rest;
    var p1 := [Int(x.errorNum)] + p2;
    assert EncBusinessError(x) + rest == [Text(x.message)] + p1;
    TakeString(x.message, p1);
    TakeNumber(x.errorNum, p2);
    Int32Kept(x.errorNum);
    ErrorsRoundTrip(x.data, rest);
  }

  // ---------- NewVersionInfo, CheckResult, CurrentVersionInfo, VersionDescriptionInfo ----------

  function EncNewVersionInfo(x: NewVersionInfo): Cells {
    [Text(x.versionDigest)] + EncComponents(x.versionComponents)
  }

  function DecNewVersionInfo(p: Cells): (NewVersionInfo, Cells) {
    var (digest, p1) := TakeText(p);
    var (components, p2) := DecComponents(p1);
    (NewVersionInfo(digest, components), p2)
  }

  lemma NewVersionInfoRoundTrip(x: NewVersionInfo, rest: Cells)
    requires Addressable(x.versionComponents)
    ensures DecNewVersionInfo(EncNewVersionInfo(x) + rest) == (x, rest) <==> FitComponents(x.versionComponents)
  {
    var p1 := EncComponents(x.versionComponents) + rest;
    assert EncNewVersionInfo(x) + rest == [Text(x.versionDigest)] + p1;
    TakeString(x.versionDigest, p1);
    ComponentsRoundTrip(x.versionComponents, rest);
  }

  lemma TakeFlag(b: bool, rest: Cells)
    ensures TakeBool([Bool(b)] + rest) == (b, rest)
  {
  }

  function EncCheckResult(x: CheckResult): Cells {
    [Bool(x.isExistNewVersion)] + EncNewVersionInfo(x.newVersionInfo)
  }

  function DecCheckResult(p: Cells): (CheckResult, Cells) {
    var (exist, p1) := TakeBool(p);
    var (info, p2) := DecNewVersionInfo(p1);
    (CheckResult(exist, info), p2)
  }

  lemma CheckResultRoundTrip(x: CheckResult, rest: Cells)
    requires Addressable(x.newVersionInfo.versionComponents)
    ensures DecCheckResult(EncCheckResult(x) + rest) == (x, rest) <==>
            FitComponents(x.newVersionInfo.versionComponents)
  {
    var p1 := EncNewVersionInfo(x.newVersionInfo) + rest;
    assert EncCheckResult(x) + rest == [Bool(x.isExistNewVersion)] + p1;
    TakeFlag(x.isExistNewVersion, p1);
    NewVersionInfoRoundTrip(x.newVersionInfo, rest);
  }

  function EncCurrentVersionInfo(x: CurrentVersionInfo): Cells {
    [Text(x.osVersion)] + ([Text(x.deviceName)] + EncComponents(x.versionComponents))
  }

  function DecCurrentVersionInfo(p: Cells): (CurrentVersionInfo, Cells) {
    var (os, p1) := TakeText(p);
    var (device, p2) := TakeText(p1);
    var (components, p3) := DecComponents(p2);
    (CurrentVersionInfo(os, device, components), p3)
  }

  lemma CurrentVersionInfoRoundTrip(x: CurrentVersionInfo, rest: Cells)
    requires Addressable(x.versionComponents)
    ensures DecCurrentVersionInfo(EncCurrentVersionInfo(x) + rest) == (x, rest) <==>
            FitComponents(x.versionComponents)
  {
    var p2 := EncComponents(x.versionComponents) + rest;
    var p1 := [Text(x.deviceName)] + p2;
    assert EncCurrentVersionInfo(x) + rest == [Text(x.osVersion)] + p1;
    TakeString(x.osVersion, p1);
    TakeString(x.deviceName, p2);
    ComponentsRoundTrip(x.versionComponents, rest);
  }

  // ---------- TaskBody, TaskInfo, EventInfo: two vectors in a row ----------

  function EncTaskHead(x: TaskBody): Cells {
    [Text(x.versionDigest), Int(x.status), Int(x.subStatus), Int(x.progress), Int(x.installMode)]
  }

  function EncTaskBody(x: TaskBody): Cells {
    EncTaskHead(x) + (EncErrors(x.errorMessages) + EncComponents(x.versionComponents))
  }

  function DecTaskBody(p: Cells): (TaskBody, Cells) {
    var (digest, p1) := TakeText(p);
    var (status, p2) := TakeInt32(p1);
    var (subStatus, p3) := TakeInt32(p2);
    var (progress, p4) := TakeInt32(p3);
    var (installMode, p5) := TakeInt32(p4);
    var (errors, p6) := DecErrors(p5);
    var (components, p7) := DecComponents(p6);
    (TaskBody(digest, status, subStatus, progress, installMode, errors, components), p7)
  }

  predicate AddressableTask(x: TaskBody) {
    Addressable(x.errorMessages) && Addressable(x.versionComponents)
  }

  predicate FitTaskBody(x: TaskBody) {
    FitVector(x.errorMessages) && FitComponents(x.versionComponents)
  }

  /** The five scalars come off first and leave the two vectors to be read. */
  lemma TaskHeadRead(x: TaskBody, tail: Cells)
    ensures var (errors, p6) := DecErrors(tail);
            var (components, p7) := DecComponents(p6);
            DecTaskBody(EncTaskHead(x) + tail) ==
              (x.(errorMessages := errors, versionComponents := components), p7)
  {
    var p4 := [Int(x.installMode)] + tail;
    var p3 := [Int(x.progress)] + p4;
    var p2 := [Int(x.subStatus)] + p3;
    var p1 := [Int(x.status)] + p2;
    assert EncTaskHead(x) + tail == [Text(x.versionDigest)] + p1;
    TakeString(x.versionDigest, p1);
    TakeNumber(x.status, p2);
    TakeNumber(x.subStatus, p3);
    TakeNumber(x.progress, p4);
    TakeNumber(x.installMode, tail);
    Int32Kept(x.status);
    Int32Kept(x.subStatus);
    Int32Kept(x.progress);
    Int32Kept(x.installMode);
  }

  lemma TaskBodyRoundTrip(x: TaskBody, rest: Cells)
    requires AddressableTask(x)
    ensures DecTaskBody(EncTaskBody(x) + rest) == (x, rest) <==> FitTaskBody(x)
  {
    var components := EncComponents(x.versionComponents) + rest;
    var tail := EncErrors(x.errorMessages) + components;
    assert EncTaskBody(x) + rest == EncTaskHead(x) + tail;
    TaskHeadRead(x, tail);
    ErrorsRoundTrip(x.errorMessages, components);
    ComponentsRoundTrip(x.versionComponents, rest);
  }

  function EncTaskInfo(x: TaskInfo): Cells {
    [Bool(x.existTask)] + EncTaskBody(x.taskBody)
  }

  function DecTaskInfo(p: Cells): (TaskInfo, Cells) {
    var (exist, p1) := TakeBool(p);
    var (body, p2) := DecTaskBody(p1);
    (TaskInfo(exist, body), p2)
  }

  lemma TaskInfoRoundTrip(x: TaskInfo, rest: Cells)
    requires AddressableTask(x.taskBody)
    ensures DecTaskInfo(EncTaskInfo(x) + rest) == (x, rest) <==> FitTaskBody(x.taskBody)
  {
    var p1 := EncTaskBody(x.taskBody) + rest;
    assert EncTaskInfo(x) + rest == [Bool(x.existTask)] + p1;
    TakeFlag(x.existTask, p1);
    TaskBodyRoundTrip(x.taskBody, rest);
  }

  function EncEventInfo(x: EventInfo): Cells {
    [Int(x.eventId)] + EncTaskBody(x.taskBody)
  }

  function DecEventInfo(p: Cells): (EventInfo, Cells) {
    var (id, p1) := TakeInt32(p);
    var (body, p2) := DecTaskBody(p1);
    (EventInfo(id, body), p2)
  }

  lemma EventInfoRoundTrip(x: EventInfo, rest: Cells)
    requires AddressableTask(x.taskBody)
    ensures DecEventInfo(EncEventInfo(x) + rest) == (x, rest) <==> FitTaskBody(x.taskBody)
  {
    var p1 := EncTaskBody(x.taskBody) + rest;
    assert EncEventInfo(x) + rest == [Int(x.eventId)] + p1;
    TakeNumber(x.eventId, p1);
    Int32Kept(x.eventId);
    TaskBodyRoundTrip(x.taskBody, rest);
  }

  // ---------- UpgradePolicy: a fixed array of two, written with its length ----------

  const ARRAY_SIZE := 2

  function EncPeriod(x: UpgradePeriod): Cells {
    [Int(x.start), Int(x.end)]
  }

  function DecPeriod(p: Cells): (UpgradePeriod, Cells) {
    var (start, p1) := TakeWord(p);
    var (end, p2) := TakeWord(p1);
    (UpgradePeriod(start, end), p2)
  }

  function EncPolicy(x: UpgradePolicy): Cells {
    [Bool(x.downloadStrategy)] + ([Bool(x.autoUpgradeStrategy)] + ([Int(ARRAY_SIZE)] +
    (EncPeriod(x.period0) + EncPeriod(x.period1))))
  }

  const NO_PERIOD := UpgradePeriod(0, 0)

  /** The length is compared as a size_t, so a negative one is over the limit too; slots without data stay 0. */
  function DecPeriods(count: nat, p: Cells): (UpgradePeriod, UpgradePeriod, Cells) {
    if count > MAX_VECTOR_SIZE || count == 0 then (NO_PERIOD, NO_PERIOD, p)
    else
      var (first, p1) := DecPeriod(p);
      if count == 1 then (first, NO_PERIOD, p1)
      else
        var (second, p2) := DecPeriod(p1);
        (first, second, p2)
  }

  function DecPolicy(p: Cells): (UpgradePolicy, Cells) {
    var (download, p1) := TakeBool(p);
    var (auto, p2) := TakeBool(p1);
    var (size, p3) := TakeInt32(p2);
    var (first, second, p4) := DecPeriods(LoopCount(size), p3);
    (UpgradePolicy(download, auto, first, second), p4)
  }

  lemma PeriodFramed(x: UpgradePeriod, rest: Cells)
    ensures DecPeriod(EncPeriod(x) + rest) == (x, rest)
  {
    assert EncPeriod(x) + rest == [Int(x.start)] + ([Int(x.end)] + rest);
  }

  lemma PolicyRoundTrip(x: UpgradePolicy, rest: Cells)
    ensures DecPolicy(EncPolicy(x) + rest) == (x, rest)
  {
    var p4 := EncPeriod(x.period1) + rest;
    var p3 := EncPeriod(x.period0) + p4;
    var p2 := [Int(ARRAY_SIZE)] + p3;
    var p1 := [Bool(x.autoUpgradeStrategy)] + p2;
    assert EncPolicy(x) + rest == [Bool(x.downloadStrategy)] + p1;
    TakeFlag(x.downloadStrategy, p1);
    TakeFlag(x.autoUpgradeStrategy, p2);
    TakeNumber(ARRAY_SIZE, p3);
    Int32Kept(ARRAY_SIZE);
    PeriodFramed(x.period0, p4);
    PeriodFramed(x.period1, rest);
  }

  // ---------- options ----------

  function EncDescriptionOptions(x: DescriptionOptions): Cells {
    [Int(x.format), Text(x.language)]
  }

  function DecDescriptionOptions(p: Cells): (DescriptionOptions, Cells) {
    var (format, p1) := TakeInt32(p);
    var (language, p2) := TakeText(p1);
    (DescriptionOptions(format, language), p2)
  }

  lemma DescriptionOptionsFramed(x: DescriptionOptions, rest: Cells)
    ensures DecDescriptionOptions(EncDescriptionOptions(x) + rest) == (x, rest)
  {
    assert EncDescriptionOptions(x) + rest == [Int(x.format)] + ([Text(x.language)] + rest);
  }

  function EncDownloadOptions(x: DownloadOptions): Cells {
    [Int(x.allowNetwork), Int(x.order)]
  }

  function DecDownloadOptions(p: Cells): (DownloadOptions, Cells) {
    var (network, p1) := TakeInt32(p);
    var (order, p2) := TakeInt32(p1);
    (DownloadOptions(network, order), p2)
  }

  lemma DownloadOptionsFramed(x: DownloadOptions, rest: Cells)
    ensures DecDownloadOptions(EncDownloadOptions(x) + rest) == (x, rest)
  {
    assert EncDownloadOptions(x) + rest == [Int(x.allowNetwork)] + ([Int(x.order)] + rest);
  }
}
