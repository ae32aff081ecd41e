/** Proxy, parcel and stub of the update service's 20 interface methods, and what a remote call returns
    compared with the same call made directly on the service. */
module UpdateIpc {
  import opened Structs
  import opened Wire
  import opened WireStructs

  const CALL_RESULT_OFFSET := 2000
  const INT_CALL_SUCCESS: int32 := 0
  const INT_CALL_IPC_ERR: int32 := 104
  const INT_APP_NOT_GRANTED: int32 := 201
  const INT_NOT_SYSTEM_APP: int32 := 202
  const INT_PARAM_ERR: int32 := 401

  /** The calls about one UpgradeInfo; a callback is a remote object, or null. */
  datatype Call =
    | CheckNewVersion
    | Download(digest: string, options: DownloadOptions)
    | PauseDownload(digest: string, isAllowAutoResume: bool)
    | ResumeDownload(digest: string, allowNetwork: int32)
    | Upgrade(digest: string, order: int32)
    | ClearError(digest: string, status: int32)
    | TerminateUpgrade
    | SetUpgradePolicy(policy: UpgradePolicy)
    | GetUpgradePolicy
    | GetNewVersionInfo
    | GetNewVersionDescription(digest: string, description: DescriptionOptions)
    | GetCurrentVersionInfo
    | GetCurrentVersionDescription(description: DescriptionOptions)
    | GetTaskInfo
    | RegisterUpdateCallback(callback: Option<nat>)
    | UnregisterUpdateCallback
    | Cancel(service: int32)
    | ApplyNewVersion(miscFile: string, packageName: string)

  datatype Request =
    | About(info: UpgradeInfo, call: Call)
    | FactoryReset
    | VerifyUpgradePackage(packagePath: string, keyPath: string)

  /** The out-value a method fills besides its BusinessError. */
  datatype Output =
    | Nothing
    | NewVersion(newVersion: NewVersionInfo)
    | Descriptions(descriptions: seq<ComponentDescription>)
    | CurrentVersion(currentVersion: CurrentVersionInfo)
    | Task(task: TaskInfo)
    | Policy(policy: UpgradePolicy)

  datatype Outs = Outs(error: BusinessError, output: Output)

  datatype Outcome = Outcome(code: int32, outs: Outs)

  /** The service, as a function of the request it receives. */
  type Service = Request -> Outcome

  // ---------- requests on the wire ----------

  function CallCode(call: Call): nat {
    match call
    case CheckNewVersion => 1
    case Download(_, _) => 2
    case PauseDownload(_, _) => 3
    case ResumeDownload(_, _) => 4
    case Upgrade(_, _) => 5
    case ClearError(_, _) => 6
    case TerminateUpgrade => 7
    case SetUpgradePolicy(_) => 8
    case GetUpgradePolicy => 9
    case GetNewVersionInfo => 10
    case GetNewVersionDescription(_, _) => 11
    case GetCurrentVersionInfo => 12
    case GetCurrentVersionDescription(_) => 13
    case GetTaskInfo => 14
    case RegisterUpdateCallback(_) => 15
    case UnregisterUpdateCallback => 16
    case Cancel(_) => 17
    case ApplyNewVersion(_, _) => 19
  }

  function RequestCode(request: Request): nat {
    match request
    case About(_, call) => CallCode(call)
    case FactoryReset => 18
    case VerifyUpgradePackage(_, _) => 20
  }

  const LAST_CODE := 20

  function EncCall(call: Call): Cells {
    match call
    case Download(digest, options) => [Text(digest)] + EncDownloadOptions(options)
    case PauseDownload(digest, resume) => [Text(digest)] + [Bool(resume)]
    case ResumeDownload(digest, network) => [Text(digest)] + [Int(network)]
    case Upgrade(digest, order) => [Text(digest)] + [Int(order)]
    case ClearError(digest, status) => [Text(digest)] + [Int(status)]
    case SetUpgradePolicy(policy) => EncPolicy(policy)
    case GetNewVersionDescription(digest, description) => [Text(digest)] + EncDescriptionOptions(description)
    case GetCurrentVersionDescription(description) => EncDescriptionOptions(description)
    case RegisterUpdateCallback(callback) => if callback.Some? then [Object(callback.value)] else []
    case Cancel(service) => [Int(service)]
    case ApplyNewVersion(misc, name) => [Text(misc)] + [Text(name)]
    case _ => []
  }

  function EncRequest(request: Request): Cells {
    match request
    case About(info, call) => EncUpgradeInfo(info) + EncCall(call)
    case FactoryReset => []
    case VerifyUpgradePackage(path, key) => [Text(path)] + [Text(key)]
  }

  /** What the stub's handler for `code` reads after the UpgradeInfo. */
  function DecCall(code: nat, p: Cells): Call {
    var (text, p1) := TakeText(p);
    match code
    case 1 => CheckNewVersion
    case 2 => Download(text, DecDownloadOptions(p1).0)
    case 3 => PauseDownload(text, TakeBool(p1).0)
    case 4 => ResumeDownload(text, TakeInt32(p1).0)
    case 5 => Upgrade(text, TakeInt32(p1).0)
    case 6 => ClearError(text, TakeInt32(p1).0)
    case 7 => TerminateUpgrade
    case 8 => SetUpgradePolicy(DecPolicy(p).0)
    case 9 => GetUpgradePolicy
    case 10 => GetNewVersionInfo
    case 11 => GetNewVersionDescription(text, DecDescriptionOptions(p1).0)
    case 12 => GetCurrentVersionInfo
    case 13 => GetCurrentVersionDescription(DecDescriptionOptions(p).0)
    case 14 => GetTaskInfo
    case 15 => RegisterUpdateCallback(TakeObject(p).0)
    case 16 => UnregisterUpdateCallback
    case 17 => Cancel(TakeInt32(p).0)
    case _ => ApplyNewVersion(text, TakeText(p1).0)
  }

  function DecRequest(code: nat, p: Cells): Request {
    if code == 18 then FactoryReset
    else if code == 20 then
      var (path, p1) := TakeText(p);
      VerifyUpgradePackage(path, TakeText(p1).0)
    else
      var (info, q) := DecUpgradeInfo(p);
      About(info, DecCall(code, q))
  }

  lemma Alone(p: Cells)
    ensures p + [] == p
  {
  }

  lemma CallRoundTrip(call: Call)
    ensures DecCall(CallCode(call), EncCall(call)) == call
  {
    match call
    case SetUpgradePolicy(policy) => PolicyKept(policy);
    case GetCurrentVersionDescription(description) => DescriptionKept(description);
    case Cancel(service) => CancelKept(service);
    case _ => LeadingTextRoundTrip(call);
  }

  /** The calls whose first argument is a text, and those without arguments. */
  lemma LeadingTextRoundTrip(call: Call)
    requires !call.SetUpgradePolicy? && !call.GetCurrentVersionDescription? && !call.Cancel?
    ensures DecCall(CallCode(call), EncCall(call)) == call
  {
    match call
    case Download(digest, options) => DownloadKept(digest, options);
    case GetNewVersionDescription(digest, description) => DigestAndDescription(digest, description);
    case PauseDownload(digest, resume) => TakeString(digest, [Bool(resume)]);
    case ApplyNewVersion(misc, name) => TakeString(misc, [Text(name)]);
    case _ => PlainCallRoundTrip(call);
  }

  lemma PlainCallRoundTrip(call: Call)
    requires !call.SetUpgradePolicy? && !call.GetCurrentVersionDescription? && !call.Cancel?
    requires !call.Download? && !call.GetNewVersionDescription? && !call.PauseDownload? && !call.ApplyNewVersion?
    ensures DecCall(CallCode(call), EncCall(call)) == call
  {
    match call
    case ResumeDownload(digest, network) => DigestAndNumber(digest, network);
    case Upgrade(digest, order) => DigestAndNumber(digest, order);
    case ClearError(digest, status) => DigestAndNumber(digest, status);
    case _ =>
  }

  lemma DownloadKept(digest: string, options: DownloadOptions)
    ensures var (text, p1) := TakeText([Text(digest)] + EncDownloadOptions(options));
            text == digest && DecDownloadOptions(p1).0 == options
  {
    TakeString(digest, EncDownloadOptions(options));
    Alone(EncDownloadOptions(options));
    DownloadOptionsFramed(options, []);
  }

  lemma PolicyKept(policy: UpgradePolicy)
    ensures DecPolicy(EncPolicy(policy)).0 == policy
  {
    Alone(EncPolicy(policy));
    PolicyRoundTrip(policy, []);
  }

  lemma DescriptionKept(description: DescriptionOptions)
    ensures DecDescriptionOptions(EncDescriptionOptions(description)).0 == description
  {
    Alone(EncDescriptionOptions(description));
    DescriptionOptionsFramed(description, []);
  }

  lemma DigestAndDescription(digest: string, description: DescriptionOptions)
    ensures var (text, p1) := TakeText([Text(digest)] + EncDescriptionOptions(description));
            text == digest && DecDescriptionOptions(p1).0 == description
  {
    TakeString(digest, EncDescriptionOptions(description));
    DescriptionKept(description);
  }

  lemma CancelKept(service: int32)
    ensures TakeInt32([Int(service)]).0 == service
  {
    Alone([Int(service)]);
    TakeNumber(service, []);
    Int32Kept(service);
  }

  lemma DigestAndNumber(digest: string, x: int32)
    ensures var (text, p1) := TakeText([Text(digest)] + [Int(x)]);
            text == digest && TakeInt32(p1).0 == x
  {
    TakeString(digest, [Int(x)]);
    Alone([Int(x)]);
    TakeNumber(x, []);
    Int32Kept(x);
  }

  /** The stub reads back exactly the request the proxy wrote: requests carry no vector, so no limit applies. */
  lemma RequestRoundTrip(request: Request)
    ensures DecRequest(RequestCode(request), EncRequest(request)) == request
  {
    match request
    case About(info, call) =>
      UpgradeInfoFramed(info, EncCall(call));
      CallRoundTrip(call);
    case FactoryReset =>
    case VerifyUpgradePackage(path, key) =>
      TakeString(path, [Text(key)]);
  }

  // ---------- replies on the wire ----------

  /** Three methods return a code and nothing else. */
  predicate HasReply(request: Request) {
    !(request.About? && (request.call.CheckNewVersion? || request.call.RegisterUpdateCallback? ||
                         request.call.UnregisterUpdateCallback?))
  }

  datatype Kind = KNothing | KNewVersion | KDescriptions | KCurrentVersion | KTask | KPolicy

  function OutputKind(request: Request): Kind {
    if !request.About? then KNothing
    else
      match request.call
      case GetNewVersionInfo => KNewVersion
      case GetNewVersionDescription(_, _) => KDescriptions
      case GetCurrentVersionInfo => KCurrentVersion
      case GetCurrentVersionDescription(_) => KDescriptions
      case GetTaskInfo => KTask
      case GetUpgradePolicy => KPolicy
      case _ => KNothing
  }

  function KindOf(output: Output): Kind {
    match output
    case Nothing => KNothing
    case NewVersion(_) => KNewVersion
    case Descriptions(_) => KDescriptions
    case CurrentVersion(_) => KCurrentVersion
    case Task(_) => KTask
    case Policy(_) => KPolicy
  }

  function EncOutput(output: Output): Cells {
    match output
    case Nothing => []
    case NewVersion(x) => EncNewVersionInfo(x)
    case Descriptions(xs) => EncDescriptions(xs)
    case CurrentVersion(x) => EncCurrentVersionInfo(x)
    case Task(x) => EncTaskInfo(x)
    case Policy(x) => EncPolicy(x)
  }

  function DecOutput(kind: Kind, p: Cells): Output {
    match kind
    case KNothing => Nothing
    case KNewVersion => NewVersion(DecNewVersionInfo(p).0)
    case KDescriptions => Descriptions(DecDescriptions(p).0)
    case KCurrentVersion => CurrentVersion(DecCurrentVersionInfo(p).0)
    case KTask => Task(DecTaskInfo(p).0)
    case KPolicy => Policy(DecPolicy(p).0)
  }

  predicate AddressableOutput(output: Output) {
    match output
    case NewVersion(x) => Addressable(x.versionComponents)
    case Descriptions(xs) => Addressable(xs)
    case CurrentVersion(x) => Addressable(x.versionComponents)
    case Task(x) => AddressableTask(x.taskBody)
    case _ => true
  }

  predicate FitOutput(output: Output) {
    match output
    case NewVersion(x) => FitComponents(x.versionComponents)
    case Descriptions(xs) => FitVector(xs)
    case CurrentVersion(x) => FitComponents(x.versionComponents)
    case Task(x) => FitTaskBody(x.taskBody)
    case _ => true
  }

  /** The value half of the record round trips, for records whose reader may stop early. */
  lemma OutputRoundTrip(output: Output)
    requires AddressableOutput(output)
    ensures DecOutput(KindOf(output), EncOutput(output)) == output <==> FitOutput(output)
  {
    Alone(EncOutput(output));
    match output
    case Nothing =>
    case NewVersion(x) => NewVersionValue(x);
    case Descriptions(xs) => DescriptionsRoundTrip(xs, []);
    case CurrentVersion(x) => CurrentVersionValue(x);
    case Task(x) => TaskValue(x);
    case Policy(x) => PolicyRoundTrip(x, []);
  }

  lemma NewVersionValue(x: NewVersionInfo)
    requires Addressable(x.versionComponents)
    ensures DecNewVersionInfo(EncNewVersionInfo(x) + []).0 == x <==> FitComponents(x.versionComponents)
  {
    NewVersionInfoRoundTrip(x, []);
    var p1 := EncComponents(x.versionComponents);
    assert EncNewVersionInfo(x) + [] == [Text(x.versionDigest)] + p1;
    TakeString(x.versionDigest, p1);
    Alone(p1);
    ComponentsRoundTrip(x.versionComponents, []);
  }

  lemma CurrentVersionValue(x: CurrentVersionInfo)
    requires Addressable(x.versionComponents)
    ensures DecCurrentVersionInfo(EncCurrentVersionInfo(x) + []).0 == x <==> FitComponents(x.versionComponents)
  {
    CurrentVersionInfoRoundTrip(x, []);
    var p2 := EncComponents(x.versionComponents);
    var p1 := [Text(x.deviceName)] + p2;
    assert EncCurrentVersionInfo(x) + [] == [Text(x.osVersion)] + p1;
    TakeString(x.osVersion, p1);
    TakeString(x.deviceName, p2);
    Alone(p2);
    ComponentsRoundTrip(x.versionComponents, []);
  }

  lemma TaskValue(x: TaskInfo)
    requires AddressableTask(x.taskBody)
    ensures DecTaskInfo(EncTaskInfo(x) + []).0 == x <==> FitTaskBody(x.taskBody)
  {
    TaskInfoRoundTrip(x, []);
    var components := EncComponents(x.taskBody.versionComponents);
    var tail := EncErrors(x.taskBody.errorMessages) + components;
    var body := EncTaskHead(x.taskBody) + tail;
    assert EncTaskInfo(x) + [] == [Bool(x.existTask)] + body;
    TakeFlag(x.existTask, body);
    TaskHeadRead(x.taskBody, tail);
    ErrorsRoundTrip(x.taskBody.errorMessages, components);
    Alone(components);
    ComponentsRoundTrip(x.taskBody.versionComponents, []);
  }

  function EncOuts(outs: Outs): Cells {
    EncBusinessError(outs.error) + EncOutput(outs.output)
  }

  function DecOuts(kind: Kind, p: Cells): Outs {
    var (error, q) := DecBusinessError(p);
    Outs(error, DecOutput(kind, q))
  }

  predicate AddressableOuts(outs: Outs) {
    Addressable(outs.error.data) && AddressableOutput(outs.output)
  }

  predicate FitOuts(outs: Outs) {
    FitVector(outs.error.data) && FitOutput(outs.output)
  }

  /** The error comes first, so an error list over the limit also spoils what is read after it. */
  lemma OutsRoundTrip(outs: Outs)
    requires AddressableOuts(outs)
    ensures DecOuts(KindOf(outs.output), EncOuts(outs)) == outs <==> FitOuts(outs)
  {
    var rest := EncOutput(outs.output);
    BusinessErrorRoundTrip(outs.error, rest);
    BusinessErrorValue(outs.error, rest);
    OutputRoundTrip(outs.output);
  }

  lemma BusinessErrorValue(x: BusinessError, rest: Cells)
    requires Addressable(x.data)
    ensures DecBusinessError(EncBusinessError(x) + rest).0 == x ==> FitVector(x.data)
  {
    var p2 := EncErrors(x.data) + rest;
    var p1 := [Int(x.errorNum)] + p2;
    assert EncBusinessError(x) + rest == [Text(x.message)] + p1;
    TakeString(x.message, p1);
    TakeNumber(x.errorNum, p2);
    ErrorsRoundTrip(x.data, rest);
  }

  // ---------- result codes ----------

  function CallResultToIpcResult(code: int32): int32 {
    ToInt32(code + CALL_RESULT_OFFSET)
  }

  function IpcResultToCallResult(result: int32): int32 {
    if result == 0 then INT_CALL_SUCCESS
    else if result >= CALL_RESULT_OFFSET then result - CALL_RESULT_OFFSET
    else INT_CALL_IPC_ERR
  }

  /** Shifting up and back keeps a code exactly when it is not negative and the shift does not overflow. */
  lemma CodeKept(code: int32)
    ensures IpcResultToCallResult(CallResultToIpcResult(code)) == code <==>
            0 <= code < TWO_31 - 2000
  {
  }

  /** One negative code reaches the caller as success. */
  lemma CodeMistaken(code: int32)
    ensures IpcResultToCallResult(CallResultToIpcResult(code)) == INT_CALL_SUCCESS <==>
            code == 0 || code == -2000
  {
  }

  // ---------- the whole call ----------

  /** What the platform decides: whether the proxy has a remote, whether the interface token is written and
      accepted, what the transport returns (0: delivered), and what the stub finds out about the caller. */
  datatype Platform = Platform(remotePresent: bool, tokenWritten: bool, tokenAccepted: bool, transport: int32,
                               unknownCode: int32, callerValid: bool, permissionGranted: bool)

  function Handle(service: Service, code: nat, data: Cells): (int32, Cells) {
    var request := DecRequest(code, data);
    if request.About? && request.call == RegisterUpdateCallback(None) then (INT_CALL_IPC_ERR, [])
    else
      var outcome := service(request);
      if outcome.code != INT_CALL_SUCCESS || !HasReply(request) then (outcome.code, [])
      else (INT_CALL_SUCCESS, EncOuts(outcome.outs))
  }

  function OnRemoteRequest(platform: Platform, service: Service, code: nat, data: Cells): (int32, Cells) {
    if !platform.tokenAccepted then (CallResultToIpcResult(INT_CALL_IPC_ERR), [])
    else if !(1 <= code <= LAST_CODE) then (platform.unknownCode, [])
    else if !platform.callerValid then (CallResultToIpcResult(INT_NOT_SYSTEM_APP), [])
    else if !platform.permissionGranted then (CallResultToIpcResult(INT_APP_NOT_GRANTED), [])
    else
      var (ret, reply) := Handle(service, code, data);
      (CallResultToIpcResult(ret), reply)
  }

  function RemoteCall(platform: Platform, service: Service, request: Request, outs: Outs): Outcome {
    if request.About? && request.call == RegisterUpdateCallback(None) then Outcome(INT_PARAM_ERR, outs)
    else if !platform.remotePresent || !platform.tokenWritten then Outcome(INT_CALL_IPC_ERR, outs)
    else
      var (ret, reply) :=
        if platform.transport != 0 then (platform.transport, [])
        else OnRemoteRequest(platform, service, RequestCode(request), EncRequest(request));
      var code := IpcResultToCallResult(ret);
      if code != INT_CALL_SUCCESS || !HasReply(request) then Outcome(code, outs)
      else Outcome(code, DecOuts(OutputKind(request), reply))
  }

  predicate Connected(platform: Platform) {
    platform.remotePresent && platform.tokenWritten && platform.tokenAccepted && platform.transport == 0
  }

  predicate Granted(platform: Platform) {
    Connected(platform) && platform.callerValid && platform.permissionGranted
  }

  /** What a direct call leaves in the caller's out-values, had it been made on fresh ones: the service's values
      on success, the caller's own otherwise. */
  function LocalOuts(request: Request, outcome: Outcome, outs: Outs): Outs {
    if outcome.code == INT_CALL_SUCCESS && HasReply(request) then outcome.outs else outs
  }

  predicate NullCallback(request: Request) {
    request.About? && request.call == RegisterUpdateCallback(None)
  }

  /** A remote call by a granted caller is the direct call: the service is asked the very same request, the
      code is kept if and only if it survives the shift, and the out-values are those of the direct call if and
      only if they fit the wire. */
  lemma RemoteEqualsLocal(platform: Platform, service: Service, request: Request, outs: Outs)
    requires Granted(platform) && !NullCallback(request)
    requires KindOf(service(request).outs.output) == OutputKind(request)
    requires AddressableOuts(service(request).outs)
    ensures var local := service(request);
            var remote := RemoteCall(platform, service, request, outs);
            && (remote.code == local.code <==> 0 <= local.code < TWO_31 - CALL_RESULT_OFFSET)
            && (remote.code != INT_CALL_SUCCESS ==> remote.outs == outs)
            && (local.code == INT_CALL_SUCCESS ==>
                  (remote.outs == LocalOuts(request, local, outs) <==>
                   (HasReply(request) ==> FitOuts(local.outs))))
  {
    var local := service(request);
    RequestRoundTrip(request);
    CodeKept(local.code);
    OutsRoundTrip(local.outs);
    HandledRequest(platform, service, request);
  }

  /** At -2000 the service has failed and sends no values, but the caller is told of success and given what an
      empty reply reads as: no error, and the empty result of the call's kind. That is the only failure taken
      for success. */
  lemma MistakenCall(platform: Platform, service: Service, request: Request, outs: Outs)
    requires Granted(platform) && !NullCallback(request)
    ensures var local := service(request);
            var remote := RemoteCall(platform, service, request, outs);
            && (remote.code == INT_CALL_SUCCESS != local.code <==> local.code == -CALL_RESULT_OFFSET)
            && (local.code == -CALL_RESULT_OFFSET && HasReply(request) ==>
                  remote.outs == Outs(BusinessError("", 0, []), DecOutput(OutputKind(request), [])))
            && (local.code == -CALL_RESULT_OFFSET && !HasReply(request) ==> remote.outs == outs)
  {
    CodeMistaken(service(request).code);
    HandledRequest(platform, service, request);
    EmptyReply(OutputKind(request));
  }

  lemma EmptyReply(kind: Kind)
    ensures DecOuts(kind, []) == Outs(BusinessError("", 0, []), DecOutput(kind, []))
  {
  }

  /** The values a direct call gives are the values a remote call gives, method by method: three methods give a code
      and nothing else, six queries give a result of their own, the others an error record alone. */
  lemma SuccessDelivered(platform: Platform, service: Service, request: Request, outs: Outs)
    requires Granted(platform) && !NullCallback(request)
    requires service(request).code == 0 && FitOuts(service(request).outs)
    requires var output := service(request).outs.output;
             match request
             case About(_, GetTaskInfo) => output.Task?
             case About(_, GetNewVersionInfo) => output.NewVersion?
             case About(_, GetNewVersionDescription(_, _)) => output.Descriptions?
             case About(_, GetCurrentVersionInfo) => output.CurrentVersion?
             case About(_, GetCurrentVersionDescription(_)) => output.Descriptions?
             case About(_, GetUpgradePolicy) => output.Policy?
             case _ => output.Nothing?
    ensures RemoteCall(platform, service, request, outs) ==
            Outcome(0, match request
                       case About(_, CheckNewVersion) => outs
                       case About(_, RegisterUpdateCallback(_)) => outs
                       case About(_, UnregisterUpdateCallback) => outs
                       case _ => service(request).outs)
  {
    FitAddressable(service(request).outs);
    RemoteEqualsLocal(platform, service, request, outs);
  }

  lemma FitAddressable(outs: Outs)
    requires FitOuts(outs)
    ensures AddressableOuts(outs)
  {
  }

  /** A call that cannot be made, or whose token the service does not take, ends with an IPC error, and a null
      callback is refused as a parameter, all without touching the out-values. */
  lemma UnreachableCall(platform: Platform, service: Service, request: Request, outs: Outs)
    ensures NullCallback(request) ==> RemoteCall(platform, service, request, outs) == Outcome(401, outs)
    ensures !NullCallback(request) &&
            (!platform.remotePresent || !platform.tokenWritten ||
             (platform.transport == 0 && !platform.tokenAccepted)) ==>
              RemoteCall(platform, service, request, outs) == Outcome(104, outs)
  {
  }

  lemma HandledRequest(platform: Platform, service: Service, request: Request)
    requires Granted(platform) && !NullCallback(request)
    ensures var local := service(request);
            OnRemoteRequest(platform, service, RequestCode(request), EncRequest(request)) ==
              (CallResultToIpcResult(local.code),
               if local.code == INT_CALL_SUCCESS && HasReply(request) then EncOuts(local.outs) else [])
  {
    RequestRoundTrip(request);
  }

  /** A caller the stub turns away, or a call that is not delivered, never reaches the service's out-values, and
      the code says why. */
  lemma RefusedCall(platform: Platform, service: Service, request: Request, outs: Outs)
    requires Connected(platform) && !Granted(platform) && !NullCallback(request)
    ensures RemoteCall(platform, service, request, outs) ==
            Outcome(if !platform.callerValid then 202 else 201, outs)
  {
    CodeKept(INT_NOT_SYSTEM_APP);
    CodeKept(INT_APP_NOT_GRANTED);
  }

  /** A transport failure is never taken for success, save the one value that looks like a shifted success. */
  lemma UndeliveredCall(platform: Platform, service: Service, request: Request, outs: Outs)
    requires platform.remotePresent && platform.tokenWritten && platform.transport != 0 && !NullCallback(request)
    ensures RemoteCall(platform, service, request, outs).code == INT_CALL_SUCCESS <==>
            platform.transport == CALL_RESULT_OFFSET
    ensures platform.transport != CALL_RESULT_OFFSET ==>
              RemoteCall(platform, service, request, outs).outs == outs
  {
  }
}
