/** The proxy's and the stub's code, step by step over parcels. */
module UpdateProxyStub {
  import opened Structs
  import opened Wire
  import opened WireStructs
  import opened MessageParcels
  import opened UpdateIpc

  method WriteDigestAnd(data: MessageParcel, digest: string, cell: Cell)
    requires data.Valid()
    modifies data`cells
    ensures data.Valid() && data.Unread() == old(data.Unread()) + ([Text(digest)] + [cell])
  {
    data.WriteCell(Text(digest));
    data.WriteCell(cell);
  }

  method WriteDescriptionOptions(data: MessageParcel, x: DescriptionOptions)
    requires data.Valid()
    modifies data`cells
    ensures data.Valid() && data.Unread() == old(data.Unread()) + EncDescriptionOptions(x)
  {
    data.WriteCell(Int(x.format));
    data.WriteCell(Text(x.language));
  }

  /** The arguments each proxy method writes after the UpgradeInfo, in its order. */
  method WriteCall(data: MessageParcel, call: Call)
    requires data.Valid()
    modifies data`cells
    ensures data.Valid() && data.Unread() == old(data.Unread()) + EncCall(call)
  {
    match call
    case Download(digest, options) =>
      data.WriteCell(Text(digest));
      data.WriteCell(Int(options.allowNetwork));
      data.WriteCell(Int(options.order));
    case PauseDownload(digest, resume) =>
      WriteDigestAnd(data, digest, Bool(resume));
    case ResumeDownload(digest, network) =>
      WriteDigestAnd(data, digest, Int(network));
    case Upgrade(digest, order) =>
      WriteDigestAnd(data, digest, Int(order));
    case ClearError(digest, status) =>
      WriteDigestAnd(data, digest, Int(status));
    case SetUpgradePolicy(policy) =>
      WriteUpgradePolicy(data, policy);
    case GetNewVersionDescription(digest, description) =>
      data.WriteCell(Text(digest));
      WriteDescriptionOptions(data, description);
    case GetCurrentVersionDescription(description) =>
      WriteDescriptionOptions(data, description);
    case RegisterUpdateCallback(callback) =>
      if callback.Some? {
        data.WriteCell(Object(callback.value));
      }
    case Cancel(service) =>
      data.WriteCell(Int(service));
    case ApplyNewVersion(misc, name) =>
      WriteDigestAnd(data, misc, Text(name));
    case _ =>
  }

  method WriteRequest(data: MessageParcel, request: Request)
    requires data.Valid()
    modifies data`cells
    ensures data.Valid() && data.Unread() == old(data.Unread()) + EncRequest(request)
  {
    match request
    case About(info, call) =>
      WriteUpgradeInfo(data, info);
      WriteCall(data, call);
    case FactoryReset =>
    case VerifyUpgradePackage(path, key) =>
      WriteDigestAnd(data, path, Text(key));
  }

  method ReadDescriptionOptions(data: MessageParcel) returns (x: DescriptionOptions)
    requires data.Valid()
    modifies data`cursor
    ensures data.Valid() && x == DecDescriptionOptions(old(data.Unread())).0
  {
    var format := data.ReadInt32();
    var language := data.ReadString16();
    x := DescriptionOptions(format, language);
  }

  method ReadDigestCall(code: nat, data: MessageParcel) returns (call: Call)
    requires data.Valid()
    requires code in {2, 3, 4, 5, 6, 11}
    modifies data`cursor
    ensures data.Valid() && call == DecCall(code, old(data.Unread()))
  {
    var digest := data.ReadString16();
    if code == 2 {
      var network := data.ReadInt32();
      var order := data.ReadInt32();
      call := Download(digest, DownloadOptions(network, order));
    } else if code == 3 {
      var resume := data.ReadBool();
      call := PauseDownload(digest, resume);
    } else if code == 11 {
      var description := ReadDescriptionOptions(data);
      call := GetNewVersionDescription(digest, description);
    } else {
      var number := data.ReadInt32();
      call := if code == 4 then ResumeDownload(digest, number)
              else if code == 5 then Upgrade(digest, number)
              else ClearError(digest, number);
    }
  }

  /** What each handler reads after the UpgradeInfo, by interface code. */
  method ReadCall(code: nat, data: MessageParcel) returns (call: Call)
    requires data.Valid()
    modifies data`cursor
    ensures data.Valid() && call == DecCall(code, old(data.Unread()))
  {
    match code
    case 1 => call := CheckNewVersion;
    case 7 => call := TerminateUpgrade;
    case 8 =>
      var policy := ReadUpgradePolicy(data);
      call := SetUpgradePolicy(policy);
    case 9 => call := GetUpgradePolicy;
    case 10 => call := GetNewVersionInfo;
    case 12 => call := GetCurrentVersionInfo;
    case 13 =>
      var description := ReadDescriptionOptions(data);
      call := GetCurrentVersionDescription(description);
    case 14 => call := GetTaskInfo;
    case 15 =>
      var callback := data.ReadRemoteObject();
      call := RegisterUpdateCallback(callback);
    case 16 => call := UnregisterUpdateCallback;
    case 17 =>
      var service := data.ReadInt32();
      call := Cancel(service);
    case _ =>
      if code in {2, 3, 4, 5, 6, 11} {
        call := ReadDigestCall(code, data);
      } else {
        var misc := data.ReadString16();
        var name := data.ReadString16();
        call := ApplyNewVersion(misc, name);
      }
  }

  method ReadRequest(code: nat, data: MessageParcel) returns (request: Request)
    requires data.Valid()
    modifies data`cursor
    ensures data.Valid() && request == DecRequest(code, old(data.Unread()))
  {
    if code == 18 {
      request := FactoryReset;
    } else if code == 20 {
      var path := data.ReadString16();
      var key := data.ReadString16();
      request := VerifyUpgradePackage(path, key);
    } else {
      var info := ReadUpgradeInfo(data);
      var call := ReadCall(code, data);
      request := About(info, call);
    }
  }

  method WriteOutput(reply: MessageParcel, output: Output)
    requires reply.Valid()
    modifies reply`cells
    ensures reply.Valid() && reply.Unread() == old(reply.Unread()) + EncOutput(output)
  {
    match output
    case Nothing =>
    case NewVersion(x) =>
      WriteNewVersionInfo(reply, x);
    case Descriptions(xs) =>
      WriteComponentDescriptions(reply, xs);
    case CurrentVersion(x) =>
      WriteCurrentVersionInfo(reply, x);
    case Task(x) =>
      WriteTaskInfo(reply, x);
    case Policy(x) =>
      WriteUpgradePolicy(reply, x);
  }

  method ReadOutput(kind: Kind, reply: MessageParcel) returns (output: Output)
    requires reply.Valid()
    modifies reply`cursor
    ensures reply.Valid() && output == DecOutput(kind, old(reply.Unread()))
  {
    match kind
    case KNothing =>
      output := Nothing;
    case KNewVersion =>
      var info := ReadNewVersionInfo(reply);
      output := NewVersion(info);
    case KDescriptions =>
      var descriptions := ReadComponentDescriptions(reply);
      output := Descriptions(descriptions);
    case KCurrentVersion =>
      var info := ReadCurrentVersionInfo(reply);
      output := CurrentVersion(info);
    case KTask =>
      var task := ReadTaskInfo(reply);
      output := Task(task);
    case KPolicy =>
      var policy := ReadUpgradePolicy(reply);
      output := Policy(policy);
  }

  method WriteReply(reply: MessageParcel, outs: Outs)
    requires reply.Valid() && reply.Unread() == []
    modifies reply`cells
    ensures reply.Valid() && reply.Unread() == EncOuts(outs)
  {
    WriteBusinessError(reply, outs.error);
    WriteOutput(reply, outs.output);
  }

  class UpdateServiceStub {
    const platform: Platform
    const service: Service

    constructor (platform: Platform, service: Service)
      ensures this.platform == platform && this.service == service
    {
      this.platform := platform;
      this.service := service;
    }

    /** One handler: read the arguments, ask the service, and write the reply only if it says success. */
    method Handler(code: nat, data: MessageParcel, reply: MessageParcel) returns (ret: int32)
      requires data != reply && data.Valid() && reply.Valid() && reply.Unread() == []
      modifies data`cursor, reply`cells
      ensures data.Valid() && reply.Valid()
      ensures (ret, reply.Unread()) == Handle(service, code, old(data.Unread()))
    {
      var request := ReadRequest(code, data);
      if request.About? && request.call == RegisterUpdateCallback(None) {
        return INT_CALL_IPC_ERR;
      }
      var outcome := service(request);
      if outcome.code != INT_CALL_SUCCESS || !HasReply(request) {
        return outcome.code;
      }
      WriteReply(reply, outcome.outs);
      return INT_CALL_SUCCESS;
    }

    method OnRequest(code: nat, data: MessageParcel, reply: MessageParcel) returns (ret: int32)
      requires data != reply && data.Valid() && reply.Valid() && reply.Unread() == []
      modifies data`cursor, reply`cells
      ensures data.Valid() && reply.Valid()
      ensures (ret, reply.Unread()) == OnRemoteRequest(platform, service, code, old(data.Unread()))
    {
      if !platform.tokenAccepted {
        return CallResultToIpcResult(INT_CALL_IPC_ERR);
      }
      if !(1 <= code <= LAST_CODE) {
        return platform.unknownCode;
      }
      if !platform.callerValid {
        return CallResultToIpcResult(INT_NOT_SYSTEM_APP);
      }
      if !platform.permissionGranted {
        var info := ReadUpgradeInfo(data);
        return CallResultToIpcResult(INT_APP_NOT_GRANTED);
      }
      ret := Handler(code, data, reply);
      ret := CallResultToIpcResult(ret);
    }
  }

  class UpdateServiceProxy {
    const remote: UpdateServiceStub

    constructor (remote: UpdateServiceStub)
      ensures this.remote == remote
    {
      this.remote := remote;
    }

    /** Any of the 20 proxy methods: write, send, shift the code back, read the reply on success only. */
    method Invoke(request: Request, outs: Outs) returns (outcome: Outcome)
      ensures outcome == RemoteCall(remote.platform, remote.service, request, outs)
    {
      if request.About? && request.call == RegisterUpdateCallback(None) {
        return Outcome(INT_PARAM_ERR, outs);
      }
      if !remote.platform.remotePresent || !remote.platform.tokenWritten {
        return Outcome(INT_CALL_IPC_ERR, outs);
      }
      var data := new MessageParcel();
      WriteRequest(data, request);
      assert data.Unread() == EncRequest(request);
      var reply := new MessageParcel();
      var ret := remote.platform.transport;
      if ret == 0 {
        ret := remote.OnRequest(RequestCode(request), data, reply);
      }
      ret := IpcResultToCallResult(ret);
      if ret != INT_CALL_SUCCESS || !HasReply(request) {
        return Outcome(ret, outs);
      }
      var error := ReadBusinessError(reply);
      var output := ReadOutput(OutputKind(request), reply);
      return Outcome(INT_CALL_SUCCESS, Outs(error, output));
    }
  }
}
