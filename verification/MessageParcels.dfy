/** The parcel as the program uses it, a buffer that writes extend and a cursor that reads advance, and the
    parcel helper's Write/Read methods, each tied to the wire function of the same record. */
module MessageParcels {
  import opened Structs
  import opened Wire
  import opened WireStructs

  class MessageParcel {
    var cells: Cells
    var cursor: nat

    ghost predicate Valid()
      reads this
    {
      cursor <= |cells|
    }

    ghost function Unread(): Cells
      requires Valid()
      reads this
    {
      cells[cursor..]
    }

    constructor ()
      ensures Valid() && Unread() == []
    {
      cells := [];
      cursor := 0;
    }

    method WriteCell(c: Cell)
      requires Valid()
      modifies this`cells
      ensures Valid() && Unread() == old(Unread()) + [c]
    {
      cells := cells + [c];
    }

    method ReadWord() returns (w: uint32)
      requires Valid()
      modifies this`cursor
      ensures Valid() && (w, Unread()) == TakeWord(old(Unread()))
    {
      if cursor < |cells| && cells[cursor].Word? {
        w := cells[cursor].w;
        cursor := cursor + 1;
      } else {
        w := 0;
      }
    }

    method ReadInt32() returns (x: int32)
      requires Valid()
      modifies this`cursor
      ensures Valid() && (x, Unread()) == TakeInt32(old(Unread()))
    {
      var w := ReadWord();
      x := Signed32(w);
    }

    method ReadBool() returns (b: bool)
      requires Valid()
      modifies this`cursor
      ensures Valid() && (b, Unread()) == TakeBool(old(Unread()))
    {
      var w := ReadWord();
      b := w != 0;
    }

    method ReadString16() returns (s: string)
      requires Valid()
      modifies this`cursor
      ensures Valid() && (s, Unread()) == TakeText(old(Unread()))
    {
      if cursor < |cells| && cells[cursor].Text? {
        s := cells[cursor].s;
        cursor := cursor + 1;
      } else {
        s := "";
      }
    }

    method ReadRemoteObject() returns (o: Option<nat>)
      requires Valid()
      modifies this`cursor
      ensures Valid() && (o, Unread()) == TakeObject(old(Unread()))
    {
      if cursor < |cells| && cells[cursor].Object? {
        o := Some(cells[cursor].id);
        cursor := cursor + 1;
      } else {
        o := None;
      }
    }
  }

  // ---------- one record at a time ----------

  method WriteUpgradeInfo(data: MessageParcel, x: UpgradeInfo)
    requires data.Valid()
    modifies data`cells
    ensures data.Valid() && data.Unread() == old(data.Unread()) + EncUpgradeInfo(x)
  {
    data.WriteCell(Text(x.upgradeApp));
    data.WriteCell(Text(x.vendor));
    data.WriteCell(Int(x.subType));
    data.WriteCell(Text(x.upgradeDevId));
    data.WriteCell(Text(x.controlDevId));
  }

  method ReadUpgradeInfo(reply: MessageParcel) returns (x: UpgradeInfo)
    requires reply.Valid()
    modifies reply`cursor
    ensures reply.Valid() && (x, reply.Unread()) == DecUpgradeInfo(old(reply.Unread()))
  {
    var app := reply.ReadString16();
    var vendor := reply.ReadString16();
    var sub := reply.ReadInt32();
    var dev := reply.ReadString16();
    var control := reply.ReadString16();
    x := UpgradeInfo(app, vendor, sub, dev, control);
  }

  method WriteErrorMessages(data: MessageParcel, xs: seq<ErrorMessage>)
    requires data.Valid()
    modifies data`cells
    ensures data.Valid() && data.Unread() == old(data.Unread()) + EncErrors(xs)
  {
    ghost var before := data.Unread();
    data.WriteCell(Int(|xs|));
    for i := 0 to |xs|
      invariant data.Valid()
      invariant data.Unread() + EncodeAll(EncErrorMessage, xs[i..]) == before + EncErrors(xs)
    {
      ghost var p := data.Unread();
      EncodeNext(EncErrorMessage, xs, i);
      data.WriteCell(Int(xs[i].errorCode));
      data.WriteCell(Text(xs[i].errorMessage));
      assert data.Unread() == p + EncErrorMessage(xs[i]);
      ConcatAssociates(p, EncErrorMessage(xs[i]), EncodeAll(EncErrorMessage, xs[i + 1..]));
    }
  }

  method ReadErrorMessages(reply: MessageParcel) returns (xs: seq<ErrorMessage>)
    requires reply.Valid()
    modifies reply`cursor
    ensures reply.Valid() && (xs, reply.Unread()) == DecErrors(old(reply.Unread()))
  {
    var size := reply.ReadInt32();
    xs := [];
    if size > MAX_VECTOR_SIZE {
      return;
    }
    ghost var elements := reply.Unread();
    DecodedStart(DecErrorMessage, LoopCount(size), elements);
    var i := 0;
    while i < LoopCount(size)
      invariant reply.Valid() && 0 <= i <= LoopCount(size)
      invariant DecodedSoFar(DecErrorMessage, LoopCount(size), elements, xs, LoopCount(size) - i, reply.Unread())
    {
      ghost var p, done := reply.Unread(), xs;
      var code := reply.ReadInt32();
      var text := reply.ReadString16();
      xs := xs + [ErrorMessage(code, text)];
      DecodedNext(DecErrorMessage, LoopCount(size), elements, done, LoopCount(size) - i, p);
      i := i + 1;
    }
    DecodedEnd(DecErrorMessage, LoopCount(size), elements, xs, reply.Unread());
  }

  method WriteComponentDescriptions(data: MessageParcel, xs: seq<ComponentDescription>)
    requires data.Valid()
    modifies data`cells
    ensures data.Valid() && data.Unread() == old(data.Unread()) + EncDescriptions(xs)
  {
    ghost var before := data.Unread();
    data.WriteCell(Int(|xs|));
    for i := 0 to |xs|
      invariant data.Valid()
      invariant data.Unread() + EncodeAll(EncComponentDescription, xs[i..]) == before + EncDescriptions(xs)
    {
      ghost var p := data.Unread();
      EncodeNext(EncComponentDescription, xs, i);
      data.WriteCell(Text(xs[i].componentId));
      data.WriteCell(Int(xs[i].descriptionInfo.descriptionType));
      data.WriteCell(Text(xs[i].descriptionInfo.content));
      assert data.Unread() == p + EncComponentDescription(xs[i]);
      ConcatAssociates(p, EncComponentDescription(xs[i]), EncodeAll(EncComponentDescription, xs[i + 1..]));
    }
  }

  method ReadComponentDescriptions(reply: MessageParcel) returns (xs: seq<ComponentDescription>)
    requires reply.Valid()
    modifies reply`cursor
    ensures reply.Valid() && (xs, reply.Unread()) == DecDescriptions(old(reply.Unread()))
  {
    var size := reply.ReadInt32();
    xs := [];
    if size > MAX_VECTOR_SIZE {
      return;
    }
    ghost var elements := reply.Unread();
    DecodedStart(DecComponentDescription, LoopCount(size), elements);
    var i := 0;
    while i < LoopCount(size)
      invariant reply.Valid() && 0 <= i <= LoopCount(size)
      invariant DecodedSoFar(DecComponentDescription, LoopCount(size), elements, xs,
                             LoopCount(size) - i, reply.Unread())
    {
      ghost var p, done := reply.Unread(), xs;
      var id := reply.ReadString16();
      var kind := reply.ReadInt32();
      var content := reply.ReadString16();
      xs := xs + [ComponentDescription(id, DescriptionInfo(kind, content))];
      DecodedNext(DecComponentDescription, LoopCount(size), elements, done, LoopCount(size) - i, p);
      i := i + 1;
    }
    DecodedEnd(DecComponentDescription, LoopCount(size), elements, xs, reply.Unread());
  }

  method WriteVersionComponent(data: MessageParcel, x: VersionComponent)
    requires data.Valid()
    modifies data`cells
    ensures data.Valid() && data.Unread() == old(data.Unread()) + EncVersionComponent(x)
  {
    data.WriteCell(Text(x.componentId));
    data.WriteCell(Int(x.componentType));
    data.WriteCell(Text(x.upgradeAction));
    data.WriteCell(Text(x.displayVersion));
    data.WriteCell(Text(x.innerVersion));
    data.WriteCell(Int(x.size));
    data.WriteCell(Int(x.effectiveMode));
    data.WriteCell(Int(x.descriptionInfo.descriptionType));
    data.WriteCell(Text(x.descriptionInfo.content));
    data.WriteCell(Text(x.componentExtra));
  }

  method ReadVersionComponent(reply: MessageParcel) returns (x: VersionComponent)
    requires reply.Valid()
    modifies reply`cursor
    ensures reply.Valid() && (x, reply.Unread()) == DecVersionComponent(old(reply.Unread()))
  {
    var id := reply.ReadString16();
    var kind := reply.ReadInt32();
    var action := reply.ReadString16();
    var display := reply.ReadString16();
    var inner := reply.ReadString16();
    var size := reply.ReadWord();
    var mode := reply.ReadWord();
    var descriptionType := reply.ReadInt32();
    var content := reply.ReadString16();
    var extra := reply.ReadString16();
    x := VersionComponent(id, kind, action, display, inner, size, mode,
                          DescriptionInfo(descriptionType, content), extra);
  }

  method WriteVersionComponents(data: MessageParcel, xs: seq<VersionComponent>)
    requires data.Valid()
    modifies data`cells
    ensures data.Valid() && data.Unread() == old(data.Unread()) + EncComponents(xs)
  {
    ghost var before := data.Unread();
    data.WriteCell(Int(|xs|));
    for i := 0 to |xs|
      invariant data.Valid()
      invariant data.Unread() + EncodeAll(EncVersionComponent, xs[i..]) == before + EncComponents(xs)
    {
      ghost var p := data.Unread();
      EncodeNext(EncVersionComponent, xs, i);
      WriteVersionComponent(data, xs[i]);
      ConcatAssociates(p, EncVersionComponent(xs[i]), EncodeAll(EncVersionComponent, xs[i + 1..]));
    }
  }

  method ReadVersionComponents(reply: MessageParcel) returns (xs: seq<VersionComponent>)
    requires reply.Valid()
    modifies reply`cursor
    ensures reply.Valid() && (xs, reply.Unread()) == DecComponents(old(reply.Unread()))
  {
    var size := reply.ReadInt32();
    xs := [];
    if size > MAX_VECTOR_SIZE {
      return;
    }
    ghost var elements := reply.Unread();
    DecodedStart(DecVersionComponent, LoopCount(size), elements);
    var i := 0;
    while i < LoopCount(size)
      invariant reply.Valid() && 0 <= i <= LoopCount(size)
      invariant DecodedSoFar(DecVersionComponent, LoopCount(size), elements, xs,
                             LoopCount(size) - i, reply.Unread())
    {
      ghost var p, done := reply.Unread(), xs;
      var x := ReadVersionComponent(reply);
      xs := xs + [x];
      DecodedNext(DecVersionComponent, LoopCount(size), elements, done, LoopCount(size) - i, p);
      i := i + 1;
    }
    DecodedEnd(DecVersionComponent, LoopCount(size), elements, xs, reply.Unread());
  }

  method WriteBusinessError(data: MessageParcel, x: BusinessError)
    requires data.Valid()
    modifies data`cells
    ensures data.Valid() && data.Unread() == old(data.Unread()) + EncBusinessError(x)
  {
    data.WriteCell(Text(x.message));
    data.WriteCell(Int(x.errorNum));
    WriteErrorMessages(data, x.data);
  }

  method ReadBusinessError(reply: MessageParcel) returns (x: BusinessError)
    requires reply.Valid()
    modifies reply`cursor
    ensures reply.Valid() && (x, reply.Unread()) == DecBusinessError(old(reply.Unread()))
  {
    var message := reply.ReadString16();
    var errorNum := reply.ReadInt32();
    var data := ReadErrorMessages(reply);
    x := BusinessError(message, errorNum, data);
  }

  method WriteNewVersionInfo(data: MessageParcel, x: NewVersionInfo)
    requires data.Valid()
    modifies data`cells
    ensures data.Valid() && data.Unread() == old(data.Unread()) + EncNewVersionInfo(x)
  {
    data.WriteCell(Text(x.versionDigest));
    WriteVersionComponents(data, x.versionComponents);
  }

  method ReadNewVersionInfo(reply: MessageParcel) returns (x: NewVersionInfo)
    requires reply.Valid()
    modifies reply`cursor
    ensures reply.Valid() && (x, reply.Unread()) == DecNewVersionInfo(old(reply.Unread()))
  {
    var digest := reply.ReadString16();
    var components := ReadVersionComponents(reply);
    x := NewVersionInfo(digest, components);
  }

  method WriteCurrentVersionInfo(data: MessageParcel, x: CurrentVersionInfo)
    requires data.Valid()
    modifies data`cells
    ensures data.Valid() && data.Unread() == old(data.Unread()) + EncCurrentVersionInfo(x)
  {
    data.WriteCell(Text(x.osVersion));
    data.WriteCell(Text(x.deviceName));
    WriteVersionComponents(data, x.versionComponents);
  }

  method ReadCurrentVersionInfo(reply: MessageParcel) returns (x: CurrentVersionInfo)
    requires reply.Valid()
    modifies reply`cursor
    ensures reply.Valid() && (x, reply.Unread()) == DecCurrentVersionInfo(old(reply.Unread()))
  {
    var os := reply.ReadString16();
    var device := reply.ReadString16();
    var components := ReadVersionComponents(reply);
    x := CurrentVersionInfo(os, device, components);
  }

  method WriteTaskInfo(data: MessageParcel, x: TaskInfo)
    requires data.Valid()
    modifies data`cells
    ensures data.Valid() && data.Unread() == old(data.Unread()) + EncTaskInfo(x)
  {
    ghost var before, body := data.Unread(), x.taskBody;
    data.WriteCell(Bool(x.existTask));
    WriteTaskHead(data, x.taskBody);
    WriteErrorMessages(data, x.taskBody.errorMessages);
    WriteVersionComponents(data, x.taskBody.versionComponents);
    TaskJoined(before, [Bool(x.existTask)], EncTaskHead(body), EncErrors(body.errorMessages),
               EncComponents(body.versionComponents));
  }

  method WriteTaskHead(data: MessageParcel, body: TaskBody)
    requires data.Valid()
    modifies data`cells
    ensures data.Valid() && data.Unread() == old(data.Unread()) + EncTaskHead(body)
  {
    data.WriteCell(Text(body.versionDigest));
    data.WriteCell(Int(body.status));
    data.WriteCell(Int(body.subStatus));
    data.WriteCell(Int(body.progress));
    data.WriteCell(Int(body.installMode));
  }

  lemma TaskJoined(before: Cells, flag: Cells, head: Cells, errors: Cells, components: Cells)
    ensures before + flag + head + errors + components == before + (flag + (head + (errors + components)))
  {
    ConcatAssociates(before + flag + head, errors, components);
    ConcatAssociates(before + flag, head, errors + components);
    ConcatAssociates(before, flag, head + (errors + components));
  }

  method ReadTaskInfo(reply: MessageParcel) returns (x: TaskInfo)
    requires reply.Valid()
    modifies reply`cursor
    ensures reply.Valid() && (x, reply.Unread()) == DecTaskInfo(old(reply.Unread()))
  {
    var exist := reply.ReadBool();
    var digest := reply.ReadString16();
    var status := reply.ReadInt32();
    var subStatus := reply.ReadInt32();
    var progress := reply.ReadInt32();
    var installMode := reply.ReadInt32();
    var errors := ReadErrorMessages(reply);
    var components := ReadVersionComponents(reply);
    x := TaskInfo(exist, TaskBody(digest, status, subStatus, progress, installMode, errors, components));
  }

  method WriteUpgradePolicy(data: MessageParcel, x: UpgradePolicy)
    requires data.Valid()
    modifies data`cells
    ensures data.Valid() && data.Unread() == old(data.Unread()) + EncPolicy(x)
  {
    data.WriteCell(Bool(x.downloadStrategy));
    data.WriteCell(Bool(x.autoUpgradeStrategy));
    data.WriteCell(Int(ARRAY_SIZE));
    data.WriteCell(Int(x.period0.start));
    data.WriteCell(Int(x.period0.end));
    data.WriteCell(Int(x.period1.start));
    data.WriteCell(Int(x.period1.end));
  }

  method ReadUpgradePolicy(reply: MessageParcel) returns (x: UpgradePolicy)
    requires reply.Valid()
    modifies reply`cursor
    ensures reply.Valid() && (x, reply.Unread()) == DecPolicy(old(reply.Unread()))
  {
    var download := reply.ReadBool();
    var auto := reply.ReadBool();
    var size := reply.ReadInt32();
    var count := LoopCount(size);
    x := UpgradePolicy(download, auto, NO_PERIOD, NO_PERIOD);
    if count > MAX_VECTOR_SIZE {
      return;
    }
    if count >= 1 {
      var start := reply.ReadWord();
      var end := reply.ReadWord();
      x := x.(period0 := UpgradePeriod(start, end));
    }
    if count >= 2 {
      var start := reply.ReadWord();
      var end := reply.ReadWord();
      x := x.(period1 := UpgradePeriod(start, end));
    }
  }

  // ---------- the loops' bookkeeping ----------

  lemma EncodeNext<T>(enc: T -> Cells, xs: seq<T>, i: nat)
    requires i < |xs|
    ensures EncodeAll(enc, xs[i..]) == enc(xs[i]) + EncodeAll(enc, xs[i + 1..])
  {
    assert xs[i..][1..] == xs[i + 1..];
  }

  /** Of `n` elements at `elements`, `done` are read and `left` are still to come at `p`. */
  ghost predicate DecodedSoFar<T>(dec: Cells -> (T, Cells), n: nat, elements: Cells, done: seq<T>,
                                  left: nat, p: Cells)
  {
    var (xs, rest) := DecodeAll(dec, left, p);
    DecodeAll(dec, n, elements) == (done + xs, rest)
  }

  lemma DecodedStart<T>(dec: Cells -> (T, Cells), n: nat, elements: Cells)
    ensures DecodedSoFar(dec, n, elements, [], n, elements)
  {
    var xs := DecodeAll(dec, n, elements).0;
    assert [] + xs == xs;
  }

  lemma DecodedEnd<T>(dec: Cells -> (T, Cells), n: nat, elements: Cells, done: seq<T>, p: Cells)
    requires DecodedSoFar(dec, n, elements, done, 0, p)
    ensures DecodeAll(dec, n, elements) == (done, p)
  {
    assert done + [] == done;
  }

  lemma DecodedNext<T>(dec: Cells -> (T, Cells), n: nat, elements: Cells, done: seq<T>, left: nat, p: Cells)
    requires left > 0 && DecodedSoFar(dec, n, elements, done, left, p)
    ensures DecodedSoFar(dec, n, elements, done + [dec(p).0], left - 1, dec(p).1)
  {
    var (xs, rest) := DecodeAll(dec, left - 1, dec(p).1);
    assert done + ([dec(p).0] + xs) == (done + [dec(p).0]) + xs;
  }
}
