/** The string builder that writes the events' JSON, comma by comma. */
module JsonBuilders {
  import opened Structs
  import opened Decimal
  import opened Json
  import opened EventJson

  lemma {:induction false} RenderSnoc(members: seq<Member>, m: Member, text: string)
    requires members != [] && RenderMembers(members) == text + "}"
    ensures RenderMembers(members + [m]) == text + "," + RenderMember(m) + "}"
    decreases |members|
  {
    var first, all := RenderMember(members[0]), members + [m];
    assert all[0] == members[0];
    if |members| == 1 {
      assert first == text by {
        SameFront(first, text, "}");
      }
      assert all[1..] == [m];
      assert RenderMembers(all) == first + ("," + (RenderMember(m) + "}"));
    } else {
      var rest := members[1..];
      var tail := RenderMembers(rest);
      LastBrace(rest);
      var front := tail[..|tail| - 1];
      assert tail == front + "}";
      assert text + "}" == first + "," + front + "}";
      SameFront(text, first + "," + front, "}");
      RenderSnoc(rest, m, front);
      assert all[1..] == rest + [m];
      assert RenderMembers(all) == first + ("," + (front + "," + RenderMember(m) + "}"));
    }
  }

  lemma SameFront(a: string, b: string, c: string)
    requires a + c == b + c
    ensures a == b
  {
    assert |a + c| == |a| + |c| && |b + c| == |b| + |c|;
    assert a == (a + c)[..|a|] && b == (b + c)[..|b|];
  }

  lemma {:induction false} LastBrace(members: seq<Member>)
    requires members != []
    ensures var t := RenderMembers(members); t != "" && t[|t| - 1] == '}'
    decreases |members|
  {
    if |members| > 1 {
      LastBrace(members[1..]);
    }
  }

  /** `text` is an object of `members` but for the closing brace. */
  ghost predicate Opened(text: string, members: seq<Member>) {
    text + "}" == Render(Obj(members))
  }

  lemma OneMember(m: Member)
    ensures Render(Obj([m])) == "{" + RenderMember(m) + "}"
  {
    assert RenderMembers([m]) == RenderMember(m) + "}";
  }

  lemma OpenedBody(text: string, members: seq<Member>) returns (body: string)
    requires Opened(text, members) && members != []
    ensures text == "{" + body && RenderMembers(members) == body + "}"
  {
    var all := RenderMembers(members);
    LastBrace(members);
    body := all[..|all| - 1];
    assert all == body + "}";
    assert "{" + all == "{" + body + "}";
    SameFront(text, "{" + body, "}");
  }

  lemma OpenedMore(text: string, members: seq<Member>, m: Member)
    requires Opened(text, members) && members != []
    ensures Opened(text + "," + RenderMember(m), members + [m])
  {
    var body := OpenedBody(text, members);
    RenderSnoc(members, m, body);
    Joined("{", body, "," + RenderMember(m) + "}");
    assert text + "," + RenderMember(m) + "}" == "{" + (body + "," + RenderMember(m) + "}");
  }

  lemma OpenedNext(text: string, members: seq<Member>, m: Member)
    requires Opened(text, members)
    ensures Opened(text + (if members == [] then "" else ",") + RenderMember(m), members + [m])
  {
    if members == [] {
      SameFront(text, "{", "}");
      OneMember(m);
      assert [] + [m] == [m] && "{" + "" == "{";
    } else {
      OpenedMore(text, members, m);
    }
  }

  class JsonBuilder {
    var builder: string
    var isFirstItem: bool
    ghost var members: seq<Member>

    /** An object is open: its members so far are written. */
    ghost predicate Open()
      reads this
    {
      Opened(builder, members) && isFirstItem == (members == [])
    }

    constructor ()
      ensures builder == "" && isFirstItem && members == []
    {
      builder, isFirstItem, members := "", true, [];
    }

    method AppendText(qualifier: string)
      modifies this`builder
      ensures builder == old(builder) + qualifier
    {
      builder := builder + qualifier;
    }

    method AppendComma()
      modifies this`builder, this`isFirstItem
      ensures !isFirstItem && builder == old(builder) + (if old(isFirstItem) then "" else ",")
    {
      if isFirstItem {
        isFirstItem := false;
      } else {
        builder := builder + ",";
      }
    }

    /** A key with the text of its value. */
    method AppendEntry(key: string, text: string, ghost value: Value)
      requires Open() && text == Render(value)
      modifies this
      ensures Open() && members == old(members) + [Member(key, value)]
    {
      OpenedNext(builder, members, Member(key, value));
      ghost var m := Member(key, value);
      ghost var before, first := builder, isFirstItem;
      AppendComma();
      AppendText("\"" + key + "\":");
      AppendText(text);
      assert builder == before + (if first then "" else ",") + RenderMember(m);
      members := members + [m];
    }

    method AppendNumber(key: string, value: int)
      requires Open()
      modifies this
      ensures Open() && members == old(members) + [Member(key, Num(value))]
    {
      AppendEntry(key, IntText(value), Num(value));
    }

    method AppendString(key: string, value: string)
      requires Open()
      modifies this
      ensures Open() && members == old(members) + [Member(key, Str(value))]
    {
      AppendEntry(key, "\"" + value + "\"", Str(value));
    }

    /** An empty list leaves no trace. */
    method AppendList(key: string, texts: seq<string>, ghost items: seq<Value>)
      requires Open() && |texts| == |items| && forall i :: 0 <= i < |items| ==> texts[i] == Render(items[i])
      modifies this
      ensures Open()
      ensures members == old(members) + (if items == [] then [] else [Member(key, Arr(items))])
    {
      if texts != [] {
        var text := ListText(texts, items);
        AppendEntry(key, text, Arr(items));
      }
    }

    method Close()
      requires Open()
      modifies this`builder
      ensures builder == Render(Obj(members))
    {
      AppendText("}");
    }
  }

  method ListText(texts: seq<string>, ghost items: seq<Value>) returns (text: string)
    requires |texts| == |items| > 0 && forall i :: 0 <= i < |items| ==> texts[i] == Render(items[i])
    ensures text == Render(Arr(items))
  {
    var jsonArray := "[";
    for i := 0 to |texts|
      invariant jsonArray + (if i == |items| then "]" else RenderItems(items[i..])) == Render(Arr(items))
    {
      ItemsSplit(jsonArray, items, i);
      jsonArray := jsonArray + texts[i];
      if i != |texts| - 1 {
        jsonArray := jsonArray + ",";
      }
    }
    text := jsonArray + "]";
  }

  lemma ItemsSplit(text: string, items: seq<Value>, i: nat)
    requires i < |items|
    ensures text + RenderItems(items[i..]) ==
            if i == |items| - 1 then text + Render(items[i]) + "]"
            else text + Render(items[i]) + "," + RenderItems(items[i + 1..])
  {
    assert items[i..][1..] == items[i + 1..];
    if i == |items| - 1 {
      Joined(text, Render(items[i]), "]");
    } else {
      Joined(Render(items[i]), ",", RenderItems(items[i + 1..]));
      Joined(text, Render(items[i]), "," + RenderItems(items[i + 1..]));
      Joined(text + Render(items[i]), ",", RenderItems(items[i + 1..]));
    }
  }

  method NewObject() returns (b: JsonBuilder)
    ensures fresh(b) && b.Open() && b.members == []
  {
    b := new JsonBuilder();
    b.AppendText("{");
  }

  // ---------- the records ----------

  method ErrorMessageJson(e: ErrorMessage) returns (text: string)
    ensures text == Render(ErrorMessageDoc(e))
  {
    var b := NewObject();
    b.AppendNumber("errorCode", e.errorCode);
    b.AppendString("errorMessage", e.errorMessage);
    b.Close();
    text := b.builder;
  }

  method DescriptionJson(d: DescriptionInfo) returns (text: string)
    ensures text == Render(DescriptionDoc(d))
  {
    var b := NewObject();
    b.AppendNumber("descriptionType", d.descriptionType);
    b.AppendString("content", d.content);
    b.Close();
    text := b.builder;
  }

  method ComponentJson(c: VersionComponent) returns (text: string)
    ensures text == Render(ComponentDoc(c))
  {
    var description := DescriptionJson(c.descriptionInfo);
    var b := NewComponent(c);
    b.AppendNumber("size", ToInt64(c.size));
    b.AppendNumber("effectiveMode", ToInt32(c.effectiveMode));
    b.AppendEntry("descriptionInfo", description, DescriptionDoc(c.descriptionInfo));
    b.AppendString("componentExtra", c.componentExtra);
    assert b.members == ComponentDoc(c).members;
    b.Close();
    text := b.builder;
  }

  method NewComponent(c: VersionComponent) returns (b: JsonBuilder)
    ensures fresh(b) && b.Open() && b.members == ComponentDoc(c).members[..5]
  {
    b := NewObject();
    b.AppendString("componentId", c.componentId);
    b.AppendNumber("componentType", c.componentType);
    b.AppendString("upgradeAction", c.upgradeAction);
    b.AppendString("displayVersion", c.displayVersion);
    b.AppendString("innerVersion", c.innerVersion);
  }

  method ErrorMessageJsons(list: seq<ErrorMessage>) returns (texts: seq<string>)
    ensures |texts| == |list|
    ensures forall i :: 0 <= i < |list| ==> texts[i] == Render(ErrorMessageDocs(list)[i])
  {
    texts := [];
    for k := 0 to |list|
      invariant |texts| == k
      invariant forall i :: 0 <= i < k ==> texts[i] == Render(ErrorMessageDocs(list)[i])
    {
      var text := ErrorMessageJson(list[k]);
      texts := texts + [text];
    }
  }

  method ComponentJsons(list: seq<VersionComponent>) returns (texts: seq<string>)
    ensures |texts| == |list|
    ensures forall i :: 0 <= i < |list| ==> texts[i] == Render(ComponentDocs(list)[i])
  {
    texts := [];
    for k := 0 to |list|
      invariant |texts| == k
      invariant forall i :: 0 <= i < k ==> texts[i] == Render(ComponentDocs(list)[i])
    {
      var text := ComponentJson(list[k]);
      texts := texts + [text];
    }
  }

  method DigestJson(versionDigest: string) returns (text: string)
    ensures text == Render(DigestDoc(versionDigest))
  {
    var b := NewObject();
    b.AppendString("versionDigest", versionDigest);
    b.Close();
    text := b.builder;
  }

  lemma SelectedNext(fields: seq<Field>, k: nat)
    requires k < |fields|
    ensures Selected(fields[..k + 1]) ==
            Selected(fields[..k]) + (if fields[k].selected then [fields[k].member] else [])
    ensures Selected(fields[..k]) + [] == Selected(fields[..k])
  {
    assert fields[..k + 1][..k] == fields[..k];
  }

  /** The numbers of the body, as their mask says. */
  method AppendNumbers(b: JsonBuilder, body: TaskBody, mask: bv32)
    requires b.Open() && b.members == Selected(Fields(body, mask)[..1])
    modifies b
    ensures b.Open() && b.members == Selected(Fields(body, mask)[..5])
  {
    ghost var fields := Fields(body, mask);
    SelectedNext(fields, 1);
    if Has(mask, UPGRADE_STATUS) {
      b.AppendNumber("status", body.status);
    }
    SelectedNext(fields, 2);
    if Has(mask, SUB_STATUS) {
      b.AppendNumber("subStatus", body.subStatus);
    }
    SelectedNext(fields, 3);
    if Has(mask, PROGRESS) {
      b.AppendNumber("progress", body.progress);
    }
    SelectedNext(fields, 4);
    if Has(mask, INSTALL_MODE) {
      b.AppendNumber("installMode", body.installMode);
    }
  }

  method AppendLists(b: JsonBuilder, body: TaskBody, mask: bv32)
    requires b.Open() && b.members == Selected(Fields(body, mask)[..5])
    modifies b
    ensures b.Open() && b.members == Selected(Fields(body, mask))
  {
    ghost var fields := Fields(body, mask);
    SelectedNext(fields, 5);
    if Has(mask, ERROR_MESSAGE) {
      var texts := ErrorMessageJsons(body.errorMessages);
      b.AppendList("errorMessages", texts, ErrorMessageDocs(body.errorMessages));
    }
    assert b.members == Selected(fields[..6]);
    SelectedNext(fields, 6);
    if Has(mask, VERSION_COMPONENT) {
      var texts := ComponentJsons(body.versionComponents);
      b.AppendList("versionComponents", texts, ComponentDocs(body.versionComponents));
    }
    assert fields[..7] == fields;
  }

  method TaskBodyJson(body: TaskBody, eventId: int32) returns (text: string)
    ensures text == match Template(eventId)
                    case None => ""
                    case Some(mask) => Render(BodyDoc(body, mask))
  {
    var template := Template(eventId);
    if template.None? {
      return "";
    }
    text := MaskedBodyJson(body, template.value);
  }

  method MaskedBodyJson(body: TaskBody, mask: bv32) returns (text: string)
    ensures text == Render(BodyDoc(body, mask))
  {
    var b := NewObject();
    ghost var fields := Fields(body, mask);
    SelectedNext(fields, 0);
    assert Selected(fields[..0]) == [];
    if Has(mask, VERSION_DIGEST_INFO) {
      var digest := DigestJson(body.versionDigest);
      b.AppendEntry("versionDigestInfo", digest, DigestDoc(body.versionDigest));
    }
    AppendNumbers(b, body, mask);
    AppendLists(b, body, mask);
    b.Close();
    text := b.builder;
  }

  method EventJsonText(e: EventInfo) returns (text: string)
    ensures text == EventText(e)
  {
    var body := TaskBodyJson(e.taskBody, e.eventId);
    text := WrappedBody(e.eventId, body);
  }

  /** Nothing here looks at the body's text, which may be no JSON at all. */
  method WrappedBody(eventId: int32, body: string) returns (text: string)
    ensures text == TextAround(eventId, body)
  {
    var b := NewEvent(eventId);
    ghost var start := b.builder;
    b.AppendComma();
    b.AppendText("\"taskBody\":");
    assert b.builder == start + ",\"taskBody\":";
    b.AppendText(body);
    b.AppendText("}");
    text := b.builder;
  }

  method NewEvent(eventId: int32) returns (b: JsonBuilder)
    ensures fresh(b) && !b.isFirstItem
    ensures b.builder == "{" + RenderMember(Member("eventId", Num(eventId)))
  {
    b := NewObject();
    b.AppendNumber("eventId", eventId);
    ghost var m := Member("eventId", Num(eventId));
    OneMember(m);
    assert b.members == [m];
    SameFront(b.builder, "{" + RenderMember(m), "}");
  }
}
