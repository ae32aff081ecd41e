/** The JSON text of an event: the builder that concatenates it, and the document it is meant to be. */
module EventJson {
  import opened Structs
  import opened Decimal
  import opened Json

  // ---------- which fields an event carries ----------

  const VERSION_DIGEST_INFO: bv32 := 0x00000001
  const UPGRADE_STATUS: bv32 := 0x00000010
  const SUB_STATUS: bv32 := 0x00000100
  const PROGRESS: bv32 := 0x00001000
  const INSTALL_MODE: bv32 := 0x00010000
  const ERROR_MESSAGE: bv32 := 0x00100000
  const VERSION_COMPONENT: bv32 := 0x01000000

  const EVENT_TASK_BASE := 0x01000000

  /** The events, by their distance from EVENT_TASK_BASE. */
  function Template(eventId: int32): Option<bv32> {
    match eventId - EVENT_TASK_BASE
    case 1 => Some(VERSION_DIGEST_INFO)                                                     // TASK_RECEIVE
    case 2 => Some(VERSION_DIGEST_INFO)                                                     // TASK_CANCEL
    case 3 => Some(VERSION_DIGEST_INFO | UPGRADE_STATUS | INSTALL_MODE)                     // DOWNLOAD_WAIT
    case 4 => Some(VERSION_DIGEST_INFO | INSTALL_MODE)                                      // DOWNLOAD_START
    case 5 => Some(VERSION_DIGEST_INFO | UPGRADE_STATUS | PROGRESS | INSTALL_MODE)          // DOWNLOAD_UPDATE
    case 6 => Some(VERSION_DIGEST_INFO | UPGRADE_STATUS | PROGRESS | INSTALL_MODE |
                   ERROR_MESSAGE)                                                           // DOWNLOAD_PAUSE
    case 7 => Some(VERSION_DIGEST_INFO | UPGRADE_STATUS | PROGRESS | INSTALL_MODE)          // DOWNLOAD_RESUME
    case 8 => Some(VERSION_DIGEST_INFO | INSTALL_MODE)                                      // DOWNLOAD_SUCCESS
    case 9 => Some(VERSION_DIGEST_INFO | INSTALL_MODE | ERROR_MESSAGE)                      // DOWNLOAD_FAIL
    case 10 => Some(VERSION_DIGEST_INFO | UPGRADE_STATUS | INSTALL_MODE | ERROR_MESSAGE)    // UPGRADE_WAIT
    case 11 => Some(VERSION_DIGEST_INFO | UPGRADE_STATUS | INSTALL_MODE)                    // UPGRADE_START
    case 12 => Some(VERSION_DIGEST_INFO | UPGRADE_STATUS | PROGRESS | INSTALL_MODE)         // UPGRADE_UPDATE
    case 13 => Some(VERSION_DIGEST_INFO | UPGRADE_STATUS | ERROR_MESSAGE)                   // APPLY_WAIT
    case 14 => Some(VERSION_DIGEST_INFO)                                                    // APPLY_START
    case 15 => Some(VERSION_DIGEST_INFO | VERSION_COMPONENT)                                // UPGRADE_SUCCESS
    case 16 => Some(VERSION_DIGEST_INFO | VERSION_COMPONENT | ERROR_MESSAGE)                // UPGRADE_FAIL
    case 17 => Some(VERSION_DIGEST_INFO | VERSION_COMPONENT | UPGRADE_STATUS)               // AUTH_START
    case 18 => Some(VERSION_DIGEST_INFO | VERSION_COMPONENT | UPGRADE_STATUS)               // AUTH_SUCCESS
    case 19 => Some(VERSION_DIGEST_INFO | UPGRADE_STATUS)                                   // DOWNLOAD_CANCEL
    case 20 => Some(UPGRADE_STATUS)                                                         // INITIALIZE
    case _ => None
  }

  predicate Has(mask: bv32, field: bv32) {
    mask & field != 0
  }

  // ---------- the documents ----------

  function ErrorMessageDoc(e: ErrorMessage): Value {
    Obj([Member("errorCode", Num(e.errorCode)), Member("errorMessage", Str(e.errorMessage))])
  }

  function DescriptionDoc(d: DescriptionInfo): Value {
    Obj([Member("descriptionType", Num(d.descriptionType)), Member("content", Str(d.content))])
  }

  function DigestDoc(versionDigest: string): Value {
    Obj([Member("versionDigest", Str(versionDigest))])
  }

  /** The sizes are written as signed numbers, the effective mode as one of 32 bits. */
  function ComponentDoc(c: VersionComponent): Value {
    Obj([Member("componentId", Str(c.componentId)),
         Member("componentType", Num(c.componentType)),
         Member("upgradeAction", Str(c.upgradeAction)),
         Member("displayVersion", Str(c.displayVersion)),
         Member("innerVersion", Str(c.innerVersion)),
         Member("size", Num(ToInt64(c.size))),
         Member("effectiveMode", Num(ToInt32(c.effectiveMode))),
         Member("descriptionInfo", DescriptionDoc(c.descriptionInfo)),
         Member("componentExtra", Str(c.componentExtra))])
  }

  function ErrorMessageDocs(list: seq<ErrorMessage>): seq<Value> {
    seq(|list|, i requires 0 <= i < |list| => ErrorMessageDoc(list[i]))
  }

  function ComponentDocs(list: seq<VersionComponent>): seq<Value> {
    seq(|list|, i requires 0 <= i < |list| => ComponentDoc(list[i]))
  }

  /** A field of the task body, and whether it is to be written. */
  datatype Field = Field(member: Member, selected: bool)

  function Fields(b: TaskBody, mask: bv32): (r: seq<Field>)
    ensures |r| == 7
  {
    [Field(Member("versionDigestInfo", DigestDoc(b.versionDigest)), Has(mask, VERSION_DIGEST_INFO)),
     Field(Member("status", Num(b.status)), Has(mask, UPGRADE_STATUS)),
     Field(Member("subStatus", Num(b.subStatus)), Has(mask, SUB_STATUS)),
     Field(Member("progress", Num(b.progress)), Has(mask, PROGRESS)),
     Field(Member("installMode", Num(b.installMode)), Has(mask, INSTALL_MODE)),
     Field(Member("errorMessages", Arr(ErrorMessageDocs(b.errorMessages))),
           Has(mask, ERROR_MESSAGE) && b.errorMessages != []),
     Field(Member("versionComponents", Arr(ComponentDocs(b.versionComponents))),
           Has(mask, VERSION_COMPONENT) && b.versionComponents != [])]
  }

  function Selected(fields: seq<Field>): seq<Member>
    decreases |fields|
  {
    if fields == [] then []
    else
      var n := |fields| - 1;
      Selected(fields[..n]) + (if fields[n].selected then [fields[n].member] else [])
  }

  function BodyDoc(b: TaskBody, mask: bv32): Value {
    Obj(Selected(Fields(b, mask)))
  }

  function MaskedDoc(eventId: int, b: TaskBody, mask: bv32): Value {
    Obj([Member("eventId", Num(eventId)), Member("taskBody", BodyDoc(b, mask))])
  }

  function EventDoc(e: EventInfo): Value
    requires Template(e.eventId).Some?
  {
    MaskedDoc(e.eventId, e.taskBody, Template(e.eventId).value)
  }

  function TextAround(eventId: int, body: string): string {
    "{" + RenderMember(Member("eventId", Num(eventId))) + ",\"taskBody\":" + body + "}"
  }

  /** What the program makes of an event: for one it has no template for, there is nothing after the colon. */
  function EventText(e: EventInfo): string {
    TextAround(e.eventId, match Template(e.eventId)
                          case None => ""
                          case Some(mask) => Render(BodyDoc(e.taskBody, mask)))
  }

  // ---------- reading the text back ----------

  ghost predicate PlainErrors(list: seq<ErrorMessage>) {
    forall i :: 0 <= i < |list| ==> PlainString(list[i].errorMessage)
  }

  ghost predicate PlainComponent(c: VersionComponent) {
    && PlainString(c.componentId) && PlainString(c.upgradeAction) && PlainString(c.displayVersion)
    && PlainString(c.innerVersion) && PlainString(c.descriptionInfo.content) && PlainString(c.componentExtra)
  }

  ghost predicate PlainComponents(list: seq<VersionComponent>) {
    forall i :: 0 <= i < |list| ==> PlainComponent(list[i])
  }

  ghost predicate PlainBody(b: TaskBody, mask: bv32) {
    && (Has(mask, VERSION_DIGEST_INFO) ==> PlainString(b.versionDigest))
    && (Has(mask, ERROR_MESSAGE) ==> PlainErrors(b.errorMessages))
    && (Has(mask, VERSION_COMPONENT) ==> PlainComponents(b.versionComponents))
  }

  /** No string the event's template selects needs an escape. */
  ghost predicate PlainEvent(e: EventInfo) {
    Template(e.eventId).Some? && PlainBody(e.taskBody, Template(e.eventId).value)
  }

  ghost predicate PlainMember(m: Member) {
    PlainString(m.key) && Plain(m.value)
  }

  lemma SelectedSimple(fields: seq<Field>)
    requires forall i :: 0 <= i < |fields| ==> Simple(fields[i].member.value)
    ensures Simple(Obj(Selected(fields)))
    decreases |fields|
  {
    if fields != [] {
      SelectedSimple(fields[..|fields| - 1]);
    }
  }

  lemma {:induction false} SelectedPlain(fields: seq<Field>)
    ensures Plain(Obj(Selected(fields))) <==>
            forall i :: 0 <= i < |fields| && fields[i].selected ==> PlainMember(fields[i].member)
    decreases |fields|
  {
    if fields != [] {
      var n := |fields| - 1;
      var front, last := fields[..n], fields[n];
      SelectedPlain(front);
      PlainSnoc(Selected(front), last.member);
      assert Selected(front) + [] == Selected(front);
      assert forall i :: 0 <= i < n ==> front[i] == fields[i];
    }
  }

  lemma PlainSnoc(a: seq<Member>, m: Member)
    ensures Plain(Obj(a + [m])) <==> Plain(Obj(a)) && PlainMember(m)
  {
    var b := a + [m];
    assert b[|a|] == m && forall i :: 0 <= i < |a| ==> a[i] == b[i];
  }

  lemma PlainPair(m: Member, n: Member)
    ensures Plain(Obj([m, n])) <==> PlainMember(m) && PlainMember(n)
  {
    var ms := [m, n];
    assert ms[0] == m && ms[1] == n;
  }

  lemma ErrorKeys()
    ensures PlainString("errorCode") && PlainString("errorMessage")
  {
  }

  lemma DescriptionKeys()
    ensures PlainString("descriptionType") && PlainString("content")
  {
  }

  lemma ComponentKeys()
    ensures PlainString("componentId") && PlainString("componentType") && PlainString("upgradeAction")
    ensures PlainString("displayVersion") && PlainString("innerVersion") && PlainString("size")
    ensures PlainString("effectiveMode") && PlainString("descriptionInfo") && PlainString("componentExtra")
  {
  }

  lemma BodyKeys()
    ensures PlainString("versionDigestInfo") && PlainString("status") && PlainString("subStatus")
    ensures PlainString("progress") && PlainString("installMode") && PlainString("errorMessages")
    ensures PlainString("versionComponents") && PlainString("versionDigest")
    ensures PlainString("eventId") && PlainString("taskBody")
  {
  }

  lemma ErrorPlain(e: ErrorMessage)
    ensures Plain(ErrorMessageDoc(e)) <==> PlainString(e.errorMessage)
    ensures Simple(ErrorMessageDoc(e))
  {
    ErrorKeys();
    PlainPair(Member("errorCode", Num(e.errorCode)), Member("errorMessage", Str(e.errorMessage)));
  }

  lemma ErrorsPlain(list: seq<ErrorMessage>)
    ensures Plain(Arr(ErrorMessageDocs(list))) <==> PlainErrors(list)
    ensures Simple(Arr(ErrorMessageDocs(list)))
  {
    var docs := ErrorMessageDocs(list);
    forall i | 0 <= i < |list|
      ensures Simple(docs[i]) && (Plain(docs[i]) <==> PlainString(list[i].errorMessage))
    {
      ErrorPlain(list[i]);
    }
  }

  lemma DescriptionPlain(d: DescriptionInfo)
    ensures Plain(DescriptionDoc(d)) <==> PlainString(d.content)
    ensures Simple(DescriptionDoc(d))
  {
    DescriptionKeys();
    PlainPair(Member("descriptionType", Num(d.descriptionType)), Member("content", Str(d.content)));
  }

  lemma ComponentPlain(c: VersionComponent)
    ensures Plain(ComponentDoc(c)) <==> PlainComponent(c)
    ensures Simple(ComponentDoc(c))
  {
    ComponentKeys();
    DescriptionPlain(c.descriptionInfo);
    ComponentMembers(ComponentDoc(c).members, c);
  }

  lemma ComponentMembers(ms: seq<Member>, c: VersionComponent)
    requires |ms| == 9 && forall i :: 0 <= i < 9 ==> PlainString(ms[i].key)
    requires ms[0].value == Str(c.componentId) && ms[1].value.Num? && ms[2].value == Str(c.upgradeAction)
    requires ms[3].value == Str(c.displayVersion) && ms[4].value == Str(c.innerVersion)
    requires ms[5].value.Num? && ms[6].value.Num? && ms[7].value == DescriptionDoc(c.descriptionInfo)
    requires ms[8].value == Str(c.componentExtra)
    ensures Plain(Obj(ms)) <==>
            (Plain(ms[0].value) && Plain(ms[2].value) && Plain(ms[3].value) && Plain(ms[4].value) &&
             Plain(ms[7].value) && Plain(ms[8].value))
  {
  }

  lemma ComponentsPlain(list: seq<VersionComponent>)
    ensures Plain(Arr(ComponentDocs(list))) <==> PlainComponents(list)
    ensures Simple(Arr(ComponentDocs(list)))
  {
    var docs := ComponentDocs(list);
    forall i | 0 <= i < |list|
      ensures Simple(docs[i]) && (Plain(docs[i]) <==> PlainComponent(list[i]))
    {
      ComponentPlain(list[i]);
    }
  }

  lemma DigestPlain(versionDigest: string)
    ensures Plain(DigestDoc(versionDigest)) <==> PlainString(versionDigest)
    ensures Simple(DigestDoc(versionDigest))
  {
    BodyKeys();
    var m := Member("versionDigest", Str(versionDigest));
    PlainSnoc([], m);
    assert [] + [m] == [m];
  }

  lemma BodyPlain(b: TaskBody, mask: bv32)
    ensures Plain(BodyDoc(b, mask)) <==> PlainBody(b, mask)
    ensures Simple(BodyDoc(b, mask))
  {
    var fields := Fields(b, mask);
    BodySimple(b, mask);
    SelectedPlain(fields);
    FieldsPlain(fields);
    BodyMembers(b);
  }

  lemma BodySimple(b: TaskBody, mask: bv32)
    ensures Simple(BodyDoc(b, mask))
  {
    DigestPlain(b.versionDigest);
    ErrorsPlain(b.errorMessages);
    ComponentsPlain(b.versionComponents);
    SelectedSimple(Fields(b, mask));
  }

  /** Numbers need no escape; the other three fields need one if their strings do. */
  lemma BodyMembers(b: TaskBody)
    ensures PlainMember(Member("versionDigestInfo", DigestDoc(b.versionDigest))) <==> PlainString(b.versionDigest)
    ensures PlainMember(Member("status", Num(b.status))) && PlainMember(Member("subStatus", Num(b.subStatus)))
    ensures PlainMember(Member("progress", Num(b.progress)))
    ensures PlainMember(Member("installMode", Num(b.installMode)))
    ensures PlainMember(Member("errorMessages", Arr(ErrorMessageDocs(b.errorMessages)))) <==>
            PlainErrors(b.errorMessages)
    ensures PlainMember(Member("versionComponents", Arr(ComponentDocs(b.versionComponents)))) <==>
            PlainComponents(b.versionComponents)
  {
    BodyKeys();
    DigestPlain(b.versionDigest);
    ErrorsPlain(b.errorMessages);
    ComponentsPlain(b.versionComponents);
  }

  lemma FieldsPlain(f: seq<Field>)
    requires |f| == 7
    ensures (forall i :: 0 <= i < 7 && f[i].selected ==> PlainMember(f[i].member)) <==>
            && (f[0].selected ==> PlainMember(f[0].member)) && (f[1].selected ==> PlainMember(f[1].member))
            && (f[2].selected ==> PlainMember(f[2].member)) && (f[3].selected ==> PlainMember(f[3].member))
            && (f[4].selected ==> PlainMember(f[4].member)) && (f[5].selected ==> PlainMember(f[5].member))
            && (f[6].selected ==> PlainMember(f[6].member))
  {
  }

  lemma TextIsDoc(eventId: int, b: TaskBody, mask: bv32)
    ensures TextAround(eventId, Render(BodyDoc(b, mask))) == Render(MaskedDoc(eventId, b, mask))
  {
    PairText(Member("eventId", Num(eventId)), Member("taskBody", BodyDoc(b, mask)));
    BodyText(RenderMember(Member("eventId", Num(eventId))), Render(BodyDoc(b, mask)));
  }

  lemma PairText(first: Member, second: Member)
    ensures Render(Obj([first, second])) == "{" + (RenderMember(first) + ("," + (RenderMember(second) + "}")))
  {
    var ms := [first, second];
    assert ms[1..] == [second];
    assert RenderMembers([second]) == RenderMember(second) + "}";
  }

  lemma BodyText(first: string, body: string)
    ensures "{" + (first + ("," + ("\"" + "taskBody" + "\":" + body + "}"))) ==
            "{" + first + ",\"taskBody\":" + body + "}"
  {
    var middle := ",\"taskBody\":";
    assert "," + ("\"" + "taskBody" + "\":" + body + "}") == middle + (body + "}");
    Joined("{" + first, middle, body + "}");
    Joined("{", first, middle + (body + "}"));
    Joined("{" + first + middle, body, "}");
  }

  lemma MaskedParses(eventId: int, b: TaskBody, mask: bv32)
    ensures PlainBody(b, mask) <==>
            Parse(TextAround(eventId, Render(BodyDoc(b, mask)))) == Some(MaskedDoc(eventId, b, mask))
  {
    BodyKeys();
    BodyPlain(b, mask);
    TextIsDoc(eventId, b, mask);
    PlainPair(Member("eventId", Num(eventId)), Member("taskBody", BodyDoc(b, mask)));
    RenderParses(MaskedDoc(eventId, b, mask));
  }

  /** The text of an event is a JSON text that reads back as the fields its template selects if and only if the
      event has a template and no selected string needs an escape. */
  lemma EventParses(e: EventInfo)
    ensures PlainEvent(e) <==> Template(e.eventId).Some? && Parse(EventText(e)) == Some(EventDoc(e))
  {
    if Template(e.eventId).Some? {
      MaskedParses(e.eventId, e.taskBody, Template(e.eventId).value);
    }
  }

  /** An event without a template gives no JSON text at all. */
  lemma UnknownEventInvalid(e: EventInfo)
    requires Template(e.eventId).None?
    ensures Parse(EventText(e)) == None
  {
    UnfinishedInvalid(e.eventId);
  }

  lemma UnfinishedInvalid(eventId: int)
    ensures Parse(TextAround(eventId, "")) == None
  {
    var m := Member("eventId", Num(eventId));
    var after := "\"taskBody\":" + "}";
    var text := RenderMember(m) + ("," + after);
    UnfinishedText(RenderMember(m), text);
    BodyKeys();
    MemberFramed(m, "," + after);
    UnfinishedMember();
    NoNextMember(text, m, after);
    NoObject("{" + text, text);
  }

  lemma UnfinishedText(first: string, text: string)
    requires text == first + ("," + ("\"taskBody\":" + "}"))
    ensures "{" + first + ",\"taskBody\":" + "" + "}" == "{" + text
  {
  }

  lemma NoObject(whole: string, text: string)
    requires whole == "{" + text && Begins(text, '"') && ParseMembers(text) == None
    ensures Parse(whole) == None
  {
    ObjectText(text);
    assert Skip(whole) == whole;
  }

  lemma NoNextMember(text: string, m: Member, after: string)
    requires ParseMember(text) == Some((m, "," + after)) && Begins(after, '"') && ParseMembers(after) == None
    ensures ParseMembers(text) == None
  {
    var t := "," + after;
    assert Skip(t) == t && t[1..] == after && Skip(after) == after;
  }

  lemma UnfinishedMember()
    ensures ParseMembers("\"taskBody\":" + "}") == None
  {
    var text := "\"taskBody\":" + "}";
    BodyKeys();
    CharsFramed("taskBody", ":" + "}");
    assert text[1..] == "taskBody" + "\"" + (":" + "}");
    NothingAfterColon(text, "taskBody");
  }

  lemma NothingAfterColon(text: string, key: string)
    requires Begins(text, '"') && ParseChars(text[1..]) == Some((key, ":" + "}"))
    ensures ParseMembers(text) == None
  {
    var t := ":" + "}";
    assert Skip(t) == t && t[1..] == "}" && Skip("}") == "}";
    assert ParseUnsigned("}") == None;
  }

  // ---------- what a reader of the document finds ----------

  function Find(members: seq<Member>, key: string): Option<Value>
    decreases |members|
  {
    if members == [] then None
    else
      var n := |members| - 1;
      if members[n].key == key then Some(members[n].value) else Find(members[..n], key)
  }

  ghost predicate DistinctKeys(fields: seq<Field>) {
    forall i, j :: 0 <= i < j < |fields| ==> fields[i].member.key != fields[j].member.key
  }

  lemma {:induction false} FindAbsent(fields: seq<Field>, key: string)
    requires forall i :: 0 <= i < |fields| ==> fields[i].member.key != key
    ensures Find(Selected(fields), key) == None
    decreases |fields|
  {
    if fields != [] {
      var n := |fields| - 1;
      FindAbsent(fields[..n], key);
      FindLast(Selected(fields[..n]), fields[n].member, key);
    }
  }

  lemma FindLast(members: seq<Member>, m: Member, key: string)
    ensures Find(members + [m], key) == if m.key == key then Some(m.value) else Find(members, key)
    ensures members + [] == members
  {
    assert (members + [m])[..|members|] == members;
  }

  /** A selected field is found under its key, any other is absent. */
  lemma {:induction false} FindSelected(fields: seq<Field>, i: nat)
    requires i < |fields| && DistinctKeys(fields)
    ensures Find(Selected(fields), fields[i].member.key) ==
            if fields[i].selected then Some(fields[i].member.value) else None
    decreases |fields|
  {
    var n := |fields| - 1;
    var front := fields[..n];
    FindLast(Selected(front), fields[n].member, fields[i].member.key);
    if i == n {
      FindAbsent(front, fields[n].member.key);
    } else {
      FindSelected(front, i);
    }
  }

  lemma FieldKeys(b: TaskBody, mask: bv32)
    ensures DistinctKeys(Fields(b, mask))
  {
    var f := Fields(b, mask);
    assert |f[0].member.key| == 17 && |f[1].member.key| == 6 && |f[2].member.key| == 9;
    assert |f[3].member.key| == 8 && |f[4].member.key| == 11 && |f[5].member.key| == 13;
    assert f[6].member.key[0] == 'v' && f[0].member.key[7] == 'D' && f[6].member.key[7] == 'C';
  }

  /** Each field of the body is in the document exactly if the template selects it and, for a list, it has
      elements. */
  lemma BodyFields(b: TaskBody, mask: bv32)
    ensures var ms := BodyDoc(b, mask).members;
            && Find(ms, "versionDigestInfo") ==
               (if Has(mask, VERSION_DIGEST_INFO) then Some(DigestDoc(b.versionDigest)) else None)
            && Find(ms, "status") == (if Has(mask, UPGRADE_STATUS) then Some(Num(b.status)) else None)
            && Find(ms, "subStatus") == (if Has(mask, SUB_STATUS) then Some(Num(b.subStatus)) else None)
            && Find(ms, "progress") == (if Has(mask, PROGRESS) then Some(Num(b.progress)) else None)
            && Find(ms, "installMode") == (if Has(mask, INSTALL_MODE) then Some(Num(b.installMode)) else None)
            && Find(ms, "errorMessages") ==
               (if Has(mask, ERROR_MESSAGE) && b.errorMessages != []
                then Some(Arr(ErrorMessageDocs(b.errorMessages))) else None)
            && Find(ms, "versionComponents") ==
               (if Has(mask, VERSION_COMPONENT) && b.versionComponents != []
                then Some(Arr(ComponentDocs(b.versionComponents))) else None)
  {
    var f := Fields(b, mask);
    FieldKeys(b, mask);
    FindSelected(f, 0);
    FindSelected(f, 1);
    FindSelected(f, 2);
    FindSelected(f, 3);
    FindSelected(f, 4);
    FindSelected(f, 5);
    FindSelected(f, 6);
  }

  // ---------- event by event ----------

  /** An event has a template exactly if it is one of the twenty after the base. */
  lemma KnownEvents(eventId: int32)
    ensures Template(eventId).Some? <==> 1 <= eventId - 0x01000000 <= 20
  {
  }

  lemma DigestEvents(eventId: int32)
    requires Template(eventId).Some?
    ensures Has(Template(eventId).value, VERSION_DIGEST_INFO) <==> eventId - 0x01000000 != 20
  {
  }

  lemma StatusEvents(eventId: int32)
    requires Template(eventId).Some?
    ensures Has(Template(eventId).value, UPGRADE_STATUS) <==>
            eventId - 0x01000000 in {3, 5, 6, 7, 10, 11, 12, 13, 17, 18, 19, 20}
  {
  }

  lemma SubStatusEvents(eventId: int32)
    requires Template(eventId).Some?
    ensures !Has(Template(eventId).value, SUB_STATUS)
  {
  }

  lemma ProgressEvents(eventId: int32)
    requires Template(eventId).Some?
    ensures Has(Template(eventId).value, PROGRESS) <==> eventId - 0x01000000 in {5, 6, 7, 12}
  {
  }

  lemma InstallModeEvents(eventId: int32)
    requires Template(eventId).Some?
    ensures Has(Template(eventId).value, INSTALL_MODE) <==> 3 <= eventId - 0x01000000 <= 12
  {
  }

  lemma ErrorEvents(eventId: int32)
    requires Template(eventId).Some?
    ensures Has(Template(eventId).value, ERROR_MESSAGE) <==> eventId - 0x01000000 in {6, 9, 10, 13, 16}
  {
  }

  lemma ComponentEvents(eventId: int32)
    requires Template(eventId).Some?
    ensures Has(Template(eventId).value, VERSION_COMPONENT) <==> 15 <= eventId - 0x01000000 <= 18
  {
  }

  /** No string of the event at all needs an escape. */
  ghost predicate AllPlain(b: TaskBody) {
    PlainString(b.versionDigest) && PlainErrors(b.errorMessages) && PlainComponents(b.versionComponents)
  }

  function Carried(present: bool, v: Value): Option<Value> {
    if present then Some(v) else None
  }

  /** What a reader of an event's text finds, for every one of the twenty events, by its distance from the base. The
      digest is in all but the last; the status in those of waiting, progress, pause, resumption, cancellation,
      authentication and initialization; the progress in the updates of download and upgrade, in pause and in
      resumption; the install mode from waiting for the download to the update of the upgrade; errors and components,
      if there are any, where they are due; and the sub-status in none. */
  lemma EventRead(e: EventInfo)
    requires 1 <= e.eventId - 0x01000000 <= 20 && AllPlain(e.taskBody)
    ensures var d, b := e.eventId - 0x01000000, e.taskBody;
            var doc := Parse(EventText(e));
            && doc.Some? && doc.value.Obj? && |doc.value.members| == 2
            && doc.value.members[0] == Member("eventId", Num(e.eventId))
            && doc.value.members[1].key == "taskBody" && doc.value.members[1].value.Obj?
            && var ms := doc.value.members[1].value.members;
               && Find(ms, "versionDigestInfo") ==
                  Carried(d != 20, Obj([Member("versionDigest", Str(b.versionDigest))]))
               && Find(ms, "status") ==
                  Carried(d in {3, 5, 6, 7, 10, 11, 12, 13, 17, 18, 19, 20}, Num(b.status))
               && Find(ms, "subStatus") == None
               && Find(ms, "progress") == Carried(d in {5, 6, 7, 12}, Num(b.progress))
               && Find(ms, "installMode") == Carried(3 <= d <= 12, Num(b.installMode))
               && Find(ms, "errorMessages") ==
                  Carried(d in {6, 9, 10, 13, 16} && b.errorMessages != [], Arr(ErrorMessageDocs(b.errorMessages)))
               && Find(ms, "versionComponents") ==
                  Carried(15 <= d <= 18 && b.versionComponents != [], Arr(ComponentDocs(b.versionComponents)))
  {
    KnownEvents(e.eventId);
    var mask := Template(e.eventId).value;
    EventParses(e);
    BodyFields(e.taskBody, mask);
    DigestEvents(e.eventId);
    StatusEvents(e.eventId);
    SubStatusEvents(e.eventId);
    ProgressEvents(e.eventId);
    InstallModeEvents(e.eventId);
    ErrorEvents(e.eventId);
    ComponentEvents(e.eventId);
  }

  /** The documents of the list elements, key by key. */
  lemma ElementsRead(m: ErrorMessage, c: VersionComponent)
    ensures ErrorMessageDoc(m) ==
            Obj([Member("errorCode", Num(m.errorCode)), Member("errorMessage", Str(m.errorMessage))])
    ensures ComponentDoc(c).Obj?
    ensures var ms := ComponentDoc(c).members;
            && |ms| == 9
            && ms[0] == Member("componentId", Str(c.componentId))
            && ms[1] == Member("componentType", Num(c.componentType))
            && ms[2] == Member("upgradeAction", Str(c.upgradeAction))
            && ms[3] == Member("displayVersion", Str(c.displayVersion))
            && ms[4] == Member("innerVersion", Str(c.innerVersion))
            && ms[5] == Member("size", Num(if c.size < TWO_63 then c.size else c.size - TWO_64))
            && ms[6].key == "effectiveMode"
            && (c.effectiveMode < TWO_31 ==> ms[6].value == Num(c.effectiveMode))
            && ms[7] == Member("descriptionInfo",
                               Obj([Member("descriptionType", Num(c.descriptionInfo.descriptionType)),
                                    Member("content", Str(c.descriptionInfo.content))]))
            && ms[8] == Member("componentExtra", Str(c.componentExtra))
  {
  }
}
