/** JSON texts as RFC 8259 defines them: a parser of the whole grammar, and the text an unescaping writer makes
    of a value. */
module Json {
  import opened Structs
  import opened Decimal

  datatype Member = Member(key: string, value: Value)

  /** A number with a fraction or an exponent is kept as its text. */
  datatype Value =
    | Null
    | Bool(flag: bool)
    | Num(number: int)
    | Fraction(text: string)
    | Str(chars: string)
    | Arr(items: seq<Value>)
    | Obj(members: seq<Member>)

  // ---------- characters ----------

  predicate PlainChar(c: char) {
    c >= ' ' && c != '"' && c != '\\'
  }

  predicate PlainString(s: string) {
    forall i :: 0 <= i < |s| ==> PlainChar(s[i])
  }

  predicate IsSpace(c: char) {
    c == ' ' || c == '\t' || c == '\n' || c == '\r'
  }

  function Skip(s: string): (r: string)
    ensures |r| <= |s|
    ensures s != "" && !IsSpace(s[0]) ==> r == s
  {
    if s != "" && IsSpace(s[0]) then Skip(s[1..]) else s
  }

  predicate Begins(s: string, c: char) {
    s != "" && s[0] == c
  }

  function HexValue(c: char): (r: Option<nat>)
    ensures r.Some? ==> r.value < 16
  {
    if '0' <= c <= '9' then Some(c as int - '0' as int)
    else if 'a' <= c <= 'f' then Some(c as int - 'a' as int + 10)
    else if 'A' <= c <= 'F' then Some(c as int - 'A' as int + 10)
    else None
  }

  function HexPair(c: char, d: char): (r: Option<nat>)
    ensures r.Some? ==> r.value < 0x100
  {
    var high, low := HexValue(c), HexValue(d);
    if high.None? || low.None? then None else Some(high.value * 16 + low.value)
  }

  /** The code unit of four hexadecimal digits. */
  function CodeUnit(s: string): (r: Option<nat>)
    ensures r.Some? ==> |s| >= 4 && r.value < 0x10000
  {
    if |s| < 4 then None
    else
      var high, low := HexPair(s[0], s[1]), HexPair(s[2], s[3]);
      if high.None? || low.None? then None else Some(high.value * 0x100 + low.value)
  }

  /** What follows a backslash: the character meant, and how much text says so. A high surrogate takes the low
      one escaped after it; a surrogate by itself means the replacement character. */
  function Escape(s: string): (r: Option<(char, nat)>)
    ensures r.Some? ==> 1 <= r.value.1 <= |s|
  {
    if s == "" then None
    else
      match s[0]
      case '"' => Some(('"', 1))
      case '\\' => Some(('\\', 1))
      case '/' => Some(('/', 1))
      case 'b' => Some((8 as char, 1))
      case 'f' => Some((12 as char, 1))
      case 'n' => Some(('\n', 1))
      case 'r' => Some(('\r', 1))
      case 't' => Some(('\t', 1))
      case 'u' => UnicodeEscape(s)
      case _ => None
  }

  function UnicodeEscape(s: string): (r: Option<(char, nat)>)
    requires s != ""
    ensures r.Some? ==> 1 <= r.value.1 <= |s|
  {
    var unit := CodeUnit(s[1..]);
    if unit.None? then None
    else if unit.value < 0xD800 || 0xE000 <= unit.value then Some((unit.value as char, 5))
    else
      var low := if unit.value < 0xDC00 && |s| >= 11 && s[5] == '\\' && s[6] == 'u' then CodeUnit(s[7..]) else None;
      if low.Some? && 0xDC00 <= low.value < 0xE000
      then Some((((unit.value - 0xD800) * 0x400 + (low.value - 0xDC00) + 0x10000) as char, 11))
      else Some((0xFFFD as char, 5))
  }

  // ---------- the least text a value can have ----------

  function StringWeight(s: string): nat {
    if s == "" then 0 else (if PlainChar(s[0]) then 1 else 2) + StringWeight(s[1..])
  }

  function Weight(v: Value): (r: nat)
    ensures r > 0
    decreases v
  {
    match v
    case Null => 4
    case Bool(_) => 4
    case Num(n) => |IntText(n)|
    case Fraction(text) => if text == "" then 1 else |text|
    case Str(s) => StringWeight(s) + 2
    case Arr(items) => if items == [] then 2 else 1 + ItemsWeight(items)
    case Obj(members) => if members == [] then 2 else 1 + MembersWeight(members)
  }

  /** Each item with the comma or bracket after it. */
  function ItemsWeight(items: seq<Value>): nat
    decreases items
  {
    if items == [] then 0 else Weight(items[0]) + 1 + ItemsWeight(items[1..])
  }

  function MembersWeight(members: seq<Member>): nat
    decreases members
  {
    if members == [] then 0
    else StringWeight(members[0].key) + 3 + Weight(members[0].value) + 1 + MembersWeight(members[1..])
  }

  // ---------- the parser ----------

  /** The rest of a string, from after its opening quotation mark. */
  function ParseChars(s: string): (r: Option<(string, string)>)
    ensures r.Some? ==> |r.value.1| + StringWeight(r.value.0) + 1 <= |s|
    decreases |s|
  {
    if s == "" || s[0] < ' ' then None
    else if s[0] == '"' then Some(("", s[1..]))
    else if s[0] == '\\' then
      var e := Escape(s[1..]);
      if e.None? then None
      else
        var rest := ParseChars(s[1 + e.value.1..]);
        if rest.None? then None
        else
          assert ([e.value.0] + rest.value.0)[1..] == rest.value.0;
          Some(([e.value.0] + rest.value.0, rest.value.1))
    else
      var rest := ParseChars(s[1..]);
      if rest.None? then None
      else
        assert ([s[0]] + rest.value.0)[1..] == rest.value.0;
        Some(([s[0]] + rest.value.0, rest.value.1))
  }

  /** The length of a fraction part at the front of `s`; none if it is malformed. */
  function FractionLength(s: string): (r: Option<nat>)
    ensures r.Some? ==> r.value <= |s|
  {
    if !Begins(s, '.') then Some(0)
    else
      var k := Span(s[1..]);
      if k == 0 then None else Some(k + 1)
  }

  function ExponentLength(s: string): (r: Option<nat>)
    ensures r.Some? ==> r.value <= |s|
  {
    if !Begins(s, 'e') && !Begins(s, 'E') then Some(0)
    else
      var sign := if Begins(s[1..], '+') || Begins(s[1..], '-') then 1 else 0;
      var k := Span(s[1 + sign..]);
      if k == 0 then None else Some(1 + sign + k)
  }

  function ParseUnsigned(s: string): (r: Option<(Value, string)>)
    ensures r.Some? ==> |r.value.1| + Weight(r.value.0) <= |s|
    ensures r.Some? ==> r.value.0.Fraction? || (r.value.0.Num? && r.value.0.number >= 0)
  {
    var k := Span(s);
    if k == 0 || (k > 1 && s[0] == '0') then None
    else
      var fraction := FractionLength(s[k..]);
      if fraction.None? then None
      else
        var exponent := ExponentLength(s[k + fraction.value..]);
        if exponent.None? then None
        else
          var end := k + fraction.value + exponent.value;
          if end == k then
            DigitsShortest(s[..k]);
            Some((Num(Decimal.Value(s[..k])), s[k..]))
          else Some((Fraction(s[..end]), s[end..]))
  }

  function ParseNumber(s: string): (r: Option<(Value, string)>)
    ensures r.Some? ==> |r.value.1| + Weight(r.value.0) <= |s|
  {
    if !Begins(s, '-') then ParseUnsigned(s)
    else
      var r := ParseUnsigned(s[1..]);
      if r.None? then None
      else if r.value.0.Num? then Some((Num(-r.value.0.number), r.value.1))
      else Some((Fraction("-" + r.value.0.text), r.value.1))
  }

  function ParseWord(s: string, word: string, v: Value): (r: Option<(Value, string)>)
    requires Weight(v) <= |word|
    ensures r.Some? ==> |r.value.1| + Weight(r.value.0) <= |s|
  {
    if word <= s then Some((v, s[|word|..])) else None
  }

  /** A value, spaces before it already gone. */
  function ParseValue(s: string): (r: Option<(Value, string)>)
    ensures r.Some? ==> |r.value.1| + Weight(r.value.0) <= |s|
    decreases |s|, 1
  {
    if s == "" then None
    else
      match s[0]
      case '{' =>
        var t := Skip(s[1..]);
        if Begins(t, '}') then Some((Obj([]), t[1..]))
        else
          var r := ParseMembers(t);
          if r.None? then None else Some((Obj(r.value.0), r.value.1))
      case '[' =>
        var t := Skip(s[1..]);
        if Begins(t, ']') then Some((Arr([]), t[1..]))
        else
          var r := ParseItems(t);
          if r.None? then None else Some((Arr(r.value.0), r.value.1))
      case '"' =>
        var r := ParseChars(s[1..]);
        if r.None? then None else Some((Str(r.value.0), r.value.1))
      case 'n' => ParseWord(s, "null", Null)
      case 't' => ParseWord(s, "true", Bool(true))
      case 'f' => ParseWord(s, "false", Bool(false))
      case _ => ParseNumber(s)
  }

  /** The items of an array that has some, and its closing bracket. */
  function ParseItems(s: string): (r: Option<(seq<Value>, string)>)
    ensures r.Some? ==> r.value.0 != [] && |r.value.1| + ItemsWeight(r.value.0) <= |s|
    decreases |s|, 2
  {
    var first := ParseValue(s);
    if first.None? then None
    else
      var (v, rest) := first.value;
      var t := Skip(rest);
      if Begins(t, ']') then Some(([v], t[1..]))
      else if Begins(t, ',') then
        var more := ParseItems(Skip(t[1..]));
        if more.None? then None
        else
          assert ([v] + more.value.0)[1..] == more.value.0;
          Some(([v] + more.value.0, more.value.1))
      else None
  }

  /** The members of an object that has some, and its closing brace. */
  function ParseMembers(s: string): (r: Option<(seq<Member>, string)>)
    ensures r.Some? ==> r.value.0 != [] && |r.value.1| + MembersWeight(r.value.0) <= |s|
    decreases |s|, 2
  {
    var first := ParseMember(s);
    if first.None? then None
    else
      var (m, rest) := first.value;
      var t := Skip(rest);
      if Begins(t, '}') then Some(([m], t[1..]))
      else if Begins(t, ',') then
        var more := ParseMembers(Skip(t[1..]));
        if more.None? then None
        else
          assert ([m] + more.value.0)[1..] == more.value.0;
          Some(([m] + more.value.0, more.value.1))
      else None
  }

  function ParseMember(s: string): (r: Option<(Member, string)>)
    ensures r.Some? ==>
              |r.value.1| + StringWeight(r.value.0.key) + 3 + Weight(r.value.0.value) <= |s|
    decreases |s|, 1
  {
    if !Begins(s, '"') then None
    else
      var key := ParseChars(s[1..]);
      if key.None? then None
      else
        var t := Skip(key.value.1);
        if !Begins(t, ':') then None
        else
          var r := ParseValue(Skip(t[1..]));
          if r.None? then None else Some((Member(key.value.0, r.value.0), r.value.1))
  }

  /** A whole text: one value, spaces around it. */
  function Parse(s: string): (r: Option<Value>)
    ensures r.Some? ==> Weight(r.value) <= |s|
  {
    var r := ParseValue(Skip(s));
    if r.Some? && Skip(r.value.1) == "" then Some(r.value.0) else None
  }

  // ---------- the writer ----------

  /** The text without any escaping. */
  function Render(v: Value): string
    decreases v
  {
    match v
    case Null => "null"
    case Bool(flag) => if flag then "true" else "false"
    case Num(n) => IntText(n)
    case Fraction(text) => text
    case Str(s) => "\"" + s + "\""
    case Arr(items) => "[" + (if items == [] then "]" else RenderItems(items))
    case Obj(members) => "{" + (if members == [] then "}" else RenderMembers(members))
  }

  function RenderItems(items: seq<Value>): string
    requires items != []
    decreases items
  {
    Render(items[0]) + (if |items| == 1 then "]" else "," + RenderItems(items[1..]))
  }

  function RenderMember(m: Member): string
    decreases m
  {
    "\"" + m.key + "\":" + Render(m.value)
  }

  function RenderMembers(members: seq<Member>): string
    requires members != []
    decreases members
  {
    RenderMember(members[0]) + (if |members| == 1 then "}" else "," + RenderMembers(members[1..]))
  }

  /** Whole numbers, strings, arrays and objects. */
  predicate Simple(v: Value)
    decreases v
  {
    match v
    case Num(_) => true
    case Str(_) => true
    case Arr(items) => forall i :: 0 <= i < |items| ==> Simple(items[i])
    case Obj(members) => forall i :: 0 <= i < |members| ==> Simple(members[i].value)
    case _ => false
  }

  /** No string in the value needs an escape. */
  predicate Plain(v: Value)
    decreases v
  {
    match v
    case Str(s) => PlainString(s)
    case Arr(items) => forall i :: 0 <= i < |items| ==> Plain(items[i])
    case Obj(members) => forall i :: 0 <= i < |members| ==> PlainString(members[i].key) && Plain(members[i].value)
    case _ => true
  }

  // ---------- a plain value is read back ----------

  predicate EndsNumber(rest: string) {
    rest == "" || (!IsDigit(rest[0]) && rest[0] !in {'.', 'e', 'E'})
  }

  lemma {:induction false} CharsFramed(s: string, rest: string)
    requires PlainString(s)
    ensures ParseChars(s + "\"" + rest) == Some((s, rest))
    decreases |s|
  {
    var text := s + "\"" + rest;
    if s == "" {
      assert text == "\"" + rest && text[1..] == rest;
    } else {
      assert PlainChar(s[0]);
      assert text[0] == s[0] && text[1..] == s[1..] + "\"" + rest;
      CharsFramed(s[1..], rest);
      assert [s[0]] + s[1..] == s;
    }
  }

  lemma UnsignedFramed(n: nat, rest: string)
    requires EndsNumber(rest)
    ensures ParseUnsigned(Digits(n) + rest) == Some((Num(n), rest))
  {
    var digits := Digits(n);
    var text, k := digits + rest, |digits|;
    ValueOfDigits(n);
    SpanOfDigits(digits, rest);
    assert text[..k] == digits && text[k..] == rest && text[0] == digits[0];
    NoFraction(rest);
  }

  lemma NumberFramed(n: int, rest: string)
    requires EndsNumber(rest)
    ensures ParseNumber(IntText(n) + rest) == Some((Num(n), rest))
  {
    if n < 0 {
      NegativeFramed(-n, rest);
    } else {
      NaturalFramed(n, rest);
    }
  }

  lemma NaturalFramed(n: nat, rest: string)
    requires EndsNumber(rest)
    ensures ParseNumber(Digits(n) + rest) == Some((Num(n), rest))
  {
    UnsignedFramed(n, rest);
    assert IsDigit(Digits(n)[0]);
    assert !Begins(Digits(n) + rest, '-');
  }

  lemma NegativeFramed(n: nat, rest: string)
    requires EndsNumber(rest)
    ensures ParseNumber("-" + Digits(n) + rest) == Some((Num(0 - n), rest))
  {
    UnsignedFramed(n, rest);
    var text, t := "-" + Digits(n) + rest, Digits(n) + rest;
    assert Begins(text, '-') && text[1..] == t;
  }

  lemma NoFraction(rest: string)
    requires EndsNumber(rest)
    ensures FractionLength(rest) == Some(0) && ExponentLength(rest) == Some(0)
  {
  }

  lemma ArrayText(t: string)
    requires t != "" && !IsSpace(t[0]) && t[0] != ']'
    ensures ParseValue("[" + t) ==
            var r := ParseItems(t); if r.None? then None else Some((Arr(r.value.0), r.value.1))
  {
    assert ("[" + t)[1..] == t;
  }

  lemma ObjectText(t: string)
    requires t != "" && !IsSpace(t[0]) && t[0] != '}'
    ensures ParseValue("{" + t) ==
            var r := ParseMembers(t); if r.None? then None else Some((Obj(r.value.0), r.value.1))
  {
    assert ("{" + t)[1..] == t;
  }

  lemma EmptyFramed(rest: string)
    ensures ParseValue("[]" + rest) == Some((Arr([]), rest))
    ensures ParseValue("{}" + rest) == Some((Obj([]), rest))
  {
    assert ("[]" + rest)[1..] == "]" + rest && ("]" + rest)[1..] == rest;
    assert ("{}" + rest)[1..] == "}" + rest && ("}" + rest)[1..] == rest;
  }

  lemma StringFramed(s: string, rest: string)
    requires PlainString(s)
    ensures ParseValue("\"" + s + "\"" + rest) == Some((Str(s), rest))
  {
    var text := "\"" + s + "\"" + rest;
    assert text[0] == '"' && text[1..] == s + "\"" + rest;
    CharsFramed(s, rest);
  }

  lemma IntFramed(n: int, rest: string)
    requires EndsNumber(rest)
    ensures ParseValue(IntText(n) + rest) == Some((Num(n), rest))
  {
    NumberFramed(n, rest);
    IntStart(n);
    assert (IntText(n) + rest)[0] == IntText(n)[0];
  }

  lemma IntStart(n: int)
    ensures IntText(n) != "" && (IsDigit(IntText(n)[0]) || IntText(n)[0] == '-')
  {
    assert IsDigit(Digits(if n < 0 then -n else n)[0]);
  }

  lemma ArrayFramed(items: seq<Value>, rest: string)
    requires items != [] ==> Simple(items[0]) && ParseItems(RenderItems(items) + rest) == Some((items, rest))
    ensures ParseValue(Render(Arr(items)) + rest) == Some((Arr(items), rest))
  {
    if items == [] {
      EmptyFramed(rest);
      assert Render(Arr(items)) == "[]";
    } else {
      var t := RenderItems(items) + rest;
      ItemsStart(items, rest);
      ArrayText(t);
      Joined("[", RenderItems(items), rest);
    }
  }

  lemma ObjectFramed(members: seq<Member>, rest: string)
    requires members != [] ==> ParseMembers(RenderMembers(members) + rest) == Some((members, rest))
    ensures ParseValue(Render(Obj(members)) + rest) == Some((Obj(members), rest))
  {
    if members == [] {
      EmptyFramed(rest);
      assert Render(Obj(members)) == "{}";
    } else {
      var t := RenderMembers(members) + rest;
      MembersStart(members, rest);
      ObjectText(t);
      Joined("{", RenderMembers(members), rest);
    }
  }

  /** What is written of a plain value is read back as that value, and the text after it is left. */
  lemma {:induction false} ValueFramed(v: Value, rest: string)
    requires Simple(v) && Plain(v) && EndsNumber(rest)
    ensures ParseValue(Render(v) + rest) == Some((v, rest))
    decreases v
  {
    match v
    case Num(n) => IntFramed(n, rest);
    case Str(s) => StringFramed(s, rest);
    case Arr(items) =>
      if items != [] {
        ItemsFramed(items, rest);
      }
      ArrayFramed(items, rest);
    case Obj(members) =>
      if members != [] {
        MembersFramed(members, rest);
      }
      ObjectFramed(members, rest);
  }

  lemma MembersStart(members: seq<Member>, rest: string)
    requires members != []
    ensures Begins(RenderMembers(members) + rest, '"')
  {
    assert RenderMember(members[0])[0] == '"';
  }

  lemma ItemsStart(items: seq<Value>, rest: string)
    requires items != [] && Simple(items[0])
    ensures var t := RenderItems(items) + rest; t != "" && !IsSpace(t[0]) && t[0] != ']'
  {
    ValueStart(items[0]);
    assert (RenderItems(items) + rest)[0] == Render(items[0])[0];
  }

  lemma ValueStart(v: Value)
    requires Simple(v)
    ensures var t := Render(v); t != "" && !IsSpace(t[0]) && t[0] != ']' && t[0] != '}' && t[0] != ','
  {
    if v.Num? {
      assert IsDigit(IntText(v.number)[0]) || IntText(v.number)[0] == '-';
    }
  }

  lemma {:induction false} ItemsFramed(items: seq<Value>, rest: string)
    requires items != [] && forall i :: 0 <= i < |items| ==> Simple(items[i]) && Plain(items[i])
    ensures ParseItems(RenderItems(items) + rest) == Some((items, rest))
    decreases items
  {
    var text, v := RenderItems(items) + rest, items[0];
    if |items| == 1 {
      assert text == Render(v) + ("]" + rest);
      ValueFramed(v, "]" + rest);
      LastItem(text, v, rest);
      assert items == [v];
    } else {
      var after := RenderItems(items[1..]) + rest;
      assert text == Render(v) + ("," + after);
      ValueFramed(v, "," + after);
      ItemsStart(items[1..], rest);
      ItemsFramed(items[1..], rest);
      NextItem(text, v, items[1..], after, rest);
      assert items == [v] + items[1..];
    }
  }

  lemma LastItem(text: string, v: Value, rest: string)
    requires ParseValue(text) == Some((v, "]" + rest))
    ensures ParseItems(text) == Some(([v], rest))
  {
    assert ("]" + rest)[1..] == rest;
  }

  lemma NextItem(text: string, v: Value, more: seq<Value>, after: string, rest: string)
    requires ParseValue(text) == Some((v, "," + after))
    requires after != "" && !IsSpace(after[0]) && ParseItems(after) == Some((more, rest))
    ensures ParseItems(text) == Some(([v] + more, rest))
  {
    assert ("," + after)[1..] == after;
  }

  lemma {:induction false} MemberFramed(m: Member, rest: string)
    requires Simple(m.value) && PlainString(m.key) && Plain(m.value) && EndsNumber(rest)
    ensures ParseMember(RenderMember(m) + rest) == Some((m, rest))
    decreases m
  {
    var text := RenderMember(m) + rest;
    var after := Render(m.value) + rest;
    assert text[0] == '"' && text[1..] == m.key + "\"" + (":" + after);
    CharsFramed(m.key, ":" + after);
    assert (":" + after)[1..] == after;
    ValueStart(m.value);
    assert after[0] == Render(m.value)[0];
    ValueFramed(m.value, rest);
  }

  lemma {:induction false} MembersFramed(members: seq<Member>, rest: string)
    requires members != []
    requires forall i :: 0 <= i < |members| ==>
               Simple(members[i].value) && PlainString(members[i].key) && Plain(members[i].value)
    ensures ParseMembers(RenderMembers(members) + rest) == Some((members, rest))
    decreases members
  {
    var text, m := RenderMembers(members) + rest, members[0];
    MembersSplit(members, rest);
    if |members| == 1 {
      MemberFramed(m, "}" + rest);
      LastMember(text, m, rest);
      assert members == [m];
    } else {
      var after := RenderMembers(members[1..]) + rest;
      MemberFramed(m, "," + after);
      MembersStart(members[1..], rest);
      MembersFramed(members[1..], rest);
      NextMember(text, m, members[1..], after, rest);
      assert members == [m] + members[1..];
    }
  }

  lemma MembersSplit(members: seq<Member>, rest: string)
    requires members != []
    ensures RenderMembers(members) + rest ==
            RenderMember(members[0]) +
            (if |members| == 1 then "}" + rest else "," + (RenderMembers(members[1..]) + rest))
  {
    var first := RenderMember(members[0]);
    if |members| == 1 {
      Joined(first, "}", rest);
    } else {
      Joined(first, "," + RenderMembers(members[1..]), rest);
      Joined(",", RenderMembers(members[1..]), rest);
    }
  }

  lemma Joined(a: string, b: string, c: string)
    ensures a + b + c == a + (b + c)
  {
  }

  lemma LastMember(text: string, m: Member, rest: string)
    requires ParseMember(text) == Some((m, "}" + rest))
    ensures ParseMembers(text) == Some(([m], rest))
  {
    assert ("}" + rest)[1..] == rest;
  }

  lemma NextMember(text: string, m: Member, more: seq<Member>, after: string, rest: string)
    requires ParseMember(text) == Some((m, "," + after))
    requires Begins(after, '"') && ParseMembers(after) == Some((more, rest))
    ensures ParseMembers(text) == Some(([m] + more, rest))
  {
    var t := "," + after;
    assert Skip(t) == t && t[1..] == after && Skip(after) == after;
  }

  // ---------- any other value is not ----------

  lemma {:induction false} StringWeights(s: string)
    ensures StringWeight(s) >= |s|
    ensures StringWeight(s) == |s| <==> PlainString(s)
    decreases |s|
  {
    if s != "" {
      StringWeights(s[1..]);
      assert s == [s[0]] + s[1..];
      assert PlainString(s) <==> PlainChar(s[0]) && PlainString(s[1..]);
    }
  }

  /** A value weighs its text if and only if nothing in it needs an escape, and more otherwise. */
  lemma {:induction false} RenderedWeight(v: Value)
    requires Simple(v)
    ensures Weight(v) >= |Render(v)|
    ensures Weight(v) == |Render(v)| <==> Plain(v)
    decreases v
  {
    match v
    case Num(n) =>
    case Str(s) => StringWeights(s);
    case Arr(items) =>
      if items != [] {
        ItemsRenderedWeight(items);
      }
    case Obj(members) =>
      if members != [] {
        MembersRenderedWeight(members);
      }
  }

  lemma {:induction false} ItemsRenderedWeight(items: seq<Value>)
    requires items != [] && forall i :: 0 <= i < |items| ==> Simple(items[i])
    ensures ItemsWeight(items) >= |RenderItems(items)|
    ensures ItemsWeight(items) == |RenderItems(items)| <==> forall i :: 0 <= i < |items| ==> Plain(items[i])
    decreases items
  {
    RenderedWeight(items[0]);
    if |items| > 1 {
      var rest := items[1..];
      ItemsRenderedWeight(rest);
      assert forall i :: 1 <= i < |items| ==> items[i] == rest[i - 1];
    } else {
      assert ItemsWeight(items[1..]) == 0;
    }
  }

  lemma {:induction false} MembersRenderedWeight(members: seq<Member>)
    requires members != [] && forall i :: 0 <= i < |members| ==> Simple(members[i].value)
    ensures MembersWeight(members) >= |RenderMembers(members)|
    ensures MembersWeight(members) == |RenderMembers(members)| <==>
            forall i :: 0 <= i < |members| ==> PlainString(members[i].key) && Plain(members[i].value)
    decreases members
  {
    RenderedWeight(members[0].value);
    StringWeights(members[0].key);
    if |members| > 1 {
      var rest := members[1..];
      MembersRenderedWeight(rest);
      assert forall i :: 1 <= i < |members| ==> members[i] == rest[i - 1];
    } else {
      assert MembersWeight(members[1..]) == 0;
    }
  }

  /** White space before a text, and after a value, does not matter. */
  lemma SpaceBefore(s: string, c: char)
    requires c == ' ' || c == '\t' || c == '\n' || c == '\r'
    ensures Parse([c] + s) == Parse(s)
  {
    assert ([c] + s)[1..] == s;
  }

  /** A value written without escapes is read back if and only if nothing in it needed one. */
  lemma RenderParses(v: Value)
    requires Simple(v)
    ensures Parse(Render(v)) == Some(v) <==> Plain(v)
  {
    RenderedWeight(v);
    if Plain(v) {
      ValueStart(v);
      ValueFramed(v, "");
      assert Render(v) + "" == Render(v);
    }
  }
}
