/** The change log of a version: how its text is cleaned, stored behind its type, and read again. */
module Changelog {
  import opened Structs
  import opened Decimal
  import opened Texts

  // ---------- searching ----------

  ghost predicate Free(s: string, sub: string) {
    forall i: nat :: !At(s, i, sub)
  }

  /** The first occurrence at `from` or later. */
  function Find(s: string, sub: string, from: nat): (r: Option<nat>)
    ensures r.Some? ==> from <= r.value && At(s, r.value, sub) && forall i :: from <= i < r.value ==> !At(s, i, sub)
    ensures r.None? ==> forall i :: from <= i ==> !At(s, i, sub)
    decreases |s| - from
  {
    if At(s, from, sub) then Some(from)
    else if from < |s| then Find(s, sub, from + 1)
    else None
  }

  // ---------- replacing ----------

  /** Every occurrence replaced, from the left, none overlapping another. */
  function Replaced(s: string, sub: string, new_: string): string
    requires sub != ""
    decreases |s|
  {
    if s == "" then ""
    else if At(s, 0, sub) then new_ + Replaced(s[|sub|..], sub, new_)
    else [s[0]] + Replaced(s[1..], sub, new_)
  }

  lemma AtSuffix(s: string, k: nat, i: nat, sub: string)
    requires k <= |s|
    ensures At(s[k..], i, sub) <==> At(s, k + i, sub)
  {
    if k + i + |sub| <= |s| {
      assert s[k..][i..i + |sub|] == s[k + i..k + i + |sub|];
    }
  }

  /** Up to the first occurrence nothing changes. */
  lemma {:induction false} ReplacedFrom(s: string, sub: string, new_: string, p: nat)
    requires sub != "" && At(s, p, sub) && forall i :: 0 <= i < p ==> !At(s, i, sub)
    ensures Replaced(s, sub, new_) == s[..p] + new_ + Replaced(s[p + |sub|..], sub, new_)
    decreases p
  {
    if p == 0 {
      assert s[..0] + new_ == new_;
    } else {
      var t := s[1..];
      FirstInSuffix(s, sub, 1, p);
      ReplacedFrom(t, sub, new_, p - 1);
      assert t[p - 1 + |sub|..] == s[p + |sub|..];
      Prepended(s, p, new_, Replaced(s[p + |sub|..], sub, new_));
    }
  }

  lemma Prepended(s: string, p: nat, new_: string, tail: string)
    requires 0 < p <= |s|
    ensures [s[0]] + (s[1..][..p - 1] + new_ + tail) == s[..p] + new_ + tail
  {
    assert [s[0]] + s[1..][..p - 1] == s[..p];
  }

  /** A text that does not contain `sub` stays as it is. */
  lemma {:induction false} ReplacedFree(s: string, sub: string, new_: string)
    requires sub != "" && Free(s, sub)
    ensures Replaced(s, sub, new_) == s
    decreases |s|
  {
    if s != "" {
      forall i: nat
        ensures !At(s[1..], i, sub)
      {
        AtSuffix(s, 1, i, sub);
      }
      ReplacedFree(s[1..], sub, new_);
    }
  }

  ghost predicate Disjoint(a: string, b: string) {
    forall i, j :: 0 <= i < |a| && 0 <= j < |b| ==> a[i] != b[j]
  }

  /** What the result begins with, if made of no character put in, the text began with. */
  lemma {:induction false} PrefixKept(s: string, sub: string, new_: string, w: string)
    requires sub != "" && new_ != "" && Disjoint(new_, w) && At(Replaced(s, sub, new_), 0, w)
    ensures At(s, 0, w)
    decreases |s|
  {
    var r := Replaced(s, sub, new_);
    if w != "" {
      assert r[0..|w|] == w && r[0] == w[0];
      assert s != "";
      var t := Replaced(s[1..], sub, new_);
      assert r == [s[0]] + t;
      assert t[0..|w| - 1] == r[1..|w|] == w[1..];
      PrefixKept(s[1..], sub, new_, w[1..]);
      assert s[0..|w|] == [s[0]] + s[1..][0..|w| - 1];
    }
  }

  /** Nothing of what was replaced is left or arises anew, if what is put in shares no character with it. */
  lemma {:induction false} ReplacedIsFree(s: string, sub: string, new_: string)
    requires sub != "" && new_ != "" && Disjoint(new_, sub)
    ensures Free(Replaced(s, sub, new_), sub)
    decreases |s|
  {
    var r := Replaced(s, sub, new_);
    if s != "" {
      var k := if At(s, 0, sub) then |sub| else 1;
      var head := if At(s, 0, sub) then new_ else [s[0]];
      var tail := Replaced(s[k..], sub, new_);
      ReplacedIsFree(s[k..], sub, new_);
      assert r == head + tail && r[|head|..] == tail;
      forall i: nat
        ensures !At(r, i, sub)
      {
        if i >= |head| {
          AtSuffix(r, |head|, i - |head|, sub);
        } else if At(r, i, sub) {
          HeadFree(s, sub, new_, i);
        }
      }
    }
  }

  lemma HeadFree(s: string, sub: string, new_: string, i: nat)
    requires sub != "" && new_ != "" && Disjoint(new_, sub) && s != ""
    requires i < if At(s, 0, sub) then |new_| else 1
    ensures !At(Replaced(s, sub, new_), i, sub)
  {
    var r := Replaced(s, sub, new_);
    assert At(r, i, sub) ==> r[i..i + |sub|][0] == r[i];
    if At(s, 0, sub) {
      assert r[i] == new_[i];
    } else if At(r, i, sub) {
      PrefixKept(s, sub, new_, sub);
    }
  }

  /** So replacing once more changes nothing. */
  lemma ReplacedTwice(s: string, sub: string, new_: string)
    requires sub != "" && new_ != "" && Disjoint(new_, sub)
    ensures Replaced(Replaced(s, sub, new_), sub, new_) == Replaced(s, sub, new_)
  {
    ReplacedIsFree(s, sub, new_);
    ReplacedFree(Replaced(s, sub, new_), sub, new_);
  }

  /** An empty `sub` would be found, and replaced, for ever. */
  method ReplaceStringAll(src: string, sub: string, new_: string) returns (result: string)
    requires sub != ""
    ensures result == Replaced(src, sub, new_)
  {
    result := src;
    var pos := 0;
    while true
      invariant 0 <= pos <= |result|
      invariant result[..pos] + Replaced(result[pos..], sub, new_) == Replaced(src, sub, new_)
      decreases |result| - pos
    {
      var found := Find(result, sub, pos);
      if found.None? {
        NoneLeft(result, sub, new_, pos);
        return;
      }
      ReplaceOne(result, sub, new_, pos, found.value);
      result := result[..found.value] + new_ + result[found.value + |sub|..];
      pos := found.value + |new_|;
    }
  }

  lemma NoneLeft(s: string, sub: string, new_: string, pos: nat)
    requires sub != "" && pos <= |s| && forall i :: pos <= i ==> !At(s, i, sub)
    ensures s[..pos] + Replaced(s[pos..], sub, new_) == s
  {
    forall i: nat
      ensures !At(s[pos..], i, sub)
    {
      AtSuffix(s, pos, i, sub);
    }
    ReplacedFree(s[pos..], sub, new_);
  }

  lemma ReplaceOne(s: string, sub: string, new_: string, pos: nat, p: nat)
    requires sub != "" && pos <= p && At(s, p, sub) && forall i :: pos <= i < p ==> !At(s, i, sub)
    ensures var t := s[..p] + new_ + s[p + |sub|..];
            t[..p + |new_|] + Replaced(t[p + |new_|..], sub, new_) == s[..pos] + Replaced(s[pos..], sub, new_)
  {
    var u, rest := s[pos..], s[p + |sub|..];
    FirstInSuffix(s, sub, pos, p);
    ReplacedFrom(u, sub, new_, p - pos);
    assert u[p - pos + |sub|..] == rest;
    Spliced(s, new_, rest, pos, p, Replaced(rest, sub, new_));
  }

  lemma FirstInSuffix(s: string, sub: string, pos: nat, p: nat)
    requires pos <= p && At(s, p, sub) && forall i :: pos <= i < p ==> !At(s, i, sub)
    ensures At(s[pos..], p - pos, sub) && forall i :: 0 <= i < p - pos ==> !At(s[pos..], i, sub)
  {
    AtSuffix(s, pos, p - pos, sub);
    forall i | 0 <= i < p - pos
      ensures !At(s[pos..], i, sub)
    {
      AtSuffix(s, pos, i, sub);
    }
  }

  lemma Spliced(s: string, new_: string, rest: string, pos: nat, p: nat, after: string)
    requires pos <= p <= |s|
    ensures var t := s[..p] + new_ + rest;
            && t[p + |new_|..] == rest
            && t[..p + |new_|] + after == s[..pos] + (s[pos..][..p - pos] + new_ + after)
  {
    var t := s[..p] + new_ + rest;
    assert t[..p + |new_|] == s[..p] + new_;
    assert s[..p] == s[..pos] + s[pos..][..p - pos];
  }

  // ---------- the stored file ----------

  const QUOTA := "quota"
  const QUOTE := "\""
  const SEPARATOR := "|"

  function Cleaned(content: string): string {
    Replaced(content, QUOTA, QUOTE)
  }

  function Stored(descriptionType: int32, content: string): string {
    IntText(descriptionType) + SEPARATOR + Cleaned(content)
  }

  /** The text before the first separator: all of it if there is none. */
  function TypeText(data: string): string {
    var p := Find(data, SEPARATOR, 0);
    if p.None? then data else data[..p.value]
  }

  function ContentText(data: string): string {
    var p := Find(data, SEPARATOR, 0);
    if p.None? then data else data[p.value + 1..]
  }

  /** The white space C skips, which is more than JSON allows. */
  predicate IsCSpace(c: char) {
    c == ' ' || 9 as char <= c <= 13 as char
  }

  /** C's atoi, on values that fit. */
  function Atoi(s: string): int
    decreases |s|
  {
    if s != "" && IsCSpace(s[0]) then Atoi(s[1..])
    else
      var signed := s != "" && (s[0] == '-' || s[0] == '+');
      var t := if signed then s[1..] else s;
      var n: int := Value(t[..Span(t)]);
      if signed && s[0] == '-' then -n else n
  }

  lemma AtoiOfInt(n: int)
    ensures Atoi(IntText(n)) == n
  {
    var digits := Digits(if n < 0 then -n else n);
    ValueOfDigits(if n < 0 then -n else n);
    SpanOfDigits(digits, "");
    assert digits + "" == digits && digits[..|digits|] == digits;
    assert IsDigit(digits[0]);
    assert n < 0 ==> IntText(n)[1..] == digits;
  }

  lemma IntHasNoSeparator(n: int, rest: string)
    ensures Find(IntText(n) + SEPARATOR + rest, SEPARATOR, 0) == Some(|IntText(n)|)
  {
    var head := IntText(n);
    var data := head + SEPARATOR + rest;
    assert forall i :: 0 <= i < |head| ==> data[i] == head[i] && (IsDigit(head[i]) || head[i] == '-');
    assert At(data, |head|, SEPARATOR);
    var p := Find(data, SEPARATOR, 0).value;
    assert data[p..p + 1][0] == data[p];
  }

  /** Whatever the type, and whatever the content, separators included: what is read back from the file is the
      type, and the content with each "quota" turned into a quotation mark. */
  lemma ChangelogRoundTrip(descriptionType: int32, content: string)
    ensures var data := Stored(descriptionType, content);
            && Atoi(TypeText(data)) == descriptionType
            && data == IntText(descriptionType) + "|" + Replaced(content, "quota", "\"")
            && ContentText(data) == Replaced(content, "quota", "\"")
            && Free(ContentText(data), "quota")
  {
    var data := Stored(descriptionType, content);
    IntHasNoSeparator(descriptionType, Cleaned(content));
    var n := |IntText(descriptionType)|;
    assert data[..n] == IntText(descriptionType) && data[n + 1..] == Cleaned(content);
    AtoiOfInt(descriptionType);
    QuoteNotInQuota();
    ReplacedIsFree(content, QUOTA, QUOTE);
  }

  /** A file without a separator is all type and all content. */
  lemma NoSeparator(data: string)
    requires '|' !in data
    ensures TypeText(data) == data && ContentText(data) == data
  {
    var p := Find(data, SEPARATOR, 0);
    if p.Some? {
      CharAt(data, p.value, SEPARATOR, 0);
    }
  }

  lemma QuoteNotInQuota()
    ensures Disjoint(QUOTE, QUOTA)
  {
  }

  // ---------- one language of two ----------

  const LANGUAGE_CHINESE := "<language name=\"zh-cn\" code=\"2052\">"
  const LANGUAGE_ENGLISH := "<language name=\"en-us\" code=\"1033\">"
  const LANGUAGE_END := "</language>"

  /** `s` without its first section from `start` to `end`. */
  function Without(s: string, start: string, end: string): string {
    var i := Find(s, start, 0);
    if i.None? then s
    else
      var j := Find(s, end, i.value);
      if j.None? then s else s[..i.value] + s[j.value + |end|..]
  }

  method StringRemove(source: string, start: string, end: string) returns (result: string)
    ensures result == Without(source, start, end)
  {
    result := source;
    if source == "" {
      EmptyWithout(start, end);
      return;
    }
    var i := Find(source, start, 0);
    if i.Some? {
      var j := Find(source, end, i.value);
      if j.Some? {
        result := source[..i.value] + source[j.value + |end|..];
      }
    }
  }

  lemma EmptyWithout(start: string, end: string)
    ensures Without("", start, end) == ""
  {
  }

  function OtherLanguage(language: string): string {
    if language == "zh-cn" then LANGUAGE_ENGLISH else LANGUAGE_CHINESE
  }

  function Description(data: string, language: string): DescriptionInfo {
    DescriptionInfo(ToInt32(Atoi(TypeText(data))), Without(ContentText(data), OtherLanguage(language), LANGUAGE_END))
  }

  /** The first character of `s` does not come again in it. */
  predicate Unbordered(s: string) {
    s != "" && forall i :: 1 <= i < |s| ==> s[i] != s[0]
  }

  lemma CharAt(s: string, i: nat, sub: string, k: nat)
    requires At(s, i, sub) && k < |sub|
    ensures s[i + k] == sub[k]
  {
    assert s[i..i + |sub|][k] == s[i + k];
  }

  lemma EarlierInside(before: string, sub: string, rest: string, p: nat)
    requires Unbordered(sub) && p < |before| && At(before + sub + rest, p, sub)
    ensures At(before, p, sub)
  {
    var s := before + sub + rest;
    if p + |sub| <= |before| {
      assert before[p..p + |sub|] == s[p..p + |sub|];
    } else {
      CharAt(s, p, sub, |before| - p);
    }
  }

  lemma FirstAfter(before: string, sub: string, rest: string)
    requires Unbordered(sub) && Free(before, sub)
    ensures Find(before + sub + rest, sub, 0) == Some(|before|)
  {
    var s := before + sub + rest;
    assert s[|before|..|before| + |sub|] == sub;
    assert At(s, |before|, sub);
    forall p: nat | p < |before|
      ensures !At(s, p, sub)
    {
      if At(s, p, sub) {
        EarlierInside(before, sub, rest, p);
      }
    }
  }

  lemma FindFrom(s: string, sub: string, k: nat)
    requires k <= |s| && Find(s[k..], sub, 0).Some?
    ensures Find(s, sub, k) == Some(k + Find(s[k..], sub, 0).value)
  {
    var q := Find(s[k..], sub, 0).value;
    AtSuffix(s, k, q, sub);
    forall i | k <= i < k + q
      ensures !At(s, i, sub)
    {
      AtSuffix(s, k, i - k, sub);
    }
  }

  lemma LanguageStarts(language: string)
    ensures var start := OtherLanguage(language); Unbordered(start) && |start| > 1 && start[0] == '<' && start[1] == 'l'
  {
  }

  lemma LanguageEnds()
    ensures Unbordered(LANGUAGE_END) && LANGUAGE_END[0] == '<' && LANGUAGE_END[1] == '/'
  {
  }

  lemma AtBegins(s: string, i: nat, sub: string)
    requires |sub| > 1
    ensures At(s, i, sub) ==> s[i] == sub[0] && s[i + 1] == sub[1]
  {
    assert At(s, i, sub) ==> s[i..i + |sub|][0] == s[i] && s[i..i + |sub|][1] == s[i + 1];
  }

  lemma StartIsNoEnd(start: string, body: string)
    requires Unbordered(start) && |start| > 1 && start[0] == '<' && start[1] == 'l' && Free(body, LANGUAGE_END)
    ensures Free(start + body, LANGUAGE_END)
  {
    LanguageEnds();
    var s := start + body;
    assert s[|start|..] == body;
    forall i: nat
      ensures !At(s, i, LANGUAGE_END)
    {
      if i >= |start| && i <= |s| {
        AtSuffix(s, |start|, i - |start|, LANGUAGE_END);
      } else {
        AtBegins(s, i, LANGUAGE_END);
      }
    }
  }

  lemma Regrouped(a: string, b: string, c: string, d: string, e: string)
    ensures a + b + c + d + e == a + b + (c + d + e)
    ensures a + b + c + d + e == a + (b + c + d) + e
  {
    assert a + b + c + d == a + (b + c + d);
    assert a + b + c + d + e == (a + b) + (c + d) + e;
  }

  lemma SectionDropped(before: string, start: string, body: string, after: string)
    requires Unbordered(start) && |start| > 1 && start[0] == '<' && start[1] == 'l'
    requires Free(before, start) && Free(body, LANGUAGE_END)
    ensures Without(before + start + body + LANGUAGE_END + after, start, LANGUAGE_END) == before + after
  {
    var s := before + start + body + LANGUAGE_END + after;
    LanguageEnds();
    StartIsNoEnd(start, body);
    Regrouped(before, start, body, LANGUAGE_END, after);
    FirstAfter(before, start, body + LANGUAGE_END + after);
    var section := start + body;
    assert s[|before|..] == section + LANGUAGE_END + after;
    FirstAfter(section, LANGUAGE_END, after);
    FindFrom(s, LANGUAGE_END, |before|);
    Cut(s, before, section + LANGUAGE_END, after);
  }

  lemma Cut(s: string, before: string, middle: string, after: string)
    requires s == before + middle + after
    ensures s[..|before|] == before && s[|before| + |middle|..] == after
  {
  }

  /** A change log with a section in each language is read without the first section of the other. */
  lemma OtherLanguageDropped(descriptionType: int32, content: string, language: string,
                             before: string, body: string, after: string)
    requires Cleaned(content) == before + OtherLanguage(language) + body + LANGUAGE_END + after
    requires Free(before, OtherLanguage(language)) && Free(body, LANGUAGE_END)
    ensures Description(Stored(descriptionType, content), language) == DescriptionInfo(descriptionType, before + after)
  {
    ChangelogRoundTrip(descriptionType, content);
    DescriptionOf(Stored(descriptionType, content), descriptionType, Cleaned(content), language);
    LanguageStarts(language);
    SectionDropped(before, OtherLanguage(language), body, after);
  }

  /** A reader of Chinese is shown the change log without its English section. */
  lemma ChineseReader(descriptionType: int32, content: string, before: string, body: string, after: string)
    requires Replaced(content, "quota", "\"") ==
             before + "<language name=\"en-us\" code=\"1033\">" + body + "</language>" + after
    requires Free(before, "<language name=\"en-us\" code=\"1033\">") && Free(body, "</language>")
    ensures Description(Stored(descriptionType, content), "zh-cn") == DescriptionInfo(descriptionType, before + after)
  {
    OtherLanguageDropped(descriptionType, content, "zh-cn", before, body, after);
  }

  /** A reader of any other language is shown it without its Chinese section. */
  lemma OtherReader(descriptionType: int32, content: string, language: string, before: string, body: string,
                    after: string)
    requires language != "zh-cn"
    requires Replaced(content, "quota", "\"") ==
             before + "<language name=\"zh-cn\" code=\"2052\">" + body + "</language>" + after
    requires Free(before, "<language name=\"zh-cn\" code=\"2052\">") && Free(body, "</language>")
    ensures Description(Stored(descriptionType, content), language) == DescriptionInfo(descriptionType, before + after)
  {
    OtherLanguageDropped(descriptionType, content, language, before, body, after);
  }

  /** Without the section's start, or without an end after it, nothing is removed. */
  lemma NothingRemoved(s: string, start: string, end: string, from: nat)
    requires Free(s, start) || (At(s, from, start) && forall i: nat :: i < from ==> !At(s, i, start))
    requires Free(s, start) || forall i :: from <= i ==> !At(s, i, end)
    ensures Without(s, start, end) == s
  {
  }

  lemma DescriptionOf(data: string, descriptionType: int32, content: string, language: string)
    requires Atoi(TypeText(data)) == descriptionType && ContentText(data) == content
    ensures Description(data, language) ==
            DescriptionInfo(descriptionType, Without(content, OtherLanguage(language), LANGUAGE_END))
  {
  }
}
