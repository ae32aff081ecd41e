/** What each Write/Read pair of the parcel helper puts on the wire and takes off it, as functions on cells.
    A parcel is a sequence of cells: 32-bit words, strings and remote objects. A read that finds no cell of
    its kind yields the default value and does not move on, as a parcel read past the end does. */
module Wire {
  import opened Structs

  datatype Cell = Word(w: uint32) | Text(s: string) | Object(id: nat)

  type Cells = seq<Cell>

  const MAX_VECTOR_SIZE := 128

  // ---------- primitive reads ----------

  function TakeWord(p: Cells): (uint32, Cells) {
    if p != [] && p[0].Word? then (p[0].w, p[1..]) else (0, p)
  }

  function TakeInt32(p: Cells): (int32, Cells) {
    var (w, q) := TakeWord(p);
    (Signed32(w), q)
  }

  function TakeBool(p: Cells): (bool, Cells) {
    var (w, q) := TakeWord(p);
    (w != 0, q)
  }

  function TakeText(p: Cells): (string, Cells) {
    if p != [] && p[0].Text? then (p[0].s, p[1..]) else ("", p)
  }

  function TakeObject(p: Cells): (Option<nat>, Cells) {
    if p != [] && p[0].Object? then (Some(p[0].id), p[1..]) else (None, p)
  }

  // ---------- primitive writes ----------

  function Int(x: int): Cell {
    Word(ToUint32(x))
  }

  function Bool(b: bool): Cell {
    Word(if b then 1 else 0)
  }

  /** A number in front of anything is read back by the two number reads. */
  lemma TakeNumber(x: int, rest: Cells)
    ensures TakeWord([Int(x)] + rest) == (ToUint32(x), rest)
    ensures TakeInt32([Int(x)] + rest) == (ToInt32(x), rest)
  {
  }

  lemma Int32Kept(x: int32)
    ensures ToInt32(x) == x
  {
  }

  lemma TakeString(s: string, rest: Cells)
    ensures TakeText([Text(s)] + rest) == (s, rest)
  {
  }

  // ---------- vectors ----------

  function EncodeAll<T>(enc: T -> Cells, xs: seq<T>): Cells {
    if xs == [] then [] else enc(xs[0]) + EncodeAll(enc, xs[1..])
  }

  function DecodeAll<T>(dec: Cells -> (T, Cells), n: nat, p: Cells): (r: (seq<T>, Cells))
    ensures |r.0| == n
  {
    if n == 0 then ([], p)
    else
      var (x, q) := dec(p);
      var (xs, rest) := DecodeAll(dec, n - 1, q);
      ([x] + xs, rest)
  }

  function MapAll<T>(f: T -> T, xs: seq<T>): (r: seq<T>)
    ensures |r| == |xs|
    ensures forall i :: 0 <= i < |xs| ==> r[i] == f(xs[i])
  {
    if xs == [] then [] else [f(xs[0])] + MapAll(f, xs[1..])
  }

  /** A vector is its length as an int32, then its elements. */
  function EncodeVector<T>(enc: T -> Cells, xs: seq<T>): Cells {
    [Int(|xs|)] + EncodeAll(enc, xs)
  }

  /** The int32 length compared with a size_t index: a negative length counts as a huge one. */
  function LoopCount(size: int32): nat {
    if size >= 0 then size else size + TWO_64
  }

  /** A length above the limit gives an empty vector and leaves the elements unread. */
  function DecodeElements<T>(dec: Cells -> (T, Cells), size: int32, q: Cells): (seq<T>, Cells) {
    if size > MAX_VECTOR_SIZE then ([], q) else DecodeAll(dec, LoopCount(size), q)
  }

  function DecodeVector<T>(dec: Cells -> (T, Cells), p: Cells): (seq<T>, Cells) {
    var (size, q) := TakeInt32(p);
    DecodeElements(dec, size, q)
  }

  /** `dec` undoes `enc` up to `norm`, in front of anything. */
  ghost predicate Framed<T(!new)>(enc: T -> Cells, dec: Cells -> (T, Cells), norm: T -> T) {
    forall x: T, rest: Cells :: dec(enc(x) + rest) == (norm(x), rest)
  }

  lemma {:induction false} DecodeEncodedAll<T(!new)>(enc: T -> Cells, dec: Cells -> (T, Cells), norm: T -> T,
                                                     xs: seq<T>, rest: Cells)
    requires Framed(enc, dec, norm)
    ensures DecodeAll(dec, |xs|, EncodeAll(enc, xs) + rest) == (MapAll(norm, xs), rest)
  {
    if xs == [] {
      assert EncodeAll(enc, xs) + rest == rest;
    } else {
      var tail := EncodeAll(enc, xs[1..]) + rest;
      assert EncodeAll(enc, xs) + rest == enc(xs[0]) + tail;
      DecodeEncodedAll(enc, dec, norm, xs[1..], rest);
    }
  }

  lemma VectorHeader<T>(enc: T -> Cells, dec: Cells -> (T, Cells), xs: seq<T>, rest: Cells)
    ensures DecodeVector(dec, EncodeVector(enc, xs) + rest) ==
            DecodeElements(dec, ToInt32(|xs|), EncodeAll(enc, xs) + rest)
  {
    var elements := EncodeAll(enc, xs) + rest;
    ConcatAssociates([Int(|xs|)], EncodeAll(enc, xs), rest);
    TakeNumber(|xs|, elements);
    HeaderRead(dec, [Int(|xs|)] + elements, ToInt32(|xs|), elements);
  }

  lemma ConcatAssociates(a: Cells, b: Cells, c: Cells)
    ensures (a + b) + c == a + (b + c)
  {
  }

  lemma HeaderRead<T>(dec: Cells -> (T, Cells), p: Cells, size: int32, q: Cells)
    requires TakeInt32(p) == (size, q)
    ensures DecodeVector(dec, p) == DecodeElements(dec, size, q)
  {
  }

  /** A vector within the limit comes back element by element, whatever follows it. */
  lemma VectorFramed<T(!new)>(enc: T -> Cells, dec: Cells -> (T, Cells), norm: T -> T, xs: seq<T>, rest: Cells)
    requires Framed(enc, dec, norm)
    requires |xs| <= 128
    ensures DecodeVector(dec, EncodeVector(enc, xs) + rest) == (MapAll(norm, xs), rest)
  {
    DecodeEncodedAll(enc, dec, norm, xs, rest);
    VectorHeader(enc, dec, xs, rest);
    Int32Kept(|xs|);
  }

  /** A longer vector never comes back: every `std::vector` has fewer than 2^63 elements. With a length that fits
      31 bits it is read as empty, its elements left in front of what follows. */
  lemma VectorOverLimit<T>(enc: T -> Cells, dec: Cells -> (T, Cells), xs: seq<T>, rest: Cells)
    requires 128 < |xs| < TWO_63
    ensures DecodeVector(dec, EncodeVector(enc, xs) + rest).0 != xs
    ensures |xs| < TWO_31 ==> DecodeVector(dec, EncodeVector(enc, xs) + rest) == ([], EncodeAll(enc, xs) + rest)
  {
    VectorHeader(enc, dec, xs, rest);
    LengthOverLimit(|xs|);
    Unread(dec, |xs|, EncodeAll(enc, xs) + rest);
  }

  lemma Unread<T>(dec: Cells -> (T, Cells), n: nat, q: Cells)
    requires MAX_VECTOR_SIZE < n
    ensures n < TWO_31 ==> DecodeElements(dec, ToInt32(n), q) == ([], q)
  {
    if n < TWO_31 {
      Int32Kept(n);
    }
  }

  lemma LengthOverLimit(n: nat)
    requires MAX_VECTOR_SIZE < n < TWO_63
    ensures ToInt32(n) <= MAX_VECTOR_SIZE ==> LoopCount(ToInt32(n)) != n
  {
  }

  // ---------- flat records ----------

  function EncUpgradeInfo(x: UpgradeInfo): Cells {
    [Text(x.upgradeApp), Text(x.vendor), Int(x.subType), Text(x.upgradeDevId), Text(x.controlDevId)]
  }

  function DecUpgradeInfo(p: Cells): (UpgradeInfo, Cells) {
    var (app, p1) := TakeText(p);
    var (vendor, p2) := TakeText(p1);
    var (sub, p3) := TakeInt32(p2);
    var (dev, p4) := TakeText(p3);
    var (control, p5) := TakeText(p4);
    (UpgradeInfo(app, vendor, sub, dev, control), p5)
  }

  lemma UpgradeInfoFramed(x: UpgradeInfo, rest: Cells)
    ensures DecUpgradeInfo(EncUpgradeInfo(x) + rest) == (x, rest)
  {
    assert EncUpgradeInfo(x) + rest ==
      [Text(x.upgradeApp)] + ([Text(x.vendor)] + ([Int(x.subType)] +
      ([Text(x.upgradeDevId)] + ([Text(x.controlDevId)] + rest))));
  }

  function EncErrorMessage(x: ErrorMessage): Cells {
    [Int(x.errorCode), Text(x.errorMessage)]
  }

  function DecErrorMessage(p: Cells): (ErrorMessage, Cells) {
    var (code, p1) := TakeInt32(p);
    var (text, p2) := TakeText(p1);
    (ErrorMessage(code, text), p2)
  }

  function EncComponentDescription(x: ComponentDescription): Cells {
    [Text(x.componentId), Int(x.descriptionInfo.descriptionType), Text(x.descriptionInfo.content)]
  }

  function DecComponentDescription(p: Cells): (ComponentDescription, Cells) {
    var (id, p1) := TakeText(p);
    var (kind, p2) := TakeInt32(p1);
    var (content, p3) := TakeText(p2);
    (ComponentDescription(id, DescriptionInfo(kind, content)), p3)
  }

  function EncVersionComponent(x: VersionComponent): Cells {
    [Text(x.componentId), Int(x.componentType), Text(x.upgradeAction), Text(x.displayVersion),
     Text(x.innerVersion), Int(x.size), Int(x.effectiveMode), Int(x.descriptionInfo.descriptionType),
     Text(x.descriptionInfo.content), Text(x.componentExtra)]
  }

  function DecVersionComponent(p: Cells): (VersionComponent, Cells) {
    var (id, p1) := TakeText(p);
    var (kind, p2) := TakeInt32(p1);
    var (action, p3) := TakeText(p2);
    var (display, p4) := TakeText(p3);
    var (inner, p5) := TakeText(p4);
    var (size, p6) := TakeWord(p5);
    var (mode, p7) := TakeWord(p6);
    var (descriptionType, p8) := TakeInt32(p7);
    var (content, p9) := TakeText(p8);
    var (extra, p10) := TakeText(p9);
    (VersionComponent(id, kind, action, display, inner, size, mode,
                      DescriptionInfo(descriptionType, content), extra), p10)
  }

  /** What 32 bits leave of a component's two size_t fields. */
  function Narrowed(x: VersionComponent): VersionComponent {
    x.(size := ToUint32(x.size), effectiveMode := ToUint32(x.effectiveMode))
  }

  function Same<T>(x: T): T {
    x
  }

  lemma ErrorMessageFramed()
    ensures Framed(EncErrorMessage, DecErrorMessage, Same)
  {
    forall x: ErrorMessage, rest: Cells
      ensures DecErrorMessage(EncErrorMessage(x) + rest) == (Same(x), rest)
    {
      assert EncErrorMessage(x) + rest == [Int(x.errorCode)] + ([Text(x.errorMessage)] + rest);
    }
  }

  lemma ComponentDescriptionFramed()
    ensures Framed(EncComponentDescription, DecComponentDescription, Same)
  {
    forall x: ComponentDescription, rest: Cells
      ensures DecComponentDescription(EncComponentDescription(x) + rest) == (Same(x), rest)
    {
      assert EncComponentDescription(x) + rest ==
        [Text(x.componentId)] + ([Int(x.descriptionInfo.descriptionType)] +
        ([Text(x.descriptionInfo.content)] + rest));
    }
  }

  lemma VersionComponentSplit(x: VersionComponent, rest: Cells)
    ensures EncVersionComponent(x) + rest ==
      [Text(x.componentId)] + ([Int(x.componentType)] + ([Text(x.upgradeAction)] + ([Text(x.displayVersion)] +
      ([Text(x.innerVersion)] + ([Int(x.size)] + ([Int(x.effectiveMode)] +
      ([Int(x.descriptionInfo.descriptionType)] +
      ([Text(x.descriptionInfo.content)] + ([Text(x.componentExtra)] + rest)))))))))
  {
  }

  lemma VersionComponentFramed()
    ensures Framed(EncVersionComponent, DecVersionComponent, Narrowed)
  {
    forall x: VersionComponent, rest: Cells
      ensures DecVersionComponent(EncVersionComponent(x) + rest) == (Narrowed(x), rest)
    {
      VersionComponentSplit(x, rest);
      Int32Kept(x.componentType);
      Int32Kept(x.descriptionInfo.descriptionType);
    }
  }

  // ---------- the three vectors ----------

  function EncErrors(xs: seq<ErrorMessage>): Cells {
    EncodeVector(EncErrorMessage, xs)
  }

  function DecErrors(p: Cells): (seq<ErrorMessage>, Cells) {
    DecodeVector(DecErrorMessage, p)
  }

  function EncDescriptions(xs: seq<ComponentDescription>): Cells {
    EncodeVector(EncComponentDescription, xs)
  }

  function DecDescriptions(p: Cells): (seq<ComponentDescription>, Cells) {
    DecodeVector(DecComponentDescription, p)
  }

  function EncComponents(xs: seq<VersionComponent>): Cells {
    EncodeVector(EncVersionComponent, xs)
  }

  function DecComponents(p: Cells): (seq<VersionComponent>, Cells) {
    DecodeVector(DecVersionComponent, p)
  }

  /** Every `std::vector` satisfies this. */
  predicate Addressable<T>(xs: seq<T>) {
    |xs| < TWO_63
  }

  predicate FitVector<T>(xs: seq<T>) {
    |xs| <= MAX_VECTOR_SIZE
  }

  predicate FitComponents(xs: seq<VersionComponent>) {
    FitVector(xs) && forall i :: 0 <= i < |xs| ==> xs[i].size < TWO_32 && xs[i].effectiveMode < TWO_32
  }

  lemma ErrorsRoundTrip(xs: seq<ErrorMessage>, rest: Cells)
    requires Addressable(xs)
    ensures FitVector(xs) ==> DecErrors(EncErrors(xs) + rest) == (xs, rest)
    ensures !FitVector(xs) ==> DecErrors(EncErrors(xs) + rest).0 != xs
  {
    ErrorMessageFramed();
    if FitVector(xs) {
      VectorFramed(EncErrorMessage, DecErrorMessage, Same, xs, rest);
      assert MapAll(Same, xs) == xs;
    } else {
      VectorOverLimit(EncErrorMessage, DecErrorMessage, xs, rest);
    }
  }

  lemma DescriptionsRoundTrip(xs: seq<ComponentDescription>, rest: Cells)
    requires Addressable(xs)
    ensures FitVector(xs) ==> DecDescriptions(EncDescriptions(xs) + rest) == (xs, rest)
    ensures !FitVector(xs) ==> DecDescriptions(EncDescriptions(xs) + rest).0 != xs
  {
    ComponentDescriptionFramed();
    if FitVector(xs) {
      VectorFramed(EncComponentDescription, DecComponentDescription, Same, xs, rest);
      assert MapAll(Same, xs) == xs;
    } else {
      VectorOverLimit(EncComponentDescription, DecComponentDescription, xs, rest);
    }
  }

  lemma NarrowedFits(xs: seq<VersionComponent>)
    requires FitVector(xs)
    ensures MapAll(Narrowed, xs) == xs <==> FitComponents(xs)
  {
    if FitComponents(xs) {
    } else {
      var i :| 0 <= i < |xs| && !(xs[i].size < TWO_32 && xs[i].effectiveMode < TWO_32);
      assert MapAll(Narrowed, xs)[i] != xs[i];
    }
  }

  lemma ComponentsRoundTrip(xs: seq<VersionComponent>, rest: Cells)
    requires Addressable(xs)
    ensures FitComponents(xs) ==> DecComponents(EncComponents(xs) + rest) == (xs, rest)
    ensures !FitComponents(xs) ==> DecComponents(EncComponents(xs) + rest).0 != xs
  {
    VersionComponentFramed();
    if FitVector(xs) {
      VectorFramed(EncVersionComponent, DecVersionComponent, Narrowed, xs, rest);
      NarrowedFits(xs);
    } else {
      VectorOverLimit(EncVersionComponent, DecVersionComponent, xs, rest);
    }
  }
}
