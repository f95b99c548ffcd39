/** What the codec promises, for every schema. */
module StateRoundTrip {
  import opened Types
  import opened StateCodec

  lemma QuotientCovers(n: nat, w: Width, rest: nat)
    ensures n * w <= rest <==> n <= rest / w
  {}

  // ---- loading what was saved ----

  lemma NextSplit(r: Reader, m: nat, n: nat, first: Bytes, second: Bytes)
    requires ReaderOk(r) && m + n <= Remaining(r) && |first| == m && |second| == n
    requires Next(r, m + n) == first + second
    ensures Next(r, m) == first && Next(Skip(r, m), n) == second
  {
    assert Next(r, m) == Next(r, m + n)[..m];
    assert Next(Skip(r, m), n) == Next(r, m + n)[m..];
  }

  lemma {:induction false} ElementsRead(r: Reader, t: IntType, elements: seq<int>)
    requires ReaderOk(r) && |elements| * t.width <= Remaining(r) && AllFit(t, elements)
    requires Next(r, |elements| * t.width) == EncodeAll(t, elements)
    ensures ReadElements(r, t, |elements|).1 == elements
    decreases |elements|
  {
    hide Fits, Encode, Decode;
    if elements != [] {
      var n, m := |elements| * t.width, (|elements| - 1) * t.width;
      assert n == t.width + m;
      NextSplit(r, t.width, m, Encode(t, elements[0]), EncodeAll(t, elements[1..]));
      DecodeEncode(t, elements[0]);
      ElementsRead(Skip(r, t.width), t, elements[1..]);
      assert elements == [elements[0]] + elements[1..];
    }
  }

  /** With enough bytes left, the elements are read one after the other. */
  lemma {:induction false} EachIsElements(r: Reader, t: IntType, before: seq<int>)
    requires ReaderOk(r) && AllFit(t, before) && |before| * t.width <= Remaining(r)
    ensures ReadEach(r, t, before) == ReadElements(r, t, |before|)
    decreases |before|
  {
    hide Fits, Decode;
    if before != [] {
      assert |before| * t.width == t.width + (|before| - 1) * t.width;
      EachIsElements(Skip(r, t.width), t, before[1..]);
    }
  }

  /** Without enough bytes the error flag is set. */
  lemma {:induction false} EachEnough(r: Reader, t: IntType, before: seq<int>)
    requires ReaderOk(r) && AllFit(t, before) && !ReadEach(r, t, before).0.error
    ensures |before| * t.width <= Remaining(r)
    decreases |before|
  {
    hide Fits, Decode;
    if before != [] {
      EachEnough(ReadNumber(r, t, before[0]).0, t, before[1..]);
      assert |before| * t.width == t.width + (|before| - 1) * t.width;
    }
  }

  lemma EachRead(r: Reader, t: IntType, before: seq<int>, elements: seq<int>)
    requires ReaderOk(r) && AllFit(t, before) && AllFit(t, elements) && |before| == |elements|
    requires |elements| * t.width <= Remaining(r) && Next(r, |elements| * t.width) == EncodeAll(t, elements)
    ensures ReadEach(r, t, before) == (Skip(r, |elements| * t.width), elements)
  {
    EachIsElements(r, t, before);
    ElementsRead(r, t, elements);
  }

  /** A size and that many elements: what the three kinds of vector have in common. */
  lemma SizedRead(r: Reader, t: IntType, elements: seq<int>)
    requires ReaderOk(r) && Fits(SIZE_TYPE, |elements|) && AllFit(t, elements)
    requires var bytes := EncodeSized(t, elements); |bytes| <= Remaining(r) && Next(r, |bytes|) == bytes
    ensures Decode(SIZE_TYPE, Next(r, 8)) == |elements|
    ensures |elements| * t.width <= Remaining(Skip(r, 8))
    ensures Next(Skip(r, 8), |elements| * t.width) == EncodeAll(t, elements)
  {
    hide Fits, Encode, Decode, EncodeAll, Next;
    NextSplit(r, 8, |elements| * t.width, Encode(SIZE_TYPE, |elements|), EncodeAll(t, elements));
    DecodeEncode(SIZE_TYPE, |elements|);
  }

  lemma ResizeFits(t: IntType, elements: seq<int>, size: nat)
    requires AllFit(t, elements)
    ensures AllFit(t, Resize(elements, size))
  {}

  lemma VectorRead(r: Reader, t: IntType, before: seq<int>, elements: seq<int>)
    requires ReaderOk(r) && !r.error && Fits(SIZE_TYPE, |before|) && Fits(SIZE_TYPE, |elements|) && AllFit(t, elements)
    requires var bytes := EncodeSized(t, elements); |bytes| <= Remaining(r) && Next(r, |bytes|) == bytes
    ensures ReadVector(r, t, before) == (Skip(r, |EncodeSized(t, elements)|), elements)
  {
    hide Fits, Encode, Decode, EncodeAll, Next;
    SizedRead(r, t, elements);
    QuotientCovers(|elements|, t.width, Remaining(Skip(r, 8)));
    ElementsRead(Skip(r, 8), t, elements);
  }

  lemma FixedRead(r: Reader, t: IntType, before: seq<int>, elements: seq<int>)
    requires ReaderOk(r) && !r.error && Fits(SIZE_TYPE, |elements|) && AllFit(t, elements)
    requires |before| == |elements| && AllFit(t, before)
    requires var bytes := EncodeSized(t, elements); |bytes| <= Remaining(r) && Next(r, |bytes|) == bytes
    ensures ReadFixed(r, t, before) == (Skip(r, |EncodeSized(t, elements)|), elements)
  {
    hide Fits, Encode, Decode, EncodeAll, Next;
    SizedRead(r, t, elements);
    EachRead(Skip(r, 8), t, before, elements);
  }

  lemma OptionalRead(r: Reader, t: IntType, before: seq<int>, elements: seq<int>, size: nat)
    requires ReaderOk(r) && !r.error && Fits(SIZE_TYPE, |elements|) && AllFit(t, elements)
    requires Fits(SIZE_TYPE, |before|) && AllFit(t, before) && (|elements| == 0 || |elements| == size)
    requires var bytes := EncodeSized(t, elements); |bytes| <= Remaining(r) && Next(r, |bytes|) == bytes
    ensures ReadOptional(r, t, before, size) == (Skip(r, |EncodeSized(t, elements)|), elements)
  {
    hide Fits, Encode, Decode, EncodeAll, Next;
    SizedRead(r, t, elements);
    ResizeFits(t, before, |elements|);
    EachRead(Skip(r, 8), t, Resize(before, |elements|), elements);
  }

  /** A saved field is read back, and nothing else is consumed. */
  lemma FieldRead(r: Reader, k: Kind, before: Value, x: Value)
    requires ReaderOk(r) && !r.error && Typed(k, before) && Typed(k, x)
    requires |SaveField(k, x)| <= Remaining(r) && Next(r, |SaveField(k, x)|) == SaveField(k, x)
    ensures LoadField(r, k, before) == (Skip(r, |SaveField(k, x)|), x)
  {
    hide Fits, Encode, Decode, EncodeAll, EncodeSized, ReadVector, ReadFixed, ReadOptional;
    match k {
      case Number(t) => DecodeEncode(t, x.v);
      case Flag => assert Next(r, 1)[0] == r.input[r.position];
      case Block(_) =>
      case Span(t, _) => EachRead(r, t, before.elements, x.elements);
      case Vector(t) => VectorRead(r, t, before.elements, x.elements);
      case Fixed(t, _) => FixedRead(r, t, before.elements, x.elements);
      case Optional(t, size) => OptionalRead(r, t, before.elements, x.elements, size);
    }
  }

  lemma {:induction false} SavedIsLoadedFrom(r: Reader, ks: seq<Kind>, before: seq<Value>, xs: seq<Value>)
    requires ReaderOk(r) && !r.error && AllTyped(ks, before) && AllTyped(ks, xs)
    requires |Save(ks, xs)| <= Remaining(r) && Next(r, |Save(ks, xs)|) == Save(ks, xs)
    ensures Load(r, ks, before) == (Skip(r, |Save(ks, xs)|), xs)
    decreases |ks|
  {
    hide Typed, SaveField, LoadField, Next;
    if ks != [] {
      var first, rest := SaveField(ks[0], xs[0]), Save(ks[1..], xs[1..]);
      NextSplit(r, |first|, |rest|, first, rest);
      FieldRead(r, ks[0], before[0], xs[0]);
      SavedIsLoadedFrom(Skip(r, |first|), ks[1..], before[1..], xs[1..]);
      assert xs == [xs[0]] + xs[1..];
    }
  }

  /** A vector saved with another size is refused, and what was there stays. */
  lemma FixedRefused(r: Reader, t: IntType, before: seq<int>, elements: seq<int>)
    requires ReaderOk(r) && Fits(SIZE_TYPE, |before|) && AllFit(t, before) && |elements| != |before|
    requires Fits(SIZE_TYPE, |elements|) && AllFit(t, elements)
    requires var bytes := EncodeSized(t, elements); |bytes| <= Remaining(r) && Next(r, |bytes|) == bytes
    ensures ReadFixed(r, t, before).0.error && ReadFixed(r, t, before).1 == before
  {
    hide Fits, Encode, Decode, EncodeAll, Next;
    SizedRead(r, t, elements);
  }

  lemma FieldRefused(r: Reader, t: IntType, m: nat, before: Value, n: nat, x: Value)
    requires ReaderOk(r) && Typed(Fixed(t, m), before) && Typed(Fixed(t, n), x) && m != n
    requires var bytes := SaveField(Fixed(t, n), x); |bytes| <= Remaining(r) && Next(r, |bytes|) == bytes
    ensures LoadField(r, Fixed(t, m), before).0.error
  {
    hide Fits, Encode, EncodeAll, ReadFixed;
    FixedRefused(r, t, before.elements, x.elements);
  }

  /** A state whose field i is such a vector of another size than the loader's is refused, whatever comes after. */
  lemma {:induction false} OtherSizeRefused(r: Reader, ks: seq<Kind>, before: seq<Value>, ls: seq<Kind>,
                                            xs: seq<Value>, i: nat)
    requires ReaderOk(r) && AllTyped(ks, before) && AllTyped(ls, xs) && i < |ks| && i < |ls| && ks[..i] == ls[..i]
    requires ks[i].Fixed? && ls[i].Fixed? && ks[i].t == ls[i].t && ks[i].size != ls[i].size
    requires |Save(ls, xs)| <= Remaining(r) && Next(r, |Save(ls, xs)|) == Save(ls, xs)
    ensures Load(r, ks, before).0.error
    decreases i
  {
    hide Typed, SaveField, LoadField, Next;
    if !r.error {
      var first, rest := SaveField(ls[0], xs[0]), Save(ls[1..], xs[1..]);
      NextSplit(r, |first|, |rest|, first, rest);
      if i == 0 {
        FieldRefused(r, ks[0].t, ks[0].size, before[0], ls[0].size, xs[0]);
      } else {
        assert ks[0] == ks[..i][0] == ls[..i][0] == ls[0] && ks[1..][..i - 1] == ks[..i][1..] == ls[1..][..i - 1];
        FieldRead(r, ks[0], before[0], xs[0]);
        OtherSizeRefused(Skip(r, |first|), ks[1..], before[1..], ls[1..], xs[1..], i - 1);
      }
    }
  }

  /** Round trip: loading a saved state gives every value back, whatever the fields held before, without error
      and without a byte left over. */
  lemma SavedIsLoaded(ks: seq<Kind>, before: seq<Value>, xs: seq<Value>)
    requires AllTyped(ks, before) && AllTyped(ks, xs)
    ensures var (q, ys) := Load(Reader(Save(ks, xs), 0, false), ks, before);
            ys == xs && !q.error && Remaining(q) == 0
  {
    var r := Reader(Save(ks, xs), 0, false);
    assert Next(r, |Save(ks, xs)|) == Save(ks, xs);
    SavedIsLoadedFrom(r, ks, before, xs);
  }

  // ---- truncation ----

  /** The same reader on a longer input. */
  ghost predicate Extends(long: Reader, short: Reader) {
    short.input <= long.input && long.position == short.position && long.error == short.error
  }

  lemma NextSame(long: Reader, short: Reader, n: nat)
    requires Extends(long, short) && ReaderOk(short) && n <= Remaining(short)
    ensures ReaderOk(long) && n <= Remaining(long) && Next(long, n) == Next(short, n)
  {}

  lemma {:induction false} ElementsSame(long: Reader, short: Reader, t: IntType, n: nat)
    requires Extends(long, short) && ReaderOk(short) && n * t.width <= Remaining(short)
    ensures ReaderOk(long) && n * t.width <= Remaining(long)
    ensures ReadElements(long, t, n).1 == ReadElements(short, t, n).1
    decreases n
  {
    hide Fits, Decode;
    NextSame(long, short, n * t.width);
    if n > 0 {
      NextSame(long, short, t.width);
      ElementsSame(Skip(long, t.width), Skip(short, t.width), t, n - 1);
    }
  }

  lemma EachSame(long: Reader, short: Reader, t: IntType, before: seq<int>)
    requires Extends(long, short) && ReaderOk(short) && AllFit(t, before) && !ReadEach(short, t, before).0.error
    ensures ReaderOk(long)
    ensures Extends(ReadEach(long, t, before).0, ReadEach(short, t, before).0)
    ensures ReadEach(long, t, before).1 == ReadEach(short, t, before).1
  {
    EachEnough(short, t, before);
    ElementsSame(long, short, t, |before|);
    EachIsElements(long, t, before);
    EachIsElements(short, t, before);
  }

  /** What is read without error does not depend on what follows. */
  lemma FieldSame(long: Reader, short: Reader, k: Kind, before: Value)
    requires Extends(long, short) && ReaderOk(short) && Typed(k, before)
    requires !LoadField(short, k, before).0.error
    ensures ReaderOk(long)
    ensures Extends(LoadField(long, k, before).0, LoadField(short, k, before).0)
    ensures LoadField(long, k, before).1 == LoadField(short, k, before).1
  {
    hide Fits, Decode, ReadElements, ReadEach, Resize;
    match k {
      case Number(t) => NextSame(long, short, t.width);
      case Flag => NextSame(long, short, 1);
      case Block(n) => NextSame(long, short, n);
      case Span(t, _) => EachSame(long, short, t, before.elements);
      case Fixed(t, _) =>
        NextSame(long, short, 8);
        EachSame(Skip(long, 8), Skip(short, 8), t, before.elements);
      case Optional(t, _) =>
        NextSame(long, short, 8);
        var size := Decode(SIZE_TYPE, Next(short, 8));
        FitsSize(size);
        ResizeFits(t, before.elements, size);
        EachSame(Skip(long, 8), Skip(short, 8), t, Resize(before.elements, size));
      case Vector(t) =>
        NextSame(long, short, 8);
        var size := Decode(SIZE_TYPE, Next(short, 8));
        FitsSize(size);
        QuotientCovers(size, t.width, Remaining(Skip(short, 8)));
        QuotientCovers(size, t.width, Remaining(Skip(long, 8)));
        ElementsSame(Skip(long, 8), Skip(short, 8), t, size);
    }
  }

  lemma FitsSize(size: int)
    requires Fits(SIZE_TYPE, size)
    ensures size >= 0
  {}

  lemma {:induction false} LoadSame(long: Reader, short: Reader, ks: seq<Kind>, before: seq<Value>)
    requires Extends(long, short) && ReaderOk(short) && AllTyped(ks, before)
    requires !Load(short, ks, before).0.error
    ensures ReaderOk(long)
    ensures Extends(Load(long, ks, before).0, Load(short, ks, before).0)
    ensures Load(long, ks, before).1 == Load(short, ks, before).1
    decreases |ks|
  {
    hide Typed, LoadField;
    if ks != [] {
      FieldSame(long, short, ks[0], before[0]);
      LoadSame(LoadField(long, ks[0], before[0]).0, LoadField(short, ks[0], before[0]).0, ks[1..], before[1..]);
    }
  }

  /** Every strict prefix of a saved state ends with the error flag set. */
  lemma {:induction false} TruncationIsDetected(ks: seq<Kind>, before: seq<Value>, xs: seq<Value>, n: nat)
    requires AllTyped(ks, before) && AllTyped(ks, xs) && n < |Save(ks, xs)|
    ensures Load(Reader(Save(ks, xs)[..n], 0, false), ks, before).0.error
  {
    hide Load, Save;
    var long, short := Reader(Save(ks, xs), 0, false), Reader(Save(ks, xs)[..n], 0, false);
    SavedIsLoaded(ks, before, xs);
    if !Load(short, ks, before).0.error { LoadSame(long, short, ks, before); }
  }

  // ---- saving what was loaded ----

  lemma NextJoin(r: Reader, m: nat, n: nat)
    requires ReaderOk(r) && m + n <= Remaining(r)
    ensures Next(r, m) + Next(Skip(r, m), n) == Next(r, m + n)
  {}

  lemma ElementsStep(r: Reader, t: IntType, n: nat)
    requires ReaderOk(r) && 0 < n && n * t.width <= Remaining(r)
    ensures t.width <= Remaining(r) && (n - 1) * t.width <= Remaining(Skip(r, t.width))
    ensures EncodeAll(t, ReadElements(r, t, n).1)
         == Encode(t, Decode(t, Next(r, t.width))) + EncodeAll(t, ReadElements(Skip(r, t.width), t, n - 1).1)
  {
    hide Fits, Encode, Decode, Next;
    assert n * t.width == t.width + (n - 1) * t.width;
    var elements := ReadElements(r, t, n).1;
    assert elements[1..] == ReadElements(Skip(r, t.width), t, n - 1).1;
  }

  lemma {:induction false} ElementsSaved(r: Reader, t: IntType, n: nat)
    requires ReaderOk(r) && n * t.width <= Remaining(r)
    ensures EncodeAll(t, ReadElements(r, t, n).1) == Next(r, n * t.width)
    decreases n
  {
    hide Fits, Encode, Decode, Next;
    if n > 0 {
      hide ReadElements, EncodeAll;
      var s := Skip(r, t.width);
      var m := (n - 1) * t.width;
      assert n * t.width == t.width + m;
      NextJoin(r, t.width, m);
      EncodeDecode(t, Next(r, t.width));
      ElementsSaved(s, t, n - 1);
      ElementsStep(r, t, n);
    }
  }

  lemma EachSaved(r: Reader, t: IntType, before: seq<int>)
    requires ReaderOk(r) && AllFit(t, before) && !ReadEach(r, t, before).0.error
    ensures var n := |before| * t.width;
            n <= Remaining(r) && ReadEach(r, t, before).0 == Skip(r, n)
            && EncodeAll(t, ReadEach(r, t, before).1) == Next(r, n)
  {
    EachEnough(r, t, before);
    EachIsElements(r, t, before);
    ElementsSaved(r, t, |before|);
  }

  lemma SizeSaved(r: Reader)
    requires ReaderOk(r) && Remaining(r) >= 8
    ensures var size := Decode(SIZE_TYPE, Next(r, 8)); size >= 0 && Encode(SIZE_TYPE, size) == Next(r, 8)
  {
    EncodeDecode(SIZE_TYPE, Next(r, 8));
    FitsSize(Decode(SIZE_TYPE, Next(r, 8)));
  }

  lemma VectorSaved(r: Reader, t: IntType, before: seq<int>)
    requires ReaderOk(r) && Fits(SIZE_TYPE, |before|) && !ReadVector(r, t, before).0.error
    ensures var (q, elements) := ReadVector(r, t, before);
            Fits(SIZE_TYPE, |elements|)
            && var n := |EncodeSized(t, elements)|;
               n <= Remaining(r) && EncodeSized(t, elements) == Next(r, n) && q == Skip(r, n)
  {
    hide Fits, Encode, Decode, ReadElements, EncodeAll, Next;
    SizeSaved(r);
    var size := Decode(SIZE_TYPE, Next(r, 8));
    QuotientCovers(size, t.width, Remaining(Skip(r, 8)));
    ElementsSaved(Skip(r, 8), t, size);
    NextJoin(r, 8, size * t.width);
  }

  lemma FixedSaved(r: Reader, t: IntType, before: seq<int>)
    requires ReaderOk(r) && Fits(SIZE_TYPE, |before|) && AllFit(t, before) && !ReadFixed(r, t, before).0.error
    ensures var (q, elements) := ReadFixed(r, t, before);
            var n := |EncodeSized(t, elements)|;
            n <= Remaining(r) && EncodeSized(t, elements) == Next(r, n) && q == Skip(r, n)
  {
    hide Fits, Encode, Decode, ReadEach, EncodeAll, Next;
    SizeSaved(r);
    EachSaved(Skip(r, 8), t, before);
    NextJoin(r, 8, |before| * t.width);
  }

  lemma OptionalSaved(r: Reader, t: IntType, before: seq<int>, size: nat)
    requires ReaderOk(r) && Fits(SIZE_TYPE, |before|) && AllFit(t, before) && !ReadOptional(r, t, before, size).0.error
    ensures var (q, elements) := ReadOptional(r, t, before, size);
            var n := |EncodeSized(t, elements)|;
            n <= Remaining(r) && EncodeSized(t, elements) == Next(r, n) && q == Skip(r, n)
  {
    hide Fits, Encode, Decode, ReadEach, EncodeAll, Next, Resize;
    SizeSaved(r);
    var n := Decode(SIZE_TYPE, Next(r, 8));
    ResizeFits(t, before, n);
    EachSaved(Skip(r, 8), t, Resize(before, n));
    NextJoin(r, 8, n * t.width);
  }

  /** A field read without error saves to the very bytes it was read from. */
  lemma FieldSaved(r: Reader, k: Kind, before: Value)
    requires ReaderOk(r) && Typed(k, before) && !LoadField(r, k, before).0.error
    ensures var (q, x) := LoadField(r, k, before);
            r.position <= q.position && SaveField(k, x) == r.input[r.position..q.position]
  {
    hide Fits, Encode, Decode, ReadEach, ReadVector, ReadFixed, ReadOptional, EncodeAll, EncodeSized;
    match k {
      case Number(t) => EncodeDecode(t, Next(r, t.width));
      case Flag => assert r.input[r.position..r.position + 1] == [r.input[r.position]];
      case Block(_) =>
      case Span(t, _) => EachSaved(r, t, before.elements);
      case Vector(t) => VectorSaved(r, t, before.elements);
      case Fixed(t, _) => FixedSaved(r, t, before.elements);
      case Optional(t, size) => OptionalSaved(r, t, before.elements, size);
    }
  }

  lemma {:induction false} LoadedIsSavedFrom(r: Reader, ks: seq<Kind>, before: seq<Value>)
    requires ReaderOk(r) && AllTyped(ks, before) && !Load(r, ks, before).0.error
    ensures var (q, xs) := Load(r, ks, before);
            r.position <= q.position && Save(ks, xs) == r.input[r.position..q.position]
    decreases |ks|
  {
    hide Typed, SaveField, LoadField;
    if ks != [] {
      FieldSaved(r, ks[0], before[0]);
      var s := LoadField(r, ks[0], before[0]).0;
      LoadedIsSavedFrom(s, ks[1..], before[1..]);
      var (q, xs) := Load(r, ks, before);
      assert xs[1..] == Load(s, ks[1..], before[1..]).1;
      assert r.input[r.position..s.position] + r.input[s.position..q.position] == r.input[r.position..q.position];
    }
  }

  /** Any stream that loads without error and without bytes left over saves again to the identical bytes. */
  lemma {:induction false} LoadedIsSaved(input: Bytes, ks: seq<Kind>, before: seq<Value>)
    requires AllTyped(ks, before)
    requires var q := Load(Reader(input, 0, false), ks, before).0; !q.error && Remaining(q) == 0
    ensures Save(ks, Load(Reader(input, 0, false), ks, before).1) == input
  {
    LoadedIsSavedFrom(Reader(input, 0, false), ks, before);
  }
}
