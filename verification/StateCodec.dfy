/** The save-state codec (src/core/state_stream.h) as values: one schema drives both saving and loading. */
module StateCodec {
  import opened Types

  type Width = w: int | w == 1 || w == 2 || w == 4 || w == 8 witness 1

  // ---- integers, least significant byte first ----

  function Pow256(n: nat): (p: nat)
    ensures p > 0
  {
    if n == 0 then 1 else 256 * Pow256(n - 1)
  }

  function Le(v: nat, n: nat): (s: Bytes)
    ensures |s| == n
    decreases n
  {
    if n == 0 then [] else [v % 256] + Le(v / 256, n - 1)
  }

  function FromLe(s: Bytes): (v: nat)
    ensures v < Pow256(|s|)
  {
    if s == [] then 0 else s[0] + 256 * FromLe(s[1..])
  }

  lemma {:induction false} FromLeLe(v: nat, n: nat)
    requires v < Pow256(n)
    ensures FromLe(Le(v, n)) == v
    decreases n
  {
    if n > 0 {
      FromLeLe(v / 256, n - 1);
      assert Le(v, n)[1..] == Le(v / 256, n - 1);
    }
  }

  lemma {:induction false} LeFromLe(s: Bytes)
    ensures Le(FromLe(s), |s|) == s
  {
    if s != [] {
      LeFromLe(s[1..]);
      assert FromLe(s) % 256 == s[0] && FromLe(s) / 256 == FromLe(s[1..]);
      assert s == [s[0]] + s[1..];
    }
  }

  /** An integer type of the program. */
  datatype IntType = IntType(width: Width, signed: bool)

  predicate Fits(t: IntType, v: int) {
    if t.signed then 0 <= 2 * v + Pow256(t.width) < 2 * Pow256(t.width) else 0 <= v < Pow256(t.width)
  }

  function Unsigned(t: IntType, v: int): (u: nat)
    requires Fits(t, v)
    ensures u < Pow256(t.width)
  {
    if v < 0 then v + Pow256(t.width) else v
  }

  /** The conversions to the unsigned type of the same width, and back. */
  function Encode(t: IntType, v: int): (s: Bytes)
    requires Fits(t, v)
    ensures |s| == t.width
  {
    Le(Unsigned(t, v), t.width)
  }

  function Decode(t: IntType, s: Bytes): (v: int)
    requires |s| == t.width
    ensures Fits(t, v)
  {
    var u := FromLe(s);
    if t.signed && 2 * u >= Pow256(t.width) then u - Pow256(t.width) else u
  }

  lemma DecodeEncode(t: IntType, v: int)
    requires Fits(t, v)
    ensures Decode(t, Encode(t, v)) == v
  {
    FromLeLe(Unsigned(t, v), t.width);
  }

  lemma EncodeDecode(t: IntType, s: Bytes)
    requires |s| == t.width
    ensures Encode(t, Decode(t, s)) == s
  {
    LeFromLe(s);
  }

  // ---- fields ----

  /** What a serialize function syncs: an integer or enum, a bool, a block of bytes, a growable vector, an array, a
      vector of a size that both sides know, and one that may also be empty. */
  datatype Kind = Number(t: IntType) | Flag | Block(size: nat) | Vector(t: IntType) | Span(t: IntType, size: nat)
                | Fixed(t: IntType, size: nat) | Optional(t: IntType, size: nat)

  datatype Value = Num(v: int) | Bool(b: bool) | Raw(bytes: Bytes) | Vec(elements: seq<int>)

  const SIZE_TYPE := IntType(8, false)

  predicate Typed(k: Kind, x: Value) {
    match k
    case Number(t) => x.Num? && Fits(t, x.v)
    case Flag => x.Bool?
    case Block(size) => x.Raw? && |x.bytes| == size
    case Vector(t) => x.Vec? && Fits(SIZE_TYPE, |x.elements|) && AllFit(t, x.elements)
    case Span(t, size) => x.Vec? && |x.elements| == size && AllFit(t, x.elements)
    case Fixed(t, size) =>
      x.Vec? && Fits(SIZE_TYPE, |x.elements|) && |x.elements| == size && AllFit(t, x.elements)
    case Optional(t, size) =>
      && x.Vec? && Fits(SIZE_TYPE, |x.elements|) && (|x.elements| == 0 || |x.elements| == size)
      && AllFit(t, x.elements)
  }

  predicate AllFit(t: IntType, elements: seq<int>) { forall i :: 0 <= i < |elements| ==> Fits(t, elements[i]) }

  function EncodeAll(t: IntType, elements: seq<int>): (s: Bytes)
    requires AllFit(t, elements)
    ensures |s| == |elements| * t.width
  {
    if elements == [] then [] else Encode(t, elements[0]) + EncodeAll(t, elements[1..])
  }

  function EncodeSized(t: IntType, elements: seq<int>): Bytes
    requires Fits(SIZE_TYPE, |elements|) && AllFit(t, elements)
  {
    Encode(SIZE_TYPE, |elements|) + EncodeAll(t, elements)
  }

  function SaveField(k: Kind, x: Value): Bytes
    requires Typed(k, x)
  {
    match k
    case Number(t) => Encode(t, x.v)
    case Flag => [if x.b then 1 else 0]
    case Block(_) => x.bytes
    case Span(t, _) => EncodeAll(t, x.elements)
    case Vector(t) => EncodeSized(t, x.elements)
    case Fixed(t, _) => EncodeSized(t, x.elements)
    case Optional(t, _) => EncodeSized(t, x.elements)
  }

  /** A stream being read: the error flag is never cleared. */
  datatype Reader = Reader(input: Bytes, position: nat, error: bool)

  predicate ReaderOk(r: Reader) { r.position <= |r.input| }

  function Remaining(r: Reader): nat
    requires ReaderOk(r)
  {
    |r.input| - r.position
  }

  function Next(r: Reader, n: nat): (s: Bytes)
    requires ReaderOk(r) && n <= Remaining(r)
    ensures |s| == n
  {
    r.input[r.position..r.position + n]
  }

  function Fail(r: Reader): Reader { r.(error := true) }

  function Skip(r: Reader, n: nat): Reader { r.(position := r.position + n) }

  /** sync: a value that cannot be read keeps its old contents. */
  function ReadNumber(r: Reader, t: IntType, before: int): (q: (Reader, int))
    requires ReaderOk(r)
    ensures ReaderOk(q.0)
  {
    if Remaining(r) < t.width then (Fail(r), before) else (Skip(r, t.width), Decode(t, Next(r, t.width)))
  }

  function ReadFlag(r: Reader, before: bool): (q: (Reader, bool))
    requires ReaderOk(r)
    ensures ReaderOk(q.0)
  {
    if Remaining(r) < 1 then (Fail(r), before)
    else
      var encoded := r.input[r.position];
      if encoded > 1 then (Fail(Skip(r, 1)), before) else (Skip(r, 1), encoded != 0)
  }

  function ReadBlock(r: Reader, before: Bytes): (q: (Reader, Bytes))
    requires ReaderOk(r)
    ensures ReaderOk(q.0)
  {
    var n := |before|;
    if Remaining(r) < n then (Fail(r), before) else (Skip(r, n), Next(r, n))
  }

  function ReadElements(r: Reader, t: IntType, n: nat): (q: (Reader, seq<int>))
    requires ReaderOk(r) && n * t.width <= Remaining(r)
    ensures ReaderOk(q.0) && |q.1| == n && q.0 == Skip(r, n * t.width)
    ensures AllFit(t, q.1)
    decreases n
  {
    if n == 0 then (r, [])
    else
      var (q, first) := ReadNumber(r, t, 0);
      var (p, rest) := ReadElements(q, t, n - 1);
      (p, [first] + rest)
  }

  /** sync_vector: the size is checked against what is left before anything is resized. */
  function ReadVector(r: Reader, t: IntType, before: seq<int>): (q: (Reader, seq<int>))
    requires ReaderOk(r) && Fits(SIZE_TYPE, |before|)
    ensures ReaderOk(q.0)
  {
    var (s, size) := ReadNumber(r, SIZE_TYPE, |before|);
    if s.error then (s, before)
    else if size > Remaining(s) / t.width then (Fail(s), before)
    else ReadElements(s, t, size)
  }

  /** A sync for each element; those that cannot be read keep their old contents. */
  function ReadEach(r: Reader, t: IntType, before: seq<int>): (q: (Reader, seq<int>))
    requires ReaderOk(r) && AllFit(t, before)
    ensures ReaderOk(q.0) && q.0.input == r.input && (r.error ==> q.0.error)
    ensures |q.1| == |before| && AllFit(t, q.1)
    decreases |before|
  {
    if before == [] then (r, [])
    else
      var (q, first) := ReadNumber(r, t, before[0]);
      var (p, rest) := ReadEach(q, t, before[1..]);
      (p, [first] + rest)
  }

  /** sync_fixed_vector: the size must be the one that is there. */
  function ReadFixed(r: Reader, t: IntType, before: seq<int>): (q: (Reader, seq<int>))
    requires ReaderOk(r) && Fits(SIZE_TYPE, |before|) && AllFit(t, before)
    ensures ReaderOk(q.0) && q.0.input == r.input && (r.error ==> q.0.error)
    ensures |q.1| == |before| && AllFit(t, q.1)
  {
    var (s, size) := ReadNumber(r, SIZE_TYPE, |before|);
    if s.error then (s, before)
    else if size != |before| then (Fail(s), before)
    else ReadEach(s, t, before)
  }

  /** vector::resize */
  function Resize(elements: seq<int>, size: nat): (r: seq<int>)
    ensures |r| == size
  {
    if size <= |elements| then elements[..size] else elements + seq(size - |elements|, i => 0)
  }

  /** sync_optional_fixed_vector: empty, or of the fixed size. */
  function ReadOptional(r: Reader, t: IntType, before: seq<int>, fixedSize: nat): (q: (Reader, seq<int>))
    requires ReaderOk(r) && Fits(SIZE_TYPE, |before|) && AllFit(t, before)
    ensures ReaderOk(q.0) && q.0.input == r.input && (r.error ==> q.0.error)
    ensures (|q.1| == |before| || |q.1| == 0 || |q.1| == fixedSize) && Fits(SIZE_TYPE, |q.1|) && AllFit(t, q.1)
  {
    var (s, size) := ReadNumber(r, SIZE_TYPE, |before|);
    if s.error then (s, before)
    else if size != 0 && size != fixedSize then (Fail(s), before)
    else ReadEach(s, t, Resize(before, size))
  }

  function LoadField(r: Reader, k: Kind, before: Value): (q: (Reader, Value))
    requires ReaderOk(r) && Typed(k, before)
    ensures ReaderOk(q.0) && q.0.input == r.input && (r.error ==> q.0.error) && Typed(k, q.1)
  {
    match k
    case Number(t) => var (q, v) := ReadNumber(r, t, before.v); (q, Num(v))
    case Flag => var (q, b) := ReadFlag(r, before.b); (q, Bool(b))
    case Block(_) => var (q, bytes) := ReadBlock(r, before.bytes); (q, Raw(bytes))
    case Vector(t) => var (q, elements) := ReadVector(r, t, before.elements); (q, Vec(elements))
    case Span(t, _) => var (q, elements) := ReadEach(r, t, before.elements); (q, Vec(elements))
    case Fixed(t, _) => var (q, elements) := ReadFixed(r, t, before.elements); (q, Vec(elements))
    case Optional(t, size) => var (q, elements) := ReadOptional(r, t, before.elements, size); (q, Vec(elements))
  }

  // ---- schemas ----

  predicate AllTyped(ks: seq<Kind>, xs: seq<Value>) {
    |ks| == |xs| && forall i :: 0 <= i < |ks| ==> Typed(ks[i], xs[i])
  }

  function Save(ks: seq<Kind>, xs: seq<Value>): Bytes
    requires AllTyped(ks, xs)
    decreases |ks|
  {
    if ks == [] then [] else SaveField(ks[0], xs[0]) + Save(ks[1..], xs[1..])
  }

  /** Loading goes on after an error; the flag tells at the end. */
  function Load(r: Reader, ks: seq<Kind>, before: seq<Value>): (q: (Reader, seq<Value>))
    requires ReaderOk(r) && AllTyped(ks, before)
    ensures ReaderOk(q.0) && q.0.input == r.input && (r.error ==> q.0.error) && AllTyped(ks, q.1)
    decreases |ks|
  {
    if ks == [] then (r, [])
    else
      var (s, x) := LoadField(r, ks[0], before[0]);
      var (q, xs) := Load(s, ks[1..], before[1..]);
      (q, [x] + xs)
  }
}
