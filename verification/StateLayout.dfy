/** What saved bytes are, position by position. */
module StateLayout {
  import Arithmetic
  import opened Checksums
  import opened MapperPages
  import opened MapperState
  import opened StateCodec
  import opened StateContainer
  import opened Types

  // ---- integers and fields ----

  lemma {:induction false} LeByte(v: nat, n: nat, j: nat)
    requires j < n
    ensures Le(v, n)[j] == v / Pow256(j) % 256
    decreases n
  {
    if j > 0 {
      LeByte(v / 256, n - 1, j - 1);
      DivideOn(v, Pow256(j - 1));
    }
  }

  lemma DivideOn(v: nat, p: nat)
    requires p > 0
    ensures v / 256 / p == v / (256 * p)
  {
    var q, r := v / 256 / p, v / 256 % p;
    assert v == 256 * (q * p + r) + v % 256;
    Arithmetic.DivideUnique(v, 256 * p, q, 256 * r + v % 256);
  }

  /** Byte j of an integer, in two's complement, least significant byte first. */
  function ByteOf(t: IntType, v: int, j: nat): int { (if v < 0 then v + Pow256(t.width) else v) / Pow256(j) % 256 }

  lemma EncodedByte(t: IntType, v: int, j: nat)
    requires Fits(t, v) && j < t.width
    ensures Encode(t, v)[j] == ByteOf(t, v, j)
  {
    LeByte(Unsigned(t, v), t.width, j);
  }

  lemma {:induction false} ElementByte(t: IntType, elements: seq<int>, i: nat, j: nat)
    requires AllFit(t, elements) && i < |elements| && j < t.width
    ensures i * t.width + j < |EncodeAll(t, elements)|
    ensures EncodeAll(t, elements)[i * t.width + j] == ByteOf(t, elements[i], j)
    decreases i
  {
    hide Encode, ByteOf, Fits;
    assert |elements| * t.width == t.width + (|elements| - 1) * t.width;
    if i == 0 {
      EncodedByte(t, elements[0], j);
    } else {
      assert i * t.width == t.width + (i - 1) * t.width;
      ElementByte(t, elements[1..], i - 1, j);
    }
  }

  /** A count of eight bytes, and then the elements. */
  predicate SizedBytes(t: IntType, elements: seq<int>, s: Bytes) {
    && |s| == 8 + |elements| * t.width && (forall j :: 0 <= j < 8 ==> s[j] == |elements| / Pow256(j) % 256)
    && forall i, j :: 0 <= i < |elements| && 0 <= j < t.width ==> s[8 + (i * t.width + j)] == ByteOf(t, elements[i], j)
  }

  lemma SizedLayout(t: IntType, elements: seq<int>)
    requires Fits(SIZE_TYPE, |elements|) && AllFit(t, elements)
    ensures SizedBytes(t, elements, EncodeSized(t, elements))
  {
    hide Encode, EncodeAll, AllFit, Fits, ByteOf;
    var s, tail := EncodeSized(t, elements), EncodeAll(t, elements);
    assert s[8..] == tail;
    forall j | 0 <= j < 8
      ensures s[j] == |elements| / Pow256(j) % 256
    {
      SizeByte(|elements|, j);
    }
    forall i, j | 0 <= i < |elements| && 0 <= j < t.width
      ensures s[8 + (i * t.width + j)] == ByteOf(t, elements[i], j)
    {
      ElementByte(t, elements, i, j);
      assert s[8..][i * t.width + j] == s[8 + (i * t.width + j)];
    }
  }

  lemma SizeByte(count: nat, j: nat)
    requires Fits(SIZE_TYPE, count) && j < 8
    ensures Encode(SIZE_TYPE, count)[j] == count / Pow256(j) % 256
  {
    EncodedByte(SIZE_TYPE, count, j);
  }

  /** Every kind of field. */
  lemma FieldLayout(k: Kind, x: Value)
    requires Typed(k, x)
    ensures var s := SaveField(k, x);
            match k
            case Number(t) => |s| == t.width && forall j :: 0 <= j < t.width ==> s[j] == ByteOf(t, x.v, j)
            case Flag => s == [if x.b then 1 else 0]
            case Block(_) => s == x.bytes
            case Span(t, _) =>
              && |s| == |x.elements| * t.width
              && forall i, j :: 0 <= i < |x.elements| && 0 <= j < t.width ==>
                   i * t.width + j < |s| && s[i * t.width + j] == ByteOf(t, x.elements[i], j)
            case Vector(t) => SizedBytes(t, x.elements, s)
            case Fixed(t, _) => SizedBytes(t, x.elements, s)
            case Optional(t, _) => SizedBytes(t, x.elements, s)
  {
    hide Encode, EncodeAll, EncodeSized, SizedBytes, ByteOf;
    match k
    case Number(t) =>
      forall j | 0 <= j < t.width
        ensures Encode(t, x.v)[j] == ByteOf(t, x.v, j)
      {
        EncodedByte(t, x.v, j);
      }
    case Flag =>
    case Block(_) =>
    case Span(t, _) =>
      forall i, j | 0 <= i < |x.elements| && 0 <= j < t.width
        ensures i * t.width + j < |EncodeAll(t, x.elements)|
             && EncodeAll(t, x.elements)[i * t.width + j] == ByteOf(t, x.elements[i], j)
      {
        ElementByte(t, x.elements, i, j);
      }
    case Vector(t) => SizedLayout(t, x.elements);
    case Fixed(t, _) => SizedLayout(t, x.elements);
    case Optional(t, _) => SizedLayout(t, x.elements);
  }

  /** Fields follow one another in order. */
  lemma {:induction false} SaveInOrder(ks: seq<Kind>, ls: seq<Kind>, xs: seq<Value>, ys: seq<Value>)
    requires AllTyped(ks, xs) && AllTyped(ls, ys)
    ensures AllTyped(ks + ls, xs + ys) && Save(ks + ls, xs + ys) == Save(ks, xs) + Save(ls, ys)
    decreases |ks|
  {
    hide Typed, SaveField;
    TypedConcat(ks, ls, xs, ys);
    if ks == [] {
      assert ks + ls == ls && xs + ys == ys;
    } else {
      assert (ks + ls)[1..] == ks[1..] + ls && (xs + ys)[1..] == xs[1..] + ys;
      SaveInOrder(ks[1..], ls, xs[1..], ys);
    }
  }

  // ---- the container ----

  /** The 32 bytes before the body: EAR6STAT, version 1, the preamble's size, the body's size and CRC, and 0. */
  lemma BuiltBytes(body: Bytes, j: nat)
    requires j < 32
    ensures var byte, crc := Build(body)[j], Crc(body) as int;
            byte == if j < 8 then [69, 65, 82, 54, 83, 84, 65, 84][j]
                    else if j == 8 then 1 else if j == 12 then 32
                    else if 16 <= j < 24 then |body| / Pow256(j - 16) % 256
                    else if 24 <= j < 28 then crc / Pow256(j - 24) % 256 else 0
    ensures Build(body)[32..] == body
  {
    hide Crc, Le, Pow256;
    assert Build(body)[j] == Preamble(body)[j];
    if 8 <= j < 12 { LeSmall(1, j - 8); LeByte(1, 4, j - 8); }
    if 12 <= j < 16 { LeSmall(32, j - 12); LeByte(32, 4, j - 12); }
    if 16 <= j < 24 { LeByte(|body|, 8, j - 16); }
    if 24 <= j < 28 { LeByte(Crc(body) as int, 4, j - 24); }
    if 28 <= j < 32 { LeSmall(0, j - 28); LeByte(0, 4, j - 28); }
  }

  lemma LeSmall(v: u8, j: nat)
    ensures v / Pow256(j) % 256 == if j == 0 then v else 0
  {
    if j > 0 {
      assert Pow256(j - 1) >= 1;
      Arithmetic.DivideUnique(v, Pow256(j), 0, v);
    }
  }

  // ---- a mapper ----

  function Sized(bytes: Bytes): Bytes { Le(|bytes|, 8) + bytes }

  function AllSized(areas: seq<Area>): Bytes {
    if areas == [] then [] else Sized(areas[0].bytes) + AllSized(areas[1..])
  }

  /** The code of an array: 1 to 6 for PRG ROM, CHR ROM, CHR RAM, work RAM, save RAM and nametable RAM, 128 and up for
      those of the mapper; and how far into it the pointer is. */
  lemma PointerEntry(areas: Areas, p: nat, k: nat)
    requires Laid(areas) && k < |areas| && Inside(areas[k], p)
    ensures SavePage(areas, p) == (Entry(if k < 6 then k + 1 else 128 + k - 6, p - areas[k].base), true)
  {
    LocateUnique(areas, p, k);
    assert |areas[k].bytes| <= 0x1_0000_0000;
  }

  lemma BytesAsElements(bytes: Bytes)
    ensures AllFit(BYTE, bytes) && EncodeAll(BYTE, bytes) == bytes
  {
    BytesFit(bytes);
    if bytes != [] {
      BytesAsElements(bytes[1..]);
      var first: u8 := bytes[0];
      assert Encode(BYTE, first) == [first] by {
        EncodedByte(BYTE, first, 0);
        assert Pow256(1) == 256 * Pow256(0);
      }
    }
  }

  lemma SizedArea(size: nat, bytes: Bytes)
    requires Fits(SIZE_TYPE, |bytes|)
    ensures size == |bytes| ==>
              Typed(Fixed(BYTE, size), Vec(bytes)) && SaveField(Fixed(BYTE, size), Vec(bytes)) == Sized(bytes)
    ensures |bytes| == 0 || size == |bytes| ==>
              Typed(Optional(BYTE, size), Vec(bytes)) && SaveField(Optional(BYTE, size), Vec(bytes)) == Sized(bytes)
  {
    BytesAsElements(bytes);
    hide AllFit, EncodeAll, Fits;
  }

  lemma SaveOne(k: Kind, x: Value)
    requires Typed(k, x)
    ensures AllTyped([k], [x]) && Save([k], [x]) == SaveField(k, x)
  {
    hide Typed, SaveField;
    assert [k][1..] == [] && [x][1..] == [];
  }

  lemma SaveCons(k: Kind, ks: seq<Kind>, x: Value, xs: seq<Value>)
    requires Typed(k, x) && AllTyped(ks, xs)
    ensures AllTyped([k] + ks, [x] + xs) && Save([k] + ks, [x] + xs) == SaveField(k, x) + Save(ks, xs)
  {
    hide Typed, SaveField;
    assert ([k] + ks)[1..] == ks && ([x] + xs)[1..] == xs;
  }

  function AreaKinds(areas: seq<Area>): seq<Kind> {
    seq(|areas|, i requires 0 <= i < |areas| => Fixed(BYTE, |areas[i].bytes|))
  }

  function AreaValues(areas: seq<Area>): seq<Value> {
    seq(|areas|, i requires 0 <= i < |areas| => Vec(areas[i].bytes))
  }

  lemma AreaCons(areas: seq<Area>)
    requires areas != []
    ensures AreaKinds(areas) == [Fixed(BYTE, |areas[0].bytes|)] + AreaKinds(areas[1..])
    ensures AreaValues(areas) == [Vec(areas[0].bytes)] + AreaValues(areas[1..])
  {}

  lemma {:induction false} AreasSaved(areas: seq<Area>)
    requires forall i :: 0 <= i < |areas| ==> Fits(SIZE_TYPE, |areas[i].bytes|)
    ensures AllTyped(AreaKinds(areas), AreaValues(areas))
    ensures Save(AreaKinds(areas), AreaValues(areas)) == AllSized(areas)
    decreases |areas|
  {
    hide Typed, SaveField, Fits;
    if areas != [] {
      var k, x := Fixed(BYTE, |areas[0].bytes|), Vec(areas[0].bytes);
      SizedArea(|areas[0].bytes|, areas[0].bytes);
      AreasSaved(areas[1..]);
      AreaCons(areas);
      hide AreaKinds, AreaValues, Sized, Save;
      SaveCons(k, AreaKinds(areas[1..]), x, AreaValues(areas[1..]));
    }
  }

  /** Five bytes an entry: the array's code and four of the offset. */
  function EntryBytes(entries: seq<Entry>): Bytes {
    if entries == [] then [] else [entries[0].region] + Le(entries[0].offset, 4) + EntryBytes(entries[1..])
  }

  lemma {:induction false} EntriesSaved(entries: seq<Entry>)
    ensures AllTyped(EntryKinds(|entries|), EntryValues(entries))
    ensures Save(EntryKinds(|entries|), EntryValues(entries)) == EntryBytes(entries)
    decreases |entries|
  {
    hide Typed, SaveField, Le;
    EntriesTyped(entries);
    if entries != [] {
      var n, e, rest := |entries|, entries[0], entries[1..];
      EntriesSaved(rest);
      OneEntry(e);
      var ks, xs := [Number(BYTE), Number(OFFSET)], [Num(e.region), Num(e.offset)];
      EntryValuesCons(entries);
      assert EntryKinds(n) == ks + EntryKinds(n - 1);
      SaveInOrder(ks, EntryKinds(n - 1), xs, EntryValues(rest));
    }
  }

  lemma EntryValuesCons(entries: seq<Entry>)
    requires entries != []
    ensures EntryValues(entries) == [Num(entries[0].region), Num(entries[0].offset)] + EntryValues(entries[1..])
  {
    forall i | 2 <= i < 2 * |entries|
      ensures EntryValues(entries)[i] == EntryValues(entries[1..])[i - 2]
    {
      assert (i - 2) / 2 == i / 2 - 1 && (i - 2) % 2 == i % 2 && entries[1..][i / 2 - 1] == entries[i / 2];
    }
  }

  lemma OneEntry(e: Entry)
    ensures var ks, xs := [Number(BYTE), Number(OFFSET)], [Num(e.region), Num(e.offset)];
            AllTyped(ks, xs) && Save(ks, xs) == [e.region] + Le(e.offset, 4)
  {
    var k, x, l, y := Number(BYTE), Num(e.region), Number(OFFSET), Num(e.offset);
    EntriesTyped([e]);
    assert EntryKinds(1)[0] == k && EntryKinds(1)[1] == l && EntryValues([e])[0] == x && EntryValues([e])[1] == y;
    BytesAsElements([e.region]);
    assert Encode(BYTE, e.region) == [e.region] by {
      EncodedByte(BYTE, e.region, 0);
      assert Pow256(1) == 256 * Pow256(0);
    }
    SaveOne(l, y);
    SaveCons(k, [l], x, [y]);
    assert [k] + [l] == [k, l] && [x] + [y] == [x, y];
    hide Encode;
    assert SaveField(l, y) == Le(e.offset, 4) by { OffsetEncoded(e.offset); }
  }

  lemma OffsetEncoded(offset: u32)
    ensures Fits(OFFSET, offset) && Encode(OFFSET, offset) == Le(offset, 4)
  {
    Powers();
  }

  /** A whole mapper: its own arrays, CHR RAM, work RAM and save RAM, each after its size in eight bytes; nametable RAM
      and the mirroring; the entries of the PRG and CHR pages; and the three tables. */
  lemma MapperLayout(m: Mapper)
    requires WellFormed(m)
    ensures SaveMapper(m).0
         == AllSized(m.areas[6..]) + Sized(m.areas[2].bytes) + Sized(m.areas[3].bytes) + Sized(m.areas[4].bytes)
            + m.areas[5].bytes + Encode(ENUM, m.mirroring) + EntryBytes(SavedEntries(m))
            + EncodeAll(ENUM, m.prgAccess) + EncodeAll(ENUM, m.chrAccess) + EncodeAll(ENUM, m.chrTypes)
  {
    hide Typed, SaveField, Encode, EncodeAll, Fits, SavedEntries, Save, AllTyped, HeadKinds, HeadValues, EntryKinds,
         EntryValues, TailValues, Sized, AllSized, EntryBytes, AllLocated, WellFormed, AllFit;
    var entries := SavedEntries(m);
    HeadSaved(m);
    EntriesSaved(entries);
    TailSaved(m);
    SaveInOrder(HeadKinds(m), EntryKinds(512), HeadValues(m), EntryValues(entries));
    SaveInOrder(HeadKinds(m) + EntryKinds(512), TAIL_KINDS, HeadValues(m) + EntryValues(entries), TailValues(m));
  }

  function FiveKinds(m: Mapper): seq<Kind> {
    [Optional(BYTE, m.chrRamSize), Fixed(BYTE, |m.areas[3].bytes|), Fixed(BYTE, |m.areas[4].bytes|),
     Span(BYTE, |m.areas[5].bytes|), Number(ENUM)]
  }

  function FiveValues(m: Mapper): seq<Value> {
    [Vec(m.areas[2].bytes), Vec(m.areas[3].bytes), Vec(m.areas[4].bytes), Vec(m.areas[5].bytes), Num(m.mirroring)]
  }

  lemma HeadParts(m: Mapper)
    ensures HeadKinds(m) == AreaKinds(m.areas[6..]) + FiveKinds(m)
    ensures HeadValues(m) == AreaValues(m.areas[6..]) + FiveValues(m)
  {}

  lemma HeadSaved(m: Mapper)
    requires WellFormed(m)
    ensures AllTyped(HeadKinds(m), HeadValues(m))
    ensures Save(HeadKinds(m), HeadValues(m))
         == AllSized(m.areas[6..]) + Sized(m.areas[2].bytes) + Sized(m.areas[3].bytes) + Sized(m.areas[4].bytes)
            + m.areas[5].bytes + Encode(ENUM, m.mirroring)
  {
    HeadParts(m);
    hide Typed, SaveField, Encode, Fits, Save, AllTyped, AreaKinds, AreaValues, FiveKinds, FiveValues, HeadKinds,
         HeadValues, Sized, AllSized;
    HeadTyped(m);
    AreasSaved(m.areas[6..]);
    FiveSaved(m);
    SaveInOrder(AreaKinds(m.areas[6..]), FiveKinds(m), AreaValues(m.areas[6..]), FiveValues(m));
  }

  lemma SpanField(bytes: Bytes)
    ensures var k, x := Span(BYTE, |bytes|), Vec(bytes); Typed(k, x) && SaveField(k, x) == bytes
  {
    BytesAsElements(bytes);
    hide EncodeAll, AllFit;
  }

  lemma FiveSaved(m: Mapper)
    requires WellFormed(m)
    ensures var c, w, v, n := m.areas[2].bytes, m.areas[3].bytes, m.areas[4].bytes, m.areas[5].bytes;
            && AllTyped(FiveKinds(m), FiveValues(m))
            && Save(FiveKinds(m), FiveValues(m)) == Sized(c) + Sized(w) + Sized(v) + n + Encode(ENUM, m.mirroring)
  {
    hide Sized, Encode, Save, SaveField, Typed, AllTyped, Fits;
    var c, w, v, n := m.areas[2].bytes, m.areas[3].bytes, m.areas[4].bytes, m.areas[5].bytes;
    var p, x := Optional(BYTE, m.chrRamSize), Vec(c);
    var q, y := Fixed(BYTE, |w|), Vec(w);
    var r, z := Fixed(BYTE, |v|), Vec(v);
    SizedArea(m.chrRamSize, c);
    SizedArea(|w|, w);
    SizedArea(|v|, v);
    var tail, ends := [Span(BYTE, |n|), Number(ENUM)], [Vec(n), Num(m.mirroring)];
    TwoSaved(m);
    SaveCons(r, tail, z, ends);
    SaveCons(q, [r] + tail, y, [z] + ends);
    SaveCons(p, [q] + ([r] + tail), x, [y] + ([z] + ends));
    assert FiveKinds(m) == [p] + ([q] + ([r] + tail)) && FiveValues(m) == [x] + ([y] + ([z] + ends));
  }

  lemma TwoSaved(m: Mapper)
    requires WellFormed(m)
    ensures var n := m.areas[5].bytes;
            var ks, xs := [Span(BYTE, |n|), Number(ENUM)], [Vec(n), Num(m.mirroring)];
            AllTyped(ks, xs) && Save(ks, xs) == n + Encode(ENUM, m.mirroring)
  {
    var n := m.areas[5].bytes;
    var k, x := Number(ENUM), Num(m.mirroring);
    SpanField(n);
    assert SaveField(k, x) == Encode(ENUM, m.mirroring);
    hide Encode, Save, SaveField, Fits;
    SaveOne(k, x);
    SaveCons(Span(BYTE, |n|), [k], Vec(n), [x]);
    assert [Span(BYTE, |n|)] + [k] == [Span(BYTE, |n|), k] && [Vec(n)] + [x] == [Vec(n), x];
  }

  lemma TailSaved(m: Mapper)
    requires WellFormed(m)
    ensures AllTyped(TAIL_KINDS, TailValues(m))
    ensures Save(TAIL_KINDS, TailValues(m))
         == EncodeAll(ENUM, m.prgAccess) + EncodeAll(ENUM, m.chrAccess) + EncodeAll(ENUM, m.chrTypes)
  {
    hide EncodeAll, AllFit;
    var k := Span(ENUM, 256);
    SaveOne(k, Vec(m.chrTypes));
    hide Save, AllTyped;
    SaveCons(k, [k], Vec(m.chrAccess), [Vec(m.chrTypes)]);
    SaveCons(k, [k] + [k], Vec(m.prgAccess), [Vec(m.chrAccess)] + [Vec(m.chrTypes)]);
    assert [k] + ([k] + [k]) == TAIL_KINDS;
    assert [Vec(m.prgAccess)] + ([Vec(m.chrAccess)] + [Vec(m.chrTypes)]) == TailValues(m);
  }
}
