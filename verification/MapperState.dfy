/** BaseMapper::serialize, with the arrays that a mapper syncs before it (src/systems/nes/nes_state.cpp): the contents
    of every RAM array, and the page tables that point into them. */
module MapperState {
  import opened MapperPages
  import opened StateCodec
  import opened StateRoundTrip
  import opened Types

  const BYTE := IntType(1, false)
  const OFFSET := IntType(4, false)
  const ENUM := IntType(4, true)

  type Pointers = s: seq<nat> | |s| == 256 witness seq(256, i => 0)

  /** `chrRamSize` is what get_chr_ram_size returns; CHR RAM has that size or none. */
  datatype Mapper = Mapper(areas: Areas, chrRamSize: nat, mirroring: int, prgPages: Pointers, chrPages: Pointers,
                           prgAccess: seq<int>, chrAccess: seq<int>, chrTypes: seq<int>)

  predicate IsTable(s: seq<int>) { |s| == 256 && AllFit(ENUM, s) }

  predicate WellFormed(m: Mapper) {
    && (forall k :: 0 <= k < |m.areas| ==> Fits(SIZE_TYPE, |m.areas[k].bytes|))
    && (|m.areas[2].bytes| == 0 || |m.areas[2].bytes| == m.chrRamSize)
    && Fits(ENUM, m.mirroring) && IsTable(m.prgAccess) && IsTable(m.chrAccess) && IsTable(m.chrTypes)
  }

  function Own(m: Mapper): nat { |m.areas| - 6 }

  lemma BytesFit(s: Bytes)
    ensures AllFit(BYTE, s)
  {
    assert Pow256(1) == 256 * Pow256(0);
  }

  function AsBytes(s: seq<int>): (b: Bytes)
    requires AllFit(BYTE, s)
    ensures b == s
  {
    assert Pow256(1) == 256 * Pow256(0);
    s
  }

  // ---- the schema ----

  /** The arrays: the mapper's own, CHR RAM, work RAM, save RAM and nametable RAM; then the mirroring. */
  function HeadKinds(m: Mapper): (ks: seq<Kind>)
    ensures |ks| == Own(m) + 5
  {
    seq(Own(m), i requires 0 <= i < Own(m) => Fixed(BYTE, |m.areas[6 + i].bytes|))
    + [Optional(BYTE, m.chrRamSize), Fixed(BYTE, |m.areas[3].bytes|), Fixed(BYTE, |m.areas[4].bytes|),
       Span(BYTE, |m.areas[5].bytes|), Number(ENUM)]
  }

  function HeadValues(m: Mapper): (xs: seq<Value>)
    ensures |xs| == Own(m) + 5
  {
    seq(Own(m), i requires 0 <= i < Own(m) => Vec(m.areas[6 + i].bytes))
    + [Vec(m.areas[2].bytes), Vec(m.areas[3].bytes), Vec(m.areas[4].bytes), Vec(m.areas[5].bytes),
       Num(m.mirroring)]
  }

  /** n pages, each a region and an offset. */
  function EntryKinds(n: nat): (ks: seq<Kind>)
    ensures |ks| == 2 * n
  {
    seq(2 * n, i => if i % 2 == 0 then Number(BYTE) else Number(OFFSET))
  }

  function EntryValues(entries: seq<Entry>): (xs: seq<Value>)
    ensures |xs| == 2 * |entries|
  {
    seq(2 * |entries|, i requires 0 <= i < 2 * |entries| =>
      if i % 2 == 0 then Num(entries[i / 2].region) else Num(entries[i / 2].offset))
  }

  const TAIL_KINDS := [Span(ENUM, 256), Span(ENUM, 256), Span(ENUM, 256)]

  function TailValues(m: Mapper): seq<Value> { [Vec(m.prgAccess), Vec(m.chrAccess), Vec(m.chrTypes)] }

  function Kinds(m: Mapper): seq<Kind> { HeadKinds(m) + EntryKinds(512) + TAIL_KINDS }

  function Values(m: Mapper, entries: seq<Entry>): (xs: seq<Value>)
    requires WellFormed(m) && |entries| == 512
    ensures AllTyped(Kinds(m), xs)
  {
    HeadTyped(m);
    EntriesTyped(entries);
    TypedConcat(HeadKinds(m), EntryKinds(512), HeadValues(m), EntryValues(entries));
    TypedConcat(HeadKinds(m) + EntryKinds(512), TAIL_KINDS, HeadValues(m) + EntryValues(entries), TailValues(m));
    HeadValues(m) + EntryValues(entries) + TailValues(m)
  }

  lemma TypedConcat(ks: seq<Kind>, ls: seq<Kind>, xs: seq<Value>, ys: seq<Value>)
    requires AllTyped(ks, xs) && AllTyped(ls, ys)
    ensures AllTyped(ks + ls, xs + ys)
  {}

  lemma HeadTyped(m: Mapper)
    requires WellFormed(m)
    ensures AllTyped(HeadKinds(m), HeadValues(m))
  {
    hide AllFit, Fits;
    forall k | 0 <= k < |m.areas|
      ensures AllFit(BYTE, m.areas[k].bytes)
    {
      BytesFit(m.areas[k].bytes);
    }
  }

  lemma EntriesTyped(entries: seq<Entry>)
    ensures AllTyped(EntryKinds(|entries|), EntryValues(entries))
  {
    assert Pow256(1) == 256 * Pow256(0) && Pow256(2) == 256 * Pow256(1) && Pow256(3) == 256 * Pow256(2);
    assert Pow256(4) == 256 * Pow256(3) == 0x1_0000_0000;
  }

  /** The entries that two values each stand for. */
  function Entries(xs: seq<Value>): (entries: seq<Entry>)
    requires |xs| % 2 == 0 && AllTyped(EntryKinds(|xs| / 2), xs)
    ensures |entries| == |xs| / 2
  {
    seq(|xs| / 2, i requires 0 <= i < |xs| / 2 => EntryOf(xs[2 * i], xs[2 * i + 1]))
  }

  function EntryOf(region: Value, offset: Value): Entry
    requires Typed(Number(BYTE), region) && Typed(Number(OFFSET), offset)
  {
    assert Pow256(1) == 256 * Pow256(0) && Pow256(2) == 256 * Pow256(1) && Pow256(3) == 256 * Pow256(2);
    assert Pow256(4) == 256 * Pow256(3) == 0x1_0000_0000;
    Entry(region.v, offset.v)
  }

  lemma EntryParts(region: Value, offset: Value)
    requires Typed(Number(BYTE), region) && Typed(Number(OFFSET), offset)
    ensures Num(EntryOf(region, offset).region) == region && Num(EntryOf(region, offset).offset) == offset
  {}

  lemma EntryAt(xs: seq<Value>, n: nat, k: nat)
    requires |xs| == 2 * n && AllTyped(EntryKinds(n), xs) && k < n
    ensures Typed(Number(BYTE), xs[2 * k]) && Typed(Number(OFFSET), xs[2 * k + 1])
    ensures Entries(xs)[k] == EntryOf(xs[2 * k], xs[2 * k + 1])
  {
    hide Typed, EntryOf;
    assert EntryKinds(n)[2 * k] == Number(BYTE) && EntryKinds(n)[2 * k + 1] == Number(OFFSET);
  }

  lemma ValuesAt(entries: seq<Entry>, k: nat)
    requires k < |entries|
    ensures EntryValues(entries)[2 * k] == Num(entries[k].region)
    ensures EntryValues(entries)[2 * k + 1] == Num(entries[k].offset)
  {
    assert 2 * k / 2 == k && (2 * k + 1) / 2 == k;
  }

  lemma EntriesBack(entries: seq<Entry>)
    ensures AllTyped(EntryKinds(|entries|), EntryValues(entries)) && Entries(EntryValues(entries)) == entries
  {
    hide Typed, EntryOf, EntryKinds, AllTyped, Entries, EntryValues;
    EntriesTyped(entries);
    var n, xs := |entries|, EntryValues(entries);
    forall i | 0 <= i < n
      ensures Entries(xs)[i] == entries[i]
    {
      EntryAt(xs, n, i);
      EntryParts(xs[2 * i], xs[2 * i + 1]);
      ValuesAt(entries, i);
    }
  }

  // ---- saving and loading ----

  function PageEntries(areas: Areas, pages: Pointers): seq<Entry> {
    seq(256, i requires 0 <= i < 256 => SavePage(areas, pages[i]).0)
  }

  function SavedEntries(m: Mapper): (entries: seq<Entry>)
    ensures |entries| == 512
  {
    PageEntries(m.areas, m.prgPages) + PageEntries(m.areas, m.chrPages)
  }

  predicate AllLocated(m: Mapper) {
    forall i :: 0 <= i < 256 ==> SavePage(m.areas, m.prgPages[i]).1 && SavePage(m.areas, m.chrPages[i]).1
  }

  /** The bytes, and whether every page could be told. */
  function SaveMapper(m: Mapper): (Bytes, bool)
    requires WellFormed(m)
  {
    (Save(Kinds(m), Values(m, SavedEntries(m))), AllLocated(m))
  }

  /** Where the contents of array k are among the values. */
  function Place(own: nat, k: nat): nat
    requires 2 <= k < own + 6
  {
    if k < 6 then own + (k - 2) else k - 6
  }

  lemma ArrayTyped(m: Mapper, xs: seq<Value>, k: nat)
    requires AllTyped(Kinds(m), xs) && 2 <= k < |m.areas|
    ensures xs[Place(Own(m), k)].Vec? && AllFit(BYTE, xs[Place(Own(m), k)].elements)
  {
    hide AllFit, Fits;
    var at := Place(Own(m), k);
    assert Kinds(m)[at] == HeadKinds(m)[at];
    assert Typed(Kinds(m)[at], xs[at]);
  }

  /** Array k after a load: ROM as before, RAM with what was loaded. A resized CHR RAM may have moved. */
  function LoadedArea(m: Mapper, xs: seq<Value>, k: nat, chrBase: nat): Area
    requires AllTyped(Kinds(m), xs) && k < |m.areas|
  {
    var b := m.areas[k];
    if k < 2 then b
    else
      ArrayTyped(m, xs, k);
      var bytes := AsBytes(xs[Place(Own(m), k)].elements);
      Area(if k == 2 && |bytes| != |b.bytes| then chrBase else b.base, bytes)
  }

  function LoadedAreas(m: Mapper, xs: seq<Value>, chrBase: nat): (areas: Areas)
    requires AllTyped(Kinds(m), xs)
    ensures |areas| == |m.areas|
  {
    seq(|m.areas|, k requires 0 <= k < |m.areas| => LoadedArea(m, xs, k, chrBase))
  }

  lemma PartsTyped(m: Mapper, xs: seq<Value>)
    requires AllTyped(Kinds(m), xs)
    ensures var o := Own(m);
            && |xs| == o + 1032 && xs[o + 4].Num? && Fits(ENUM, xs[o + 4].v)
            && AllTyped(EntryKinds(512), xs[o + 5..o + 1029])
            && xs[o + 1029].Vec? && xs[o + 1030].Vec? && xs[o + 1031].Vec?
            && IsTable(xs[o + 1029].elements) && IsTable(xs[o + 1030].elements) && IsTable(xs[o + 1031].elements)
  {
    hide AllFit, Fits;
    var o, ks := Own(m), Kinds(m);
    assert ks[o + 4] == Number(ENUM) && Typed(ks[o + 4], xs[o + 4]);
    assert ks[o + 1029] == ks[o + 1030] == ks[o + 1031] == Span(ENUM, 256);
    assert Typed(ks[o + 1029], xs[o + 1029]) && Typed(ks[o + 1030], xs[o + 1030]) && Typed(ks[o + 1031], xs[o + 1031]);
    assert ks[o + 5..o + 1029] == EntryKinds(512);
    forall i | 0 <= i < 1024
      ensures Typed(EntryKinds(512)[i], xs[o + 5..o + 1029][i])
    {
      assert Typed(ks[o + 5 + i], xs[o + 5 + i]);
    }
  }

  function PageOf(areas: Areas, e: Entry): nat { LoadPage(areas, e).0 }

  /** The pages that entries lead to, and whether all of them make sense. */
  function PagesOf(areas: Areas, entries: seq<Entry>): (pages: seq<nat>)
    ensures |pages| == |entries|
  {
    seq(|entries|, i requires 0 <= i < |entries| => PageOf(areas, entries[i]))
  }

  predicate AllRestored(areas: Areas, entries: seq<Entry>) {
    forall i :: 0 <= i < |entries| ==> LoadPage(areas, entries[i]).1
  }

  function WithValues(m: Mapper, xs: seq<Value>, chrBase: nat): Mapper
    requires AllTyped(Kinds(m), xs)
  {
    PartsTyped(m, xs);
    var o, areas := Own(m), LoadedAreas(m, xs, chrBase);
    var pages := PagesOf(areas, Entries(xs[o + 5..o + 1029]));
    Mapper(areas, m.chrRamSize, xs[o + 4].v, pages[..256], pages[256..], xs[o + 1029].elements, xs[o + 1030].elements,
           xs[o + 1031].elements)
  }

  /** What the local variables of sync_page hold before an entry is read. */
  function NoEntries(n: nat): (entries: seq<Entry>)
    ensures |entries| == n
  {
    seq(n, i => Entry(0, 0))
  }

  /** Loading into the mapper m; `chrBase` is where CHR RAM is put if it has to be resized. */
  function LoadMapper(r: Reader, m: Mapper, chrBase: nat): (Reader, Mapper)
    requires ReaderOk(r) && WellFormed(m)
  {
    hide Kinds, Values, Load, EntryKinds, WithValues, AllTyped;
    var (q, xs) := Load(r, Kinds(m), Values(m, NoEntries(512)));
    PartsTyped(m, xs);
    var n, o := WithValues(m, xs, chrBase), Own(m);
    (if AllRestored(n.areas, Entries(xs[o + 5..o + 1029])) then q else Fail(q), n)
  }

  // ---- what was saved is loaded ----

  /** The same cartridge: the same ROM, and RAM arrays of the same sizes; CHR RAM may be there or not. */
  predicate SameCartridge(m: Mapper, n: Mapper) {
    && |m.areas| == |n.areas| && m.chrRamSize == n.chrRamSize
    && m.areas[0].bytes == n.areas[0].bytes && m.areas[1].bytes == n.areas[1].bytes
    && forall k :: 3 <= k < |m.areas| ==> |m.areas[k].bytes| == |n.areas[k].bytes|
  }

  /** The arrays of m with a CHR RAM of the given size. */
  function Resized(m: Mapper, size: nat, chrBase: nat): (areas: Areas)
    ensures |areas| == |m.areas|
  {
    var b := m.areas[2];
    m.areas[2 := Area(if size != |b.bytes| then chrBase else b.base, seq(size, i => 0))]
  }

  lemma SameKinds(m: Mapper, n: Mapper)
    requires SameCartridge(m, n)
    ensures Kinds(m) == Kinds(n)
  {
    assert HeadKinds(m) == HeadKinds(n);
  }

  /** Overlaps and sizes do not depend on contents. */
  lemma LaidBySize(a: Areas, b: Areas)
    requires Laid(a) && |a| == |b|
    requires forall k :: 0 <= k < |a| ==> a[k].base == b[k].base && |a[k].bytes| == |b[k].bytes|
    ensures Laid(b)
  {
    forall j, k, p | 0 <= j < k < |b| && Inside(b[j], p)
      ensures !Inside(b[k], p)
    {
      assert Inside(a[j], p);
    }
  }

  lemma ValueParts(m: Mapper, entries: seq<Entry>)
    requires WellFormed(m) && |entries| == 512
    ensures var xs, o := Values(m, entries), Own(m);
            && |xs| == o + 1032 && xs[o + 4] == Num(m.mirroring) && xs[o + 5..o + 1029] == EntryValues(entries)
            && xs[o + 1029] == Vec(m.prgAccess) && xs[o + 1030] == Vec(m.chrAccess) && xs[o + 1031] == Vec(m.chrTypes)
  {
    hide AllTyped, WellFormed, EntryValues, HeadKinds;
  }

  lemma ArrayPart(m: Mapper, entries: seq<Entry>, k: nat)
    requires WellFormed(m) && |entries| == 512 && 2 <= k < |m.areas|
    ensures Place(Own(m), k) < |Values(m, entries)|
    ensures Values(m, entries)[Place(Own(m), k)] == Vec(m.areas[k].bytes)
  {
    hide AllTyped, WellFormed, EntryValues, HeadKinds;
    var at := Place(Own(m), k);
    assert Values(m, entries)[at] == HeadValues(m)[at];
  }

  lemma AreaTaken(m: Mapper, n: Mapper, entries: seq<Entry>, k: nat, chrBase: nat)
    requires WellFormed(m) && SameCartridge(m, n) && |entries| == 512 && k < |m.areas|
    requires AllTyped(Kinds(n), Values(m, entries))
    ensures LoadedArea(n, Values(m, entries), k, chrBase).bytes == m.areas[k].bytes
    ensures LoadedArea(n, Values(m, entries), k, chrBase).base == Resized(n, |m.areas[2].bytes|, chrBase)[k].base
  {
    hide AllTyped, WellFormed, Values, Kinds;
    if k >= 2 { ArrayPart(m, entries, k); }
  }

  /** a is m at other places: the same contents, and pages as these entries say. */
  ghost predicate Taken(m: Mapper, entries: seq<Entry>, a: Mapper) {
    && Same(m.areas, a.areas) && a.mirroring == m.mirroring && a.prgAccess == m.prgAccess
    && a.chrAccess == m.chrAccess && a.chrTypes == m.chrTypes && a.prgPages + a.chrPages == PagesOf(a.areas, entries)
  }

  lemma AreasTaken(m: Mapper, n: Mapper, entries: seq<Entry>, chrBase: nat)
    requires WellFormed(m) && SameCartridge(m, n) && |entries| == 512
    requires AllTyped(Kinds(n), Values(m, entries))
    ensures var areas := LoadedAreas(n, Values(m, entries), chrBase);
            && Same(m.areas, areas)
            && forall k :: 0 <= k < |areas| ==> areas[k].base == Resized(n, |m.areas[2].bytes|, chrBase)[k].base
  {
    hide AllTyped, WellFormed, Kinds, Values, LoadedArea, Resized;
    forall k | 0 <= k < |m.areas|
      ensures LoadedArea(n, Values(m, entries), k, chrBase).bytes == m.areas[k].bytes
      ensures LoadedArea(n, Values(m, entries), k, chrBase).base == Resized(n, |m.areas[2].bytes|, chrBase)[k].base
    {
      AreaTaken(m, n, entries, k, chrBase);
    }
  }

  lemma PartsTaken(n: Mapper, xs: seq<Value>, chrBase: nat)
    requires AllTyped(Kinds(n), xs)
    ensures var a, o := WithValues(n, xs, chrBase), Own(n);
            && |xs| == o + 1032 && AllTyped(EntryKinds(512), xs[o + 5..o + 1029])
            && a.areas == LoadedAreas(n, xs, chrBase)
            && Num(a.mirroring) == xs[o + 4] && Vec(a.prgAccess) == xs[o + 1029]
            && Vec(a.chrAccess) == xs[o + 1030] && Vec(a.chrTypes) == xs[o + 1031]
            && a.prgPages + a.chrPages == PagesOf(a.areas, Entries(xs[o + 5..o + 1029]))
  {
    hide AllTyped, Kinds, LoadedAreas, Entries, PagesOf, EntryKinds, IsTable, Fits;
    PartsTyped(n, xs);
    var pages := PagesOf(LoadedAreas(n, xs, chrBase), Entries(xs[Own(n) + 5..Own(n) + 1029]));
    assert pages[..256] + pages[256..] == pages;
  }

  /** The values of m, taken over by n. */
  lemma ValuesTaken(m: Mapper, n: Mapper, entries: seq<Entry>, chrBase: nat)
    requires WellFormed(m) && SameCartridge(m, n) && |entries| == 512
    ensures AllTyped(Kinds(n), Values(m, entries))
    ensures var xs, o := Values(m, entries), Own(n);
            && |xs| == o + 1032 && AllTyped(EntryKinds(512), xs[o + 5..o + 1029])
            && Entries(xs[o + 5..o + 1029]) == entries
    ensures var a := WithValues(n, Values(m, entries), chrBase);
            Taken(m, entries, a) && a.areas == LoadedAreas(n, Values(m, entries), chrBase)
  {
    hide AllTyped, WellFormed, Kinds, Values, Entries, WithValues, LoadedAreas, PagesOf, EntryKinds, EntryValues, Same;
    SameKinds(m, n);
    ValueParts(m, entries);
    EntriesBack(entries);
    PartsTaken(n, Values(m, entries), chrBase);
    AreasTaken(m, n, entries, chrBase);
  }

  /** The memory view survives a save and a load. Save a mapper all of whose pages can be told, and load the bytes,
      wherever they are in a stream, into any mapper of the same cartridge, whatever its RAM, its page tables and the
      places of its arrays. There is no error, exactly those bytes are consumed, every RAM array has the saved
      contents, and every PRG and CHR page read that stays inside its array returns the byte it returned before. */
  lemma MapperSurvives(m: Mapper, n: Mapper, r: Reader, chrBase: nat)
    requires WellFormed(m) && WellFormed(n) && SameCartridge(m, n)
    requires Laid(m.areas) && Laid(Resized(n, |m.areas[2].bytes|, chrBase)) && AllLocated(m)
    requires ReaderOk(r) && !r.error
    requires var bytes := SaveMapper(m).0; |bytes| <= Remaining(r) && Next(r, |bytes|) == bytes
    ensures LoadMapper(r, n, chrBase).0 == Skip(r, |SaveMapper(m).0|)
    ensures var a := LoadMapper(r, n, chrBase).1;
            && Same(m.areas, a.areas) && a.mirroring == m.mirroring && a.prgAccess == m.prgAccess
            && a.chrAccess == m.chrAccess && a.chrTypes == m.chrTypes
            && forall i, low: nat :: 0 <= i < 256 ==>
                 && Survives(m.areas, m.prgPages[i], a.areas, a.prgPages[i], low)
                 && Survives(m.areas, m.chrPages[i], a.areas, a.chrPages[i], low)
  {
    hide Save, Load, AllTyped, WellFormed, WithValues, Kinds, Values, LoadedAreas, Resized, Same, SavedEntries, Laid,
         AllLocated, AllRestored, Survives, Entries, EntryKinds, PagesOf, NoEntries;
    var entries := SavedEntries(m);
    SameKinds(m, n);
    SavedIsLoadedFrom(r, Kinds(n), Values(n, NoEntries(512)), Values(m, entries));
    ValuesTaken(m, n, entries, chrBase);
    AreasTaken(m, n, entries, chrBase);
    var a := WithValues(n, Values(m, entries), chrBase);
    LoadedLaid(m, n, a.areas, chrBase);
    PagesTaken(m, a);
  }

  lemma LoadedLaid(m: Mapper, n: Mapper, areas: Areas, chrBase: nat)
    requires SameCartridge(m, n) && Same(m.areas, areas) && Laid(Resized(n, |m.areas[2].bytes|, chrBase))
    requires forall k :: 0 <= k < |areas| ==> areas[k].base == Resized(n, |m.areas[2].bytes|, chrBase)[k].base
    ensures Laid(areas)
  {
    hide Laid;
    LaidBySize(Resized(n, |m.areas[2].bytes|, chrBase), areas);
  }

  lemma PagesTaken(m: Mapper, a: Mapper)
    requires Taken(m, SavedEntries(m), a) && Laid(m.areas) && Laid(a.areas) && AllLocated(m)
    ensures AllRestored(a.areas, SavedEntries(m))
    ensures forall i, low: nat :: 0 <= i < 256 ==>
              && Survives(m.areas, m.prgPages[i], a.areas, a.prgPages[i], low)
              && Survives(m.areas, m.chrPages[i], a.areas, a.chrPages[i], low)
  {
    hide Survives, Laid, SavePage, LoadPage, Same;
    var entries := SavedEntries(m);
    forall i, low: nat | 0 <= i < 256
      ensures LoadPage(a.areas, entries[i]).1 && LoadPage(a.areas, entries[256 + i]).1
      ensures Survives(m.areas, m.prgPages[i], a.areas, a.prgPages[i], low)
      ensures Survives(m.areas, m.chrPages[i], a.areas, a.chrPages[i], low)
    {
      PageSurvives(m.areas, a.areas, m.prgPages[i], low);
      PageSurvives(m.areas, a.areas, m.chrPages[i], low);
      assert a.prgPages[i] == PagesOf(a.areas, entries)[i] && a.chrPages[i] == PagesOf(a.areas, entries)[256 + i];
    }
    forall k | 0 <= k < 512
      ensures LoadPage(a.areas, entries[k]).1
    {
      if k < 256 {
        PageSurvives(m.areas, a.areas, m.prgPages[k], 0);
      } else {
        PageSurvives(m.areas, a.areas, m.chrPages[k - 256], 0);
      }
    }
  }

  /** Every strict prefix of a saved mapper is refused. */
  lemma MapperTruncated(m: Mapper, n: Mapper, k: nat, chrBase: nat)
    requires WellFormed(m) && WellFormed(n) && SameCartridge(m, n) && k < |SaveMapper(m).0|
    ensures LoadMapper(Reader(SaveMapper(m).0[..k], 0, false), n, chrBase).0.error
  {
    hide Save, Load, WithValues;
    SameKinds(m, n);
    TruncationIsDetected(Kinds(n), Values(n, NoEntries(512)), Values(m, SavedEntries(m)), k);
  }

  // ---- what was loaded is saved ----

  lemma FieldOfTyped(n: Mapper, xs: seq<Value>, chrBase: nat, k: nat)
    requires WellFormed(n) && AllTyped(Kinds(n), xs) && 2 <= k < |n.areas|
    ensures var b := LoadedArea(n, xs, k, chrBase);
            && Vec(b.bytes) == xs[Place(Own(n), k)] && Fits(SIZE_TYPE, |b.bytes|)
            && (if k == 2 then |b.bytes| == 0 || |b.bytes| == n.chrRamSize else |b.bytes| == |n.areas[k].bytes|)
  {
    hide AllFit, Fits;
    ArrayTyped(n, xs, k);
    var at := Place(Own(n), k);
    assert Typed(Kinds(n)[at], xs[at]);
    assert Kinds(n)[at] == HeadKinds(n)[at];
  }

  /** The loaded mapper is of the same cartridge, and the values of the stream are its values. */
  lemma WithValuesBack(n: Mapper, xs: seq<Value>, chrBase: nat)
    requires WellFormed(n) && AllTyped(Kinds(n), xs)
    ensures var a := WithValues(n, xs, chrBase);
            && WellFormed(a) && SameCartridge(a, n)
            && HeadValues(a) == xs[..Own(n) + 5] && TailValues(a) == xs[Own(n) + 1029..]
  {
    hide AllTyped, Kinds, Fits, Entries, PagesOf, LoadedArea, AllFit;
    PartsTaken(n, xs, chrBase);
    PartsTyped(n, xs);
    var a, o := WithValues(n, xs, chrBase), Own(n);
    forall k | 0 <= k < |n.areas|
      ensures a.areas[k] == LoadedArea(n, xs, k, chrBase)
      ensures k < 2 ==> a.areas[k] == n.areas[k]
      ensures k >= 2 ==>
        && Vec(a.areas[k].bytes) == xs[Place(o, k)] && Fits(SIZE_TYPE, |a.areas[k].bytes|)
        && (if k == 2 then |a.areas[2].bytes| == 0 || |a.areas[2].bytes| == n.chrRamSize
            else |a.areas[k].bytes| == |n.areas[k].bytes|)
    {
      RomKept(n, xs, k, chrBase);
      if k >= 2 { FieldOfTyped(n, xs, chrBase, k); }
    }
    forall i | 0 <= i < o + 5
      ensures HeadValues(a)[i] == xs[i]
    {
      if i < o { assert Place(o, 6 + i) == i; } else if i < o + 4 { assert Place(o, i - o + 2) == i; }
    }
  }

  lemma RomKept(n: Mapper, xs: seq<Value>, k: nat, chrBase: nat)
    requires AllTyped(Kinds(n), xs) && k < |n.areas|
    ensures k < 2 ==> LoadedArea(n, xs, k, chrBase) == n.areas[k]
  {
    hide AllTyped, Kinds;
  }

  /** A pointer that was loaded saves to the entry it came from, but for the offset of a null page. */
  lemma EntryBack(areas: Areas, e: Entry)
    requires Laid(areas) && LoadPage(areas, e).1
    ensures SavePage(areas, LoadPage(areas, e).0) == (if e.region == 0 then Entry(0, 0) else e, true)
  {
    var p := LoadPage(areas, e).0;
    if e.region != 0 {
      var k := if e.region <= 6 then e.region - 1 else e.region - OWN_START + 6;
      LocateUnique(areas, p, k);
    }
  }

  /** The page entries that a stream holds for the mapper n. */
  function LoadedEntries(n: Mapper, input: Bytes): (entries: seq<Entry>)
    requires WellFormed(n)
    ensures |entries| == 512
  {
    var xs := Load(Reader(input, 0, false), Kinds(n), Values(n, NoEntries(512))).1;
    PartsTyped(n, xs);
    Entries(xs[Own(n) + 5..Own(n) + 1029])
  }

  predicate NullsPlain(entries: seq<Entry>) {
    forall i :: 0 <= i < |entries| && entries[i].region == 0 ==> entries[i].offset == 0
  }

  lemma SavedEntriesBack(a: Mapper, entries: seq<Entry>)
    requires Laid(a.areas) && |entries| == 512 && AllRestored(a.areas, entries)
    requires a.prgPages + a.chrPages == PagesOf(a.areas, entries)
    ensures AllLocated(a) && (SavedEntries(a) == entries <==> NullsPlain(entries))
  {
    hide LoadPage, SavePage, Laid;
    forall i | 0 <= i < 512
      ensures SavePage(a.areas, (a.prgPages + a.chrPages)[i]).1
      ensures SavedEntries(a)[i] == if entries[i].region == 0 then Entry(0, 0) else entries[i]
    {
      EntryBack(a.areas, entries[i]);
    }
    forall i | 0 <= i < 256
      ensures SavePage(a.areas, a.prgPages[i]).1 && SavePage(a.areas, a.chrPages[i]).1
    {
      assert (a.prgPages + a.chrPages)[i] == a.prgPages[i] && (a.prgPages + a.chrPages)[256 + i] == a.chrPages[i];
    }
    if SavedEntries(a) == entries {
      forall i | 0 <= i < 512 && entries[i].region == 0
        ensures entries[i].offset == 0
      {
        assert SavedEntries(a)[i] == entries[i];
      }
    }
  }

  lemma Split(xs: seq<Value>, o: nat)
    requires |xs| == o + 1032
    ensures xs == xs[..o + 5] + xs[o + 5..o + 1029] + xs[o + 1029..]
  {}

  lemma ValuesMatch(a: Mapper, xs: seq<Value>, saved: seq<Entry>)
    requires WellFormed(a) && |saved| == 512 && |xs| == Own(a) + 1032
    requires HeadValues(a) == xs[..Own(a) + 5] && TailValues(a) == xs[Own(a) + 1029..]
    requires AllTyped(EntryKinds(512), xs[Own(a) + 5..Own(a) + 1029])
    ensures Values(a, saved) == xs <==> saved == Entries(xs[Own(a) + 5..Own(a) + 1029])
  {
    hide Values, WellFormed, HeadValues, TailValues, AllTyped, Entries, EntryKinds, EntryValues;
    ValuesAre(a, saved);
    Split(xs, Own(a));
    var middle := xs[Own(a) + 5..Own(a) + 1029];
    if saved == Entries(middle) {
      EntryValuesBack(middle, 512);
    } else if Values(a, saved) == xs {
      ValueParts(a, saved);
      EntriesBack(saved);
    }
  }

  lemma ValuesBack(n: Mapper, xs: seq<Value>, chrBase: nat, saved: seq<Entry>)
    requires WellFormed(n) && AllTyped(Kinds(n), xs) && |saved| == 512
    ensures var a, o := WithValues(n, xs, chrBase), Own(n);
            && WellFormed(a) && Kinds(a) == Kinds(n)
            && |xs| == o + 1032 && AllTyped(EntryKinds(512), xs[o + 5..o + 1029])
            && (Values(a, saved) == xs <==> saved == Entries(xs[o + 5..o + 1029]))
  {
    WithValuesBack(n, xs, chrBase);
    var a := WithValues(n, xs, chrBase);
    SameKinds(a, n);
    PartsTyped(n, xs);
    assert Own(a) == Own(n);
    hide WithValues, WellFormed, Kinds, HeadValues, TailValues, AllTyped, Entries, EntryKinds, SameCartridge, Values,
         IsTable, Fits;
    ValuesMatch(a, xs, saved);
  }

  lemma ValuesAre(m: Mapper, entries: seq<Entry>)
    requires WellFormed(m) && |entries| == 512
    ensures Values(m, entries) == HeadValues(m) + EntryValues(entries) + TailValues(m)
  {}

  lemma EntryValuesBack(xs: seq<Value>, n: nat)
    requires |xs| == 2 * n && AllTyped(EntryKinds(n), xs)
    ensures EntryValues(Entries(xs)) == xs
  {
    hide Typed, EntryOf, EntryKinds, AllTyped, Entries, EntryValues;
    var entries, ys := Entries(xs), EntryValues(Entries(xs));
    forall i | 0 <= i < 2 * n
      ensures ys[i] == xs[i]
    {
      var k := i / 2;
      EntryAt(xs, n, k);
      EntryParts(xs[2 * k], xs[2 * k + 1]);
      ValuesAt(entries, k);
      assert i == 2 * k || i == 2 * k + 1;
    }
  }

  /** Bytes that load without error and without rest save again to the identical bytes, unless they give a null page an
      offset, which loading ignores. */
  lemma LoadedMapperSaves(n: Mapper, input: Bytes, chrBase: nat)
    requires WellFormed(n)
    requires var q := LoadMapper(Reader(input, 0, false), n, chrBase).0; !q.error && Remaining(q) == 0
    requires Laid(LoadMapper(Reader(input, 0, false), n, chrBase).1.areas)
    ensures var a := LoadMapper(Reader(input, 0, false), n, chrBase).1;
            WellFormed(a) && SaveMapper(a).1 && (SaveMapper(a).0 == input <==> NullsPlain(LoadedEntries(n, input)))
  {
    var xs := Load(Reader(input, 0, false), Kinds(n), Values(n, NoEntries(512))).1;
    var a, entries := WithValues(n, xs, chrBase), LoadedEntries(n, input);
    PartsTaken(n, xs, chrBase);
    hide Save, Load, WithValues, Kinds, Values, Laid, AllLocated, AllRestored, AllTyped, Entries, EntryKinds,
         WellFormed, PagesOf, LoadedAreas, SavedEntries, NullsPlain;
    SavedEntriesBack(a, entries);
    ValuesBack(n, xs, chrBase, SavedEntries(a));
    LoadedIsSaved(input, Kinds(n), Values(n, NoEntries(512)));
    SavedIsLoaded(Kinds(n), Values(n, NoEntries(512)), Values(a, SavedEntries(a)));
  }
}
