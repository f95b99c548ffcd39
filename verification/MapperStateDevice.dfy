/** BaseMapper::serialize as the source writes it: one pass over arrays and page tables that saves or loads, as the
    stream says (src/systems/nes/nes_state.cpp). */
module MapperStateDevice {
  import opened MapperPages
  import opened MapperState
  import opened StateCodec
  import opened StateStreamDevice
  import opened Types

  // ---- what has gone through a stream so far ----

  /** The fields synced, what they held before and what they hold now; `bad` tells whether a page has failed. */
  datatype Log = Log(ks: seq<Kind>, before: seq<Value>, now: seq<Value>, bad: bool)

  function Mark(r: Reader, bad: bool): Reader { if bad then Fail(r) else r }

  /** The stream started as `start` with the output `out`, and has seen exactly these fields. */
  predicate LoggedAt(loading: bool, r: Reader, output: Bytes, start: Reader, out: Bytes, log: Log) {
    && ReaderOk(start) && AllTyped(log.ks, log.before) && AllTyped(log.ks, log.now)
    && if loading then
         output == out && log.now == Load(start, log.ks, log.before).1
         && r == Mark(Load(start, log.ks, log.before).0, log.bad)
       else
         output == out + Save(log.ks, log.now) && log.now == log.before && r == Mark(start, log.bad)
  }

  ghost predicate Logged(s: StateStream, start: Reader, out: Bytes, log: Log)
    reads s
  {
    s.Valid() && LoggedAt(s.loading, s.ReaderState(), s.output, start, out, log)
  }

  function Add(log: Log, k: Kind, before: Value, now: Value): Log {
    log.(ks := log.ks + [k], before := log.before + [before], now := log.now + [now])
  }

  lemma {:induction false} SaveAppend(ks: seq<Kind>, xs: seq<Value>, k: Kind, x: Value)
    requires AllTyped(ks, xs) && Typed(k, x)
    ensures AllTyped(ks + [k], xs + [x]) && Save(ks + [k], xs + [x]) == Save(ks, xs) + SaveField(k, x)
    decreases |ks|
  {
    hide Typed, SaveField;
    if ks == [] {
      assert Save([], []) == [];
      assert [k][1..] == [] && [x][1..] == [];
      assert [] + [k] == [k] && [] + [x] == [x];
    } else {
      SaveAppend(ks[1..], xs[1..], k, x);
      assert (ks + [k])[1..] == ks[1..] + [k] && (xs + [x])[1..] == xs[1..] + [x];
    }
  }

  lemma {:induction false} LoadAppend(r: Reader, ks: seq<Kind>, before: seq<Value>, k: Kind, b: Value)
    requires ReaderOk(r) && AllTyped(ks, before) && Typed(k, b)
    ensures AllTyped(ks + [k], before + [b])
    ensures var (q, xs) := Load(r, ks, before);
            var (p, x) := LoadField(q, k, b);
            Load(r, ks + [k], before + [b]) == (p, xs + [x])
    decreases |ks|
  {
    hide Typed, LoadField;
    if ks == [] {
      assert [] + [k] == [k] && [] + [b] == [b] && [k][1..] == [] && [b][1..] == [];
      assert Load(r, [], []) == (r, []);
      var (p, x) := LoadField(r, k, b);
      assert Load(p, [], []) == (p, []) && [x] + [] == [x] == [] + [x];
    } else {
      var (s, x) := LoadField(r, ks[0], before[0]);
      LoadAppend(s, ks[1..], before[1..], k, b);
      var (q, xs) := Load(s, ks[1..], before[1..]);
      var y := LoadField(q, k, b).1;
      assert [x] + (xs + [y]) == ([x] + xs) + [y];
      assert (ks + [k])[1..] == ks[1..] + [k] && (before + [b])[1..] == before[1..] + [b];
    }
  }

  /** Numbers and spans are read alike before and after an error. */
  lemma {:induction false} MarkedSpan(r: Reader, t: IntType, before: seq<int>, bad: bool)
    requires ReaderOk(r) && AllFit(t, before)
    ensures ReadEach(Mark(r, bad), t, before)
         == (Mark(ReadEach(r, t, before).0, bad), ReadEach(r, t, before).1)
    decreases |before|
  {
    hide Fits, Decode;
    if before != [] { MarkedSpan(ReadNumber(r, t, before[0]).0, t, before[1..], bad); }
  }

  /** One more field has gone through the stream. */
  lemma FieldLogged(loading: bool, r: Reader, output: Bytes, start: Reader, out: Bytes, log: Log, q: Reader,
                    output': Bytes, k: Kind, before: Value, now: Value)
    requires LoggedAt(loading, r, output, start, out, log) && Typed(k, before) && Typed(k, now)
    requires if loading then
               output' == output
               && LoadField(Load(start, log.ks, log.before).0, k, before).1 == now
               && q == Mark(LoadField(Load(start, log.ks, log.before).0, k, before).0, log.bad)
             else output' == output + SaveField(k, before) && now == before && q == r
    ensures LoggedAt(loading, q, output', start, out, Add(log, k, before, now))
  {
    hide Typed, LoadField, SaveField, Load, Save;
    SaveAppend(log.ks, log.now, k, now);
    LoadAppend(start, log.ks, log.before, k, before);
  }

  method NumberField(s: StateStream, t: IntType, value: int, ghost start: Reader, ghost out: Bytes, ghost log: Log)
    returns (value': int)
    requires Logged(s, start, out, log) && Fits(t, value)
    modifies s`output, s`position, s`error
    ensures Fits(t, value') && (!s.loading ==> value' == value)
    ensures Logged(s, start, out, Add(log, Number(t), Num(value), Num(value')))
  {
    hide Fits, Encode, Decode, Load, Save;
    value' := s.Sync(t, value);
    FieldLogged(s.loading, old(s.ReaderState()), old(s.output), start, out, log, s.ReaderState(), s.output,
                Number(t), Num(value), Num(value'));
  }

  method SpanField(s: StateStream, t: IntType, values: seq<int>, ghost start: Reader, ghost out: Bytes,
                   ghost log: Log)
    returns (values': seq<int>)
    requires Logged(s, start, out, log) && AllFit(t, values)
    modifies s`output, s`position, s`error
    ensures |values'| == |values| && AllFit(t, values') && (!s.loading ==> values' == values)
    ensures Logged(s, start, out, Add(log, Span(t, |values|), Vec(values), Vec(values')))
  {
    hide Fits, EncodeAll, ReadEach, Load, Save;
    if s.loading { MarkedSpan(Load(start, log.ks, log.before).0, t, values, log.bad); }
    values' := s.SyncSpan(t, values);
    FieldLogged(s.loading, old(s.ReaderState()), old(s.output), start, out, log, s.ReaderState(), s.output,
                Span(t, |values|), Vec(values), Vec(values'));
  }

  method FixedField(s: StateStream, values: Bytes, ghost start: Reader, ghost out: Bytes, ghost log: Log)
    returns (values': Bytes)
    requires Logged(s, start, out, log) && !log.bad && (s.loading || !start.error) && Fits(SIZE_TYPE, |values|)
    modifies s`output, s`position, s`error
    ensures |values'| == |values| && (!s.loading ==> values' == values)
    ensures Logged(s, start, out, Add(log, Fixed(BYTE, |values|), Vec(values), Vec(values')))
  {
    hide Fits, EncodeSized, ReadFixed, Load, Save;
    BytesFit(values);
    var result := s.SyncFixedVector(BYTE, values);
    values' := AsBytes(result);
    FieldLogged(s.loading, old(s.ReaderState()), old(s.output), start, out, log, s.ReaderState(), s.output,
                Fixed(BYTE, |values|), Vec(values), Vec(values'));
  }

  method OptionalField(s: StateStream, values: Bytes, size: nat, ghost start: Reader, ghost out: Bytes,
                       ghost log: Log)
    returns (values': Bytes)
    requires Logged(s, start, out, log) && !log.bad && (s.loading || !start.error)
    requires Fits(SIZE_TYPE, |values|) && (|values| == 0 || |values| == size)
    modifies s`output, s`position, s`error
    ensures Fits(SIZE_TYPE, |values'|) && (|values'| == 0 || |values'| == size)
    ensures !s.loading ==> values' == values
    ensures Logged(s, start, out, Add(log, Optional(BYTE, size), Vec(values), Vec(values')))
  {
    hide Fits, EncodeSized, ReadOptional, Load, Save;
    BytesFit(values);
    var result := s.SyncOptionalFixedVector(BYTE, values, size);
    values' := AsBytes(result);
    FieldLogged(s.loading, old(s.ReaderState()), old(s.output), start, out, log, s.ReaderState(), s.output,
                Optional(BYTE, size), Vec(values), Vec(values'));
  }

  // ---- page entries ----

  function AddEntries(log: Log, before: seq<Entry>, now: seq<Entry>, bad: bool): Log
    requires |before| == |now|
  {
    Log(log.ks + EntryKinds(|now|), log.before + EntryValues(before), log.now + EntryValues(now), bad)
  }

  function AddEntry(log: Log, before: Entry, now: Entry): Log {
    var l := Add(log, Number(BYTE), Num(before.region), Num(now.region));
    Add(l, Number(OFFSET), Num(before.offset), Num(now.offset))
  }

  lemma EntriesAppend(log: Log, before: seq<Entry>, now: seq<Entry>, b: Entry, e: Entry, bad: bool, bad': bool)
    requires |before| == |now|
    ensures AddEntries(log, before + [b], now + [e], bad')
         == AddEntry(AddEntries(log, before, now, bad), b, e).(bad := bad')
  {
    var n := |now|;
    assert EntryKinds(n + 1) == EntryKinds(n) + [Number(BYTE), Number(OFFSET)];
    ValuesAppend(before, b);
    ValuesAppend(now, e);
  }

  lemma ValuesAppend(entries: seq<Entry>, e: Entry)
    ensures EntryValues(entries + [e]) == EntryValues(entries) + [Num(e.region), Num(e.offset)]
  {
    var all, n := entries + [e], |entries|;
    assert 2 * n / 2 == n && (2 * n + 1) / 2 == n;
    forall i | 0 <= i < 2 * n
      ensures EntryValues(all)[i] == EntryValues(entries)[i]
    {
      assert all[i / 2] == entries[i / 2];
    }
  }

  lemma NumbersFit(region: u8, offset: u32)
    ensures Fits(BYTE, region) && Fits(OFFSET, offset)
  {
    assert Pow256(1) == 256 * Pow256(0) && Pow256(2) == 256 * Pow256(1) && Pow256(3) == 256 * Pow256(2);
    assert Pow256(4) == 256 * Pow256(3) == 0x1_0000_0000;
  }

  /** What the local variables of sync_page hold before the stream is asked. */
  function EntryBefore(loading: bool, areas: Areas, p: nat): Entry {
    if loading then Entry(0, 0) else SavePage(areas, p).0
  }

  /** Whether this page makes the stream fail. */
  predicate PageFails(loading: bool, areas: Areas, p: nat, e: Entry) {
    if loading then !LoadPage(areas, e).1 else !SavePage(areas, p).1
  }

  method SyncPage(s: StateStream, areas: Areas, pointer: nat, ghost start: Reader, ghost out: Bytes, ghost log: Log)
    returns (pointer': nat, ghost e: Entry)
    requires Logged(s, start, out, log)
    modifies s`output, s`position, s`error
    ensures !s.loading ==> e == SavePage(areas, pointer).0
    ensures pointer' == if s.loading then LoadPage(areas, e).0 else pointer
    ensures var b, bad := EntryBefore(s.loading, areas, pointer), log.bad || PageFails(s.loading, areas, pointer, e);
            Logged(s, start, out, AddEntry(log, b, e).(bad := bad))
  {
    hide SavePage, LoadPage, Fits, Load, Save, AllTyped;
    pointer' := pointer;
    ghost var l := log;
    var region, offset := 0, 0;
    if !s.loading {
      var (entry, located) := SavePage(areas, pointer);
      region, offset := entry.region, entry.offset;
      if !located {
        s.error := true;
        l := log.(bad := true);
      }
    }
    ghost var b := EntryBefore(s.loading, areas, pointer);
    NumbersFit(b.region, b.offset);
    var region' := NumberField(s, BYTE, region, start, out, l);
    var offset' := NumberField(s, OFFSET, offset, start, out, Add(l, Number(BYTE), Num(region), Num(region')));
    var entry' := EntryOf(Num(region'), Num(offset'));
    e := entry';
    if s.loading {
      var (p, restored) := LoadPage(areas, entry');
      pointer' := p;
      if !restored { s.error := true; }
    }
  }

  function EntriesBefore(loading: bool, areas: Areas, pages: seq<nat>): (entries: seq<Entry>)
    ensures |entries| == |pages|
  {
    seq(|pages|, i requires 0 <= i < |pages| => EntryBefore(loading, areas, pages[i]))
  }

  predicate PagesFail(loading: bool, areas: Areas, pages: seq<nat>, entries: seq<Entry>)
    requires |pages| == |entries|
  {
    exists i :: 0 <= i < |pages| && PageFails(loading, areas, pages[i], entries[i])
  }

  lemma PagesFailAppend(loading: bool, areas: Areas, pages: seq<nat>, entries: seq<Entry>, p: nat, e: Entry)
    requires |pages| == |entries|
    ensures PagesFail(loading, areas, pages + [p], entries + [e])
       <==> PagesFail(loading, areas, pages, entries) || PageFails(loading, areas, p, e)
  {
    hide PageFails;
    var ps, es := pages + [p], entries + [e];
    if i :| 0 <= i < |pages| && PageFails(loading, areas, pages[i], entries[i]) {
      assert ps[i] == pages[i] && es[i] == entries[i];
    }
    assert ps[|pages|] == p && es[|pages|] == e;
  }

  /** `for (page : pages) sync_page(page)` */
  method SyncPages(s: StateStream, areas: Areas, pages: array<nat>, ghost start: Reader, ghost out: Bytes,
                   ghost log: Log)
    returns (ghost entries: seq<Entry>)
    requires Logged(s, start, out, log)
    modifies s`output, s`position, s`error, pages
    ensures |entries| == pages.Length
    ensures !s.loading ==> entries == EntriesBefore(false, areas, old(pages[..])) && pages[..] == old(pages[..])
    ensures s.loading ==> pages[..] == PagesOf(areas, entries)
    ensures var b := EntriesBefore(s.loading, areas, old(pages[..]));
            var bad := log.bad || PagesFail(s.loading, areas, old(pages[..]), entries);
            Logged(s, start, out, AddEntries(log, b, entries, bad))
  {
    hide PagesFail, PageFails, LoadPage, SavePage, AddEntry, AddEntries, LoggedAt;
    entries := [];
    ghost var befores, bad := [], log.bad;
    NoEntriesYet(s.loading, areas, log);
    for i := 0 to pages.Length
      invariant |entries| == i == |befores|
      invariant befores == EntriesBefore(s.loading, areas, old(pages[..i]))
      invariant bad == (log.bad || PagesFail(s.loading, areas, old(pages[..i]), entries))
      invariant Logged(s, start, out, AddEntries(log, befores, entries, bad))
      invariant forall k :: i <= k < pages.Length ==> pages[k] == old(pages[k])
      invariant forall k :: 0 <= k < i ==>
        pages[k] == if s.loading then LoadPage(areas, entries[k]).0 else old(pages[k])
      invariant !s.loading ==> entries == befores
    {
      ghost var b := EntryBefore(s.loading, areas, pages[i]);
      ghost var l, fails := AddEntries(log, befores, entries, bad), bad;
      EntriesBad(log, befores, entries, bad);
      var pointer, e := SyncPage(s, areas, pages[i], start, out, l);
      PagesFailAppend(s.loading, areas, old(pages[..i]), entries, old(pages[i]), e);
      assert old(pages[..i + 1]) == old(pages[..i]) + [old(pages[i])];
      bad := bad || PageFails(s.loading, areas, old(pages[i]), e);
      EntriesAppend(log, befores, entries, b, e, fails, bad);
      pages[i] := pointer;
      entries, befores := entries + [e], befores + [b];
    }
    assert old(pages[..pages.Length]) == old(pages[..]);
  }

  lemma NoEntriesYet(loading: bool, areas: Areas, log: Log)
    ensures AddEntries(log, [], [], log.bad) == log && !PagesFail(loading, areas, [], [])
  {}

  lemma EntriesBad(log: Log, before: seq<Entry>, now: seq<Entry>, bad: bool)
    requires |before| == |now|
    ensures AddEntries(log, before, now, bad).bad == bad
  {}

  // ---- the mapper ----

  class BaseMapper {
    const chrRamSize: nat
    const prgPages: array<nat>
    const chrPages: array<nat>
    var areas: Areas
    var mirroring: int
    var prgAccess: seq<int>
    var chrAccess: seq<int>
    var chrTypes: seq<int>

    ghost predicate Shape() { prgPages.Length == 256 && chrPages.Length == 256 && prgPages != chrPages }

    ghost function State(): Mapper
      requires Shape()
      reads this, prgPages, chrPages
    {
      Mapper(areas, chrRamSize, mirroring, prgPages[..], chrPages[..], prgAccess, chrAccess, chrTypes)
    }

    ghost predicate Valid()
      reads this, prgPages, chrPages
    {
      Shape() && WellFormed(State())
    }

    /** serialize of a mapper, up to the fields that only it has. A CHR RAM that is resized is put at `chrBase`. */
    method Serialize(s: StateStream, chrBase: nat)
      requires Valid() && s.Valid() && (s.loading || !s.error)
      modifies this, prgPages, chrPages, s`output, s`position, s`error
      ensures Shape() && s.Valid()
      ensures !s.loading ==>
                && State() == old(State()) && s.position == old(s.position)
                && (s.output, !s.error) == (old(s.output) + SaveMapper(old(State())).0, SaveMapper(old(State())).1)
      ensures s.loading ==>
                && s.output == old(s.output)
                && (s.ReaderState(), State()) == LoadMapper(old(s.ReaderState()), old(State()), chrBase)
    {
      hide WellFormed, LoggedAt, HeadKinds, HeadValues, HeadSynced, SameCartridge, LoadMapper, SaveMapper, FullLog,
           AddPages, AddTables;
      ghost var start, out, m := s.ReaderState(), s.output, State();
      TablesFit(m);
      NothingLogged(s.loading, start, out);
      ghost var head := SyncHead(s, chrBase, start, out);
      ghost var h := State();
      var prg, chr := SyncPageTables(s, start, out, head);
      SyncAccess(s, start, out, AddPages(s.loading, areas, m.prgPages, m.chrPages, prg, chr, head));
      WholeLog(s.loading, m, h, State(), prg, chr, head);
      SameArrays(m, h, State());
      if s.loading {
        LoadDone(s.ReaderState(), s.output, start, out, m, State(), prg, chr, chrBase);
      } else {
        SaveDone(s.ReaderState(), s.output, start, out, m, prg, chr);
      }
    }

    method SyncPageTables(s: StateStream, ghost start: Reader, ghost out: Bytes, ghost log: Log)
      returns (ghost prg: seq<Entry>, ghost chr: seq<Entry>)
      requires Shape() && Logged(s, start, out, log)
      modifies prgPages, chrPages, s`output, s`position, s`error
      ensures |prg| == |chr| == 256
      ensures !s.loading ==>
                && State() == old(State())
                && prg == EntriesBefore(false, areas, prgPages[..]) && chr == EntriesBefore(false, areas, chrPages[..])
      ensures s.loading ==> prgPages[..] == PagesOf(areas, prg) && chrPages[..] == PagesOf(areas, chr)
      ensures Logged(s, start, out, AddPages(s.loading, areas, old(prgPages[..]), old(chrPages[..]), prg, chr, log))
    {
      hide LoggedAt, AddEntries, EntriesBefore, PagesFail, PagesOf;
      ghost var m := State();
      prg := SyncPages(s, areas, prgPages, start, out, log);
      assert chrPages[..] == m.chrPages;
      ghost var l := AddEntries(log, EntriesBefore(s.loading, areas, m.prgPages), prg,
                                log.bad || PagesFail(s.loading, areas, m.prgPages, prg));
      EntriesBad(log, EntriesBefore(s.loading, areas, m.prgPages), prg,
                 log.bad || PagesFail(s.loading, areas, m.prgPages, prg));
      chr := SyncPages(s, areas, chrPages, start, out, l);
    }

    method SyncAccess(s: StateStream, ghost start: Reader, ghost out: Bytes, ghost log: Log)
      requires Logged(s, start, out, log) && IsTable(prgAccess) && IsTable(chrAccess) && IsTable(chrTypes)
      modifies this`prgAccess, this`chrAccess, this`chrTypes, s`output, s`position, s`error
      ensures !s.loading ==>
                prgAccess == old(prgAccess) && chrAccess == old(chrAccess) && chrTypes == old(chrTypes)
      ensures Logged(s, start, out,
                     AddTables(log, old([prgAccess, chrAccess, chrTypes]), [prgAccess, chrAccess, chrTypes]))
    {
      hide LoggedAt, AllFit;
      ghost var a, b, c := prgAccess, chrAccess, chrTypes;
      prgAccess := SpanField(s, ENUM, prgAccess, start, out, log);
      ghost var l := Add(log, Span(ENUM, 256), Vec(a), Vec(prgAccess));
      chrAccess := SpanField(s, ENUM, chrAccess, start, out, l);
      l := Add(l, Span(ENUM, 256), Vec(b), Vec(chrAccess));
      chrTypes := SpanField(s, ENUM, chrTypes, start, out, l);
    }

    /** The arrays of the mapper itself, which its own serialize syncs first. */
    method SyncOwn(s: StateStream, ghost start: Reader, ghost out: Bytes) returns (ghost log: Log)
      requires Valid() && Logged(s, start, out, Log([], [], [], false)) && (s.loading || !start.error)
      modifies this`areas, s`output, s`position, s`error
      ensures Logged(s, start, out, log) && !log.bad && SameCartridge(old(State()), State())
      ensures OwnSynced(old(areas), areas) && (!s.loading ==> areas == old(areas))
      ensures var o := |areas| - 6;
              && log.ks == HeadKinds(old(State()))[..o] && log.before == HeadValues(old(State()))[..o]
              && log.now == HeadValues(State())[..o]
    {
      hide LoggedAt, Fits, HeadKinds, HeadValues;
      log := Log([], [], [], false);
      for i := 0 to |areas| - 6
        invariant |areas| == |old(areas)| && Logged(s, start, out, log) && !log.bad
        invariant OwnSynced(old(areas), areas) && (!s.loading ==> areas == old(areas))
        invariant forall k :: 6 + i <= k < |areas| ==> areas[k] == old(areas)[k]
        invariant log.ks == HeadKinds(old(State()))[..i] && log.before == HeadValues(old(State()))[..i]
        invariant log.now == HeadValues(State())[..i]
      {
        var values := areas[6 + i].bytes;
        ghost var m := State();
        var bytes := FixedField(s, values, start, out, log);
        log := Add(log, Fixed(BYTE, |values|), Vec(values), Vec(bytes));
        areas := areas[6 + i := areas[6 + i].(bytes := bytes)];
        OwnStep(old(State()), i);
        OwnStep(State(), i);
        OwnBefore(m, State(), i);
      }
    }

    /** The arrays and the mirroring; a CHR RAM that is resized is put at `chrBase`. */
    method SyncHead(s: StateStream, chrBase: nat, ghost start: Reader, ghost out: Bytes) returns (ghost log: Log)
      requires Valid() && Logged(s, start, out, Log([], [], [], false)) && (s.loading || !start.error)
      modifies this`areas, this`mirroring, s`output, s`position, s`error
      ensures Logged(s, start, out, log) && !log.bad && SameCartridge(old(State()), State())
      ensures HeadSynced(old(areas), areas, chrBase)
      ensures !s.loading ==> areas == old(areas) && mirroring == old(mirroring)
      ensures log.ks == HeadKinds(old(State())) && log.before == HeadValues(old(State()))
      ensures log.now == HeadValues(State())
    {
      hide LoggedAt, Fits, HeadKinds, HeadValues, SameCartridge, OwnSynced, WellFormed;
      log := SyncOwn(s, start, out);
      ghost var m := State();
      MirroringFits(old(State()));
      OwnKeepsForm(old(State()), m);
      log := SyncRams(s, chrBase, start, out, log);
      log := SyncScreen(s, start, out, log);
      HeadDone(old(State()), m, State(), chrBase);
    }

    method SyncScreen(s: StateStream, ghost start: Reader, ghost out: Bytes, ghost log: Log) returns (ghost log': Log)
      requires Logged(s, start, out, log) && Fits(ENUM, mirroring)
      modifies this`areas, this`mirroring, s`output, s`position, s`error
      ensures Logged(s, start, out, log')
      ensures var a, b := old(areas), areas;
              && b == a[5 := b[5]] && b[5].base == a[5].base && |b[5].bytes| == |a[5].bytes|
              && (!s.loading ==> b == a && mirroring == old(mirroring))
              && log' == log.(ks := log.ks + [Span(BYTE, |a[5].bytes|), Number(ENUM)],
                              before := log.before + [Vec(a[5].bytes), Num(old(mirroring))],
                              now := log.now + [Vec(b[5].bytes), Num(mirroring)])
    {
      hide LoggedAt, Fits;
      var nametable := areas[5].bytes;
      BytesFit(nametable);
      var values := SpanField(s, BYTE, nametable, start, out, log);
      log' := Add(log, Span(BYTE, |nametable|), Vec(nametable), Vec(values));
      areas := areas[5 := areas[5].(bytes := AsBytes(values))];
      ghost var before := mirroring;
      mirroring := NumberField(s, ENUM, mirroring, start, out, log');
      log' := Add(log', Number(ENUM), Num(before), Num(mirroring));
    }

    method SyncRams(s: StateStream, chrBase: nat, ghost start: Reader, ghost out: Bytes, ghost log: Log)
      returns (ghost log': Log)
      requires Valid() && Logged(s, start, out, log) && !log.bad && (s.loading || !start.error)
      modifies this`areas, s`output, s`position, s`error
      ensures Logged(s, start, out, log')
      ensures var a, b := old(areas), areas;
              && b == a[2 := b[2]][3 := b[3]][4 := b[4]] && (!s.loading ==> b == a)
              && b[2].base == (if |b[2].bytes| != |a[2].bytes| then chrBase else a[2].base)
              && (|b[2].bytes| == 0 || |b[2].bytes| == chrRamSize) && Fits(SIZE_TYPE, |b[2].bytes|)
              && b[3].base == a[3].base && |b[3].bytes| == |a[3].bytes|
              && b[4].base == a[4].base && |b[4].bytes| == |a[4].bytes|
              && log' == log.(ks := log.ks + RamKinds(old(State())), before := log.before + RamValues(a),
                              now := log.now + RamValues(b))
    {
      hide LoggedAt, Fits;
      var chr, work, save := areas[2].bytes, areas[3].bytes, areas[4].bytes;
      var chr' := OptionalField(s, chr, chrRamSize, start, out, log);
      log' := Add(log, Optional(BYTE, chrRamSize), Vec(chr), Vec(chr'));
      var work' := FixedField(s, work, start, out, log');
      log' := Add(log', Fixed(BYTE, |work|), Vec(work), Vec(work'));
      var save' := FixedField(s, save, start, out, log');
      log' := Add(log', Fixed(BYTE, |save|), Vec(save), Vec(save'));
      areas := areas[2 := Area(if |chr'| != |chr| then chrBase else areas[2].base, chr')]
        [3 := areas[3].(bytes := work')][4 := areas[4].(bytes := save')];
    }
  }

  lemma OwnKeepsForm(m: Mapper, n: Mapper)
    requires WellFormed(m) && OwnSynced(m.areas, n.areas)
    requires n == m.(areas := n.areas, prgPages := n.prgPages, chrPages := n.chrPages)
    ensures WellFormed(n)
  {
    hide Fits;
  }

  lemma MirroringFits(m: Mapper)
    requires WellFormed(m)
    ensures Fits(ENUM, m.mirroring)
  {}

  function RamKinds(m: Mapper): seq<Kind> {
    [Optional(BYTE, m.chrRamSize), Fixed(BYTE, |m.areas[3].bytes|), Fixed(BYTE, |m.areas[4].bytes|)]
  }

  function RamValues(areas: Areas): seq<Value> { [Vec(areas[2].bytes), Vec(areas[3].bytes), Vec(areas[4].bytes)] }

  lemma HeadParts(m: Mapper)
    ensures HeadKinds(m)
         == HeadKinds(m)[..Own(m)] + RamKinds(m) + [Span(BYTE, |m.areas[5].bytes|), Number(ENUM)]
    ensures HeadValues(m) == HeadValues(m)[..Own(m)] + RamValues(m.areas) + [Vec(m.areas[5].bytes), Num(m.mirroring)]
  {}

  /** From `was` over `own`, which has the mapper's own arrays synced, to `m`. */
  lemma HeadDone(was: Mapper, own: Mapper, m: Mapper, chrBase: nat)
    requires OwnSynced(was.areas, own.areas) && SameCartridge(was, own) && |own.areas| == |m.areas|
    requires var a, b := own.areas, m.areas;
             && b == a[2 := b[2]][3 := b[3]][4 := b[4]][5 := b[5]]
             && b[2].base == (if |b[2].bytes| != |a[2].bytes| then chrBase else a[2].base)
             && forall k :: 3 <= k < 6 ==> b[k].base == a[k].base && |b[k].bytes| == |a[k].bytes|
    requires m.chrRamSize == was.chrRamSize
    ensures HeadSynced(was.areas, m.areas, chrBase) && SameCartridge(was, m)
    ensures HeadValues(m)[..Own(m)] == HeadValues(own)[..Own(m)]
    ensures HeadKinds(was)
         == HeadKinds(was)[..Own(m)] + RamKinds(own) + [Span(BYTE, |own.areas[5].bytes|), Number(ENUM)]
    ensures HeadValues(was)
         == HeadValues(was)[..Own(m)] + RamValues(own.areas) + [Vec(own.areas[5].bytes), Num(was.mirroring)]
    ensures HeadValues(m) == HeadValues(own)[..Own(m)] + RamValues(m.areas) + [Vec(m.areas[5].bytes), Num(m.mirroring)]
  {
    HeadParts(was);
    HeadParts(m);
    forall i | 0 <= i < Own(m)
      ensures HeadValues(m)[i] == HeadValues(own)[i]
    {
      assert m.areas[6 + i] == own.areas[6 + i];
    }
  }

  /** Only contents of the mapper's own arrays may have changed. */
  ghost predicate OwnSynced(a: Areas, b: Areas) {
    |a| == |b| && forall k :: 0 <= k < |a| ==>
      && b[k].base == a[k].base && |b[k].bytes| == |a[k].bytes| && (k < 6 ==> b[k] == a[k])
  }

  /** Only contents of RAM arrays may have changed, and the place and size of CHR RAM. */
  ghost predicate HeadSynced(a: Areas, b: Areas, chrBase: nat) {
    |a| == |b| && forall k :: 0 <= k < |a| ==>
      && (k < 2 ==> b[k] == a[k])
      && b[k].base == (if k == 2 && |b[k].bytes| != |a[k].bytes| then chrBase else a[k].base)
  }

  lemma OwnStep(m: Mapper, i: nat)
    requires i < Own(m)
    ensures HeadKinds(m)[..i + 1] == HeadKinds(m)[..i] + [Fixed(BYTE, |m.areas[6 + i].bytes|)]
    ensures HeadValues(m)[..i + 1] == HeadValues(m)[..i] + [Vec(m.areas[6 + i].bytes)]
  {}

  lemma OwnBefore(m: Mapper, n: Mapper, i: nat)
    requires |m.areas| == |n.areas| && i < Own(m) && forall k :: 6 <= k < 6 + i ==> m.areas[k] == n.areas[k]
    ensures HeadValues(m)[..i] == HeadValues(n)[..i]
  {}

  /** All the fields of a serialize that took m to a, with these entries on the stream. */
  function FullLog(loading: bool, m: Mapper, a: Mapper, prg: seq<Entry>, chr: seq<Entry>): Log
    requires |prg| == |chr| == 256
  {
    var before := EntriesBefore(loading, a.areas, m.prgPages) + EntriesBefore(loading, a.areas, m.chrPages);
    Log(Kinds(m), HeadValues(m) + EntryValues(before) + TailValues(m),
        HeadValues(a) + EntryValues(prg + chr) + TailValues(a),
        PagesFail(loading, a.areas, m.prgPages, prg) || PagesFail(loading, a.areas, m.chrPages, chr))
  }

  lemma EntriesJoin(prg: seq<Entry>, chr: seq<Entry>)
    ensures EntryKinds(|prg|) + EntryKinds(|chr|) == EntryKinds(|prg + chr|)
    ensures EntryValues(prg) + EntryValues(chr) == EntryValues(prg + chr)
  {
    var all, n := prg + chr, |prg|;
    forall i | 0 <= i < 2 * |all|
      ensures (EntryValues(prg) + EntryValues(chr))[i] == EntryValues(all)[i]
    {
      if i >= 2 * n { assert (i - 2 * n) / 2 == i / 2 - n && (i - 2 * n) % 2 == i % 2; }
    }
  }

  function AddPages(loading: bool, areas: Areas, prgPages: Pointers, chrPages: Pointers, prg: seq<Entry>,
                    chr: seq<Entry>, log: Log): Log
    requires |prg| == |chr| == 256
  {
    var bad := log.bad || PagesFail(loading, areas, prgPages, prg);
    AddEntries(AddEntries(log, EntriesBefore(loading, areas, prgPages), prg, bad),
               EntriesBefore(loading, areas, chrPages), chr, bad || PagesFail(loading, areas, chrPages, chr))
  }

  function AddTables(log: Log, before: seq<seq<int>>, now: seq<seq<int>>): Log
    requires |before| == |now| == 3
  {
    var k := Span(ENUM, 256);
    Add(Add(Add(log, k, Vec(before[0]), Vec(now[0])), k, Vec(before[1]), Vec(now[1])), k, Vec(before[2]), Vec(now[2]))
  }

  lemma WholeLog(loading: bool, m: Mapper, h: Mapper, a: Mapper, prg: seq<Entry>, chr: seq<Entry>, head: Log)
    requires |prg| == |chr| == 256 && h.areas == a.areas && h.mirroring == a.mirroring
    requires head == Log(HeadKinds(m), HeadValues(m), HeadValues(h), false)
    ensures AddTables(AddPages(loading, a.areas, m.prgPages, m.chrPages, prg, chr, head),
                      [m.prgAccess, m.chrAccess, m.chrTypes], [a.prgAccess, a.chrAccess, a.chrTypes])
         == FullLog(loading, m, a, prg, chr)
  {
    hide EntryValues, EntryKinds, PagesFail, EntriesBefore;
    assert HeadValues(h) == HeadValues(a);
    hide HeadValues, HeadKinds;
    EntriesJoin(prg, chr);
    EntriesJoin(EntriesBefore(loading, a.areas, m.prgPages), EntriesBefore(loading, a.areas, m.chrPages));
  }

  lemma SameArrays(m: Mapper, h: Mapper, a: Mapper)
    requires SameCartridge(m, h) && a.areas == h.areas && a.chrRamSize == h.chrRamSize
    ensures SameCartridge(m, a)
  {}

  lemma SaveDone(r: Reader, output: Bytes, start: Reader, out: Bytes, m: Mapper, prg: seq<Entry>, chr: seq<Entry>)
    requires WellFormed(m) && |prg| == |chr| == 256
    requires prg == EntriesBefore(false, m.areas, m.prgPages) && chr == EntriesBefore(false, m.areas, m.chrPages)
    requires LoggedAt(false, r, output, start, out, FullLog(false, m, m, prg, chr))
    ensures output == out + SaveMapper(m).0 && r == Mark(start, !SaveMapper(m).1)
  {
    hide SavePage, Save, WellFormed, HeadKinds, HeadValues, AllTyped, Kinds;
    assert prg + chr == SavedEntries(m);
    FailsExactly(m, prg, chr);
  }

  lemma FailsExactly(m: Mapper, prg: seq<Entry>, chr: seq<Entry>)
    requires |prg| == |chr| == 256
    ensures PagesFail(false, m.areas, m.prgPages, prg) || PagesFail(false, m.areas, m.chrPages, chr)
       <==> !AllLocated(m)
  {
    hide SavePage;
    if !AllLocated(m) {
      var i :| 0 <= i < 256 && !(SavePage(m.areas, m.prgPages[i]).1 && SavePage(m.areas, m.chrPages[i]).1);
      assert PageFails(false, m.areas, m.prgPages[i], prg[i]) || PageFails(false, m.areas, m.chrPages[i], chr[i]);
    }
  }

  lemma RestoredExactly(m: Mapper, areas: Areas, prg: seq<Entry>, chr: seq<Entry>)
    requires |prg| == |chr| == 256
    ensures PagesFail(true, areas, m.prgPages, prg) || PagesFail(true, areas, m.chrPages, chr)
       <==> !AllRestored(areas, prg + chr)
  {
    hide LoadPage;
    var all := prg + chr;
    if !AllRestored(areas, all) {
      var i :| 0 <= i < 512 && !LoadPage(areas, all[i]).1;
      if i < 256 { assert PageFails(true, areas, m.prgPages[i], prg[i]); }
      else { assert PageFails(true, areas, m.chrPages[i - 256], chr[i - 256]); }
    }
    if i :| 0 <= i < 256 && PageFails(true, areas, m.prgPages[i], prg[i]) { assert all[i] == prg[i]; }
    if i :| 0 <= i < 256 && PageFails(true, areas, m.chrPages[i], chr[i]) { assert all[256 + i] == chr[i]; }
  }

  lemma NothingBefore(m: Mapper, areas: Areas)
    ensures EntriesBefore(true, areas, m.prgPages) + EntriesBefore(true, areas, m.chrPages) == NoEntries(512)
  {}

  /** The values that loading has put into a are those a is assembled from. */
  lemma Assembled(m: Mapper, a: Mapper, prg: seq<Entry>, chr: seq<Entry>, xs: seq<Value>, chrBase: nat)
    requires WellFormed(m) && |prg| == |chr| == 256 && SameCartridge(m, a) && HeadSynced(m.areas, a.areas, chrBase)
    requires a.prgPages == PagesOf(a.areas, prg) && a.chrPages == PagesOf(a.areas, chr)
    requires xs == HeadValues(a) + EntryValues(prg + chr) + TailValues(a) && AllTyped(Kinds(m), xs)
    ensures AllTyped(EntryKinds(512), xs[Own(m) + 5..Own(m) + 1029])
    ensures WithValues(m, xs, chrBase) == a && Entries(xs[Own(m) + 5..Own(m) + 1029]) == prg + chr
  {
    hide AllTyped, Kinds, Entries, LoadedArea, EntryKinds, PagesOf, WellFormed, EntryValues;
    PartsTaken(m, xs, chrBase);
    var o, b := Own(m), WithValues(m, xs, chrBase);
    assert xs[o + 5..o + 1029] == EntryValues(prg + chr) && xs[o + 4] == Num(a.mirroring);
    EntriesBack(prg + chr);
    forall k | 0 <= k < |m.areas|
      ensures LoadedArea(m, xs, k, chrBase) == a.areas[k]
    {
      AreaAssembled(m, a, xs, k, chrBase);
    }
    assert b.areas == a.areas;
    PagesJoin(a.areas, prg, chr);
    assert b.prgPages == (b.prgPages + b.chrPages)[..256] && b.chrPages == (b.prgPages + b.chrPages)[256..];
  }

  lemma PagesJoin(areas: Areas, prg: seq<Entry>, chr: seq<Entry>)
    requires |prg| == |chr| == 256
    ensures PagesOf(areas, prg + chr)[..256] == PagesOf(areas, prg)
    ensures PagesOf(areas, prg + chr)[256..] == PagesOf(areas, chr)
  {}

  lemma AreaAssembled(m: Mapper, a: Mapper, xs: seq<Value>, k: nat, chrBase: nat)
    requires SameCartridge(m, a) && HeadSynced(m.areas, a.areas, chrBase) && k < |m.areas| && AllTyped(Kinds(m), xs)
    requires HeadValues(a) <= xs
    ensures LoadedArea(m, xs, k, chrBase) == a.areas[k]
  {
    hide AllTyped, Kinds;
    if k >= 2 {
      var at := Place(Own(m), k);
      assert xs[at] == HeadValues(a)[at] == Vec(a.areas[k].bytes);
    }
  }

  lemma LoadDone(r: Reader, output: Bytes, start: Reader, out: Bytes, m: Mapper, a: Mapper, prg: seq<Entry>,
                 chr: seq<Entry>, chrBase: nat)
    requires WellFormed(m) && |prg| == |chr| == 256 && SameCartridge(m, a) && HeadSynced(m.areas, a.areas, chrBase)
    requires a.prgPages == PagesOf(a.areas, prg) && a.chrPages == PagesOf(a.areas, chr)
    requires LoggedAt(true, r, output, start, out, FullLog(true, m, a, prg, chr))
    ensures output == out && (r, a) == LoadMapper(start, m, chrBase)
  {
    hide LoadPage, Load, WellFormed, HeadKinds, HeadValues, AllTyped, Kinds, WithValues, SameCartridge, HeadSynced,
         PagesOf, Entries, PagesFail, EntryKinds, AllRestored, EntryValues, NoEntries, EntriesBefore;
    var xs := FullLog(true, m, a, prg, chr).now;
    NothingBefore(m, a.areas);
    Assembled(m, a, prg, chr, xs, chrBase);
    RestoredExactly(m, a.areas, prg, chr);
  }

  lemma TablesFit(m: Mapper)
    requires WellFormed(m)
    ensures IsTable(m.prgAccess) && IsTable(m.chrAccess) && IsTable(m.chrTypes)
  {}

  lemma NothingLogged(loading: bool, start: Reader, out: Bytes)
    requires ReaderOk(start)
    ensures LoggedAt(loading, start, out, start, out, Log([], [], [], false))
  {
    assert Load(start, [], []) == (start, []) && Save([], []) == [];
    assert out + [] == out;
  }

  /** One mapper saves and another of the same cartridge loads the bytes. Saving fails exactly for a stray pointer;
      otherwise loading succeeds, consumes every byte, and leaves the same contents and the same view of them. */
  method SaveThenLoad(from: BaseMapper, to: BaseMapper, chrBase: nat) returns (saved: bool, loaded: bool)
    requires from.Valid() && to.Valid() && {from.prgPages, from.chrPages} !! {to.prgPages, to.chrPages} && from != to
    requires SameCartridge(from.State(), to.State())
    requires Laid(from.areas) && Laid(Resized(to.State(), |from.areas[2].bytes|, chrBase))
    modifies from, from.prgPages, from.chrPages, to, to.prgPages, to.chrPages
    ensures from.Shape() && to.Shape() && from.State() == old(from.State())
    ensures saved <==> AllLocated(from.State())
    ensures saved ==>
              && loaded && Same(from.areas, to.areas) && to.mirroring == from.mirroring
              && to.prgAccess == from.prgAccess && to.chrAccess == from.chrAccess && to.chrTypes == from.chrTypes
    ensures saved ==> forall i, low: nat :: 0 <= i < 256 ==>
              && Survives(from.areas, from.prgPages[i], to.areas, to.prgPages[i], low)
              && Survives(from.areas, from.chrPages[i], to.areas, to.chrPages[i], low)
  {
    hide WellFormed, SameCartridge, SaveMapper, LoadMapper, AllLocated, Laid, Resized, Same, Survives;
    loaded := false;
    ghost var m, n := from.State(), to.State();
    var out := new StateStream.ForSaving();
    from.Serialize(out, chrBase);
    saved := !out.error;
    SavedWhen(m);
    if saved {
      var input := new StateStream.ForLoading(out.output);
      ghost var r := input.ReaderState();
      assert Next(r, |SaveMapper(m).0|) == SaveMapper(m).0;
      MapperSurvives(m, n, r, chrBase);
      to.Serialize(input, chrBase);
      loaded := !input.error && input.position == |input.input|;
      ghost var a := to.State();
      assert from.prgPages[..] == m.prgPages && from.chrPages[..] == m.chrPages;
    }
  }

  lemma SavedWhen(m: Mapper)
    requires WellFormed(m)
    ensures SaveMapper(m).1 == AllLocated(m)
  {}
}
