/** How a mapper's page pointers survive a save and a load (src/systems/nes/nes_state.cpp): as a region and an
    offset, because the arrays are somewhere else when the state is loaded. */
module MapperPages {
  import opened Types

  /** An array in memory; a base of 0 is no array. */
  datatype Area = Area(base: nat, bytes: Bytes)

  /** PRG ROM, CHR ROM, CHR RAM, work RAM, save RAM and nametable RAM, then the arrays of the mapper itself. */
  type Areas = s: seq<Area> | 6 <= |s| <= 0x85 witness seq(6, i => Area(0, []))

  const OWN_START := 0x80
  const UNKNOWN := 0xFF

  predicate Inside(b: Area, p: nat) { b.base != 0 && b.base <= p < b.base + |b.bytes| }

  /** Arrays do not overlap, and offsets into them fit 32 bits. */
  ghost predicate Laid(areas: Areas) {
    && (forall k :: 0 <= k < |areas| ==>
          |areas[k].bytes| <= 0x1_0000_0000 && (areas[k].bytes != [] ==> areas[k].base > 0))
    && forall j, k, p :: 0 <= j < k < |areas| && Inside(areas[j], p) ==> !Inside(areas[k], p)
  }

  /** The first array that a pointer lies in, in the order the code asks. */
  function Locate(areas: Areas, p: nat, from: nat): (k: nat)
    requires from <= |areas|
    ensures from <= k <= |areas| && (k < |areas| ==> Inside(areas[k], p))
    ensures forall j :: from <= j < k ==> !Inside(areas[j], p)
    decreases |areas| - from
  {
    if from == |areas| || Inside(areas[from], p) then from else Locate(areas, p, from + 1)
  }

  datatype Entry = Entry(region: u8, offset: u32)

  function Code(k: nat): u8
    requires k < 0x85
  {
    if k < 6 then k + 1 else OWN_START + (k - 6)
  }

  /** The saving half of sync_page: the entry, and whether the pointer could be told. */
  function SavePage(areas: Areas, p: nat): (Entry, bool) {
    if p == 0 then (Entry(0, 0), true)
    else
      var k := Locate(areas, p, 0);
      if k < |areas| then (Entry(Code(k), (p - areas[k].base) % 0x1_0000_0000), true) else (Entry(UNKNOWN, 0), false)
  }

  /** The loading half: the pointer, and whether the entry made sense. */
  function LoadPage(areas: Areas, e: Entry): (nat, bool) {
    if e.region == 0 then (0, true)
    else
      var k :=
        if 1 <= e.region <= 6 then e.region - 1
        else if OWN_START <= e.region < UNKNOWN then e.region - OWN_START + 6
        else |areas|;
      if k < |areas| && areas[k].base != 0 && e.offset < |areas[k].bytes| then (areas[k].base + e.offset, true)
      else (0, false)
  }

  /** What a read through a pointer returns, if it is inside an array. */
  function Byte(areas: Areas, p: nat): Option<u8> {
    var k := Locate(areas, p, 0);
    if k < |areas| then Some(areas[k].bytes[p - areas[k].base]) else None
  }

  /** The same contents, possibly somewhere else in memory. */
  ghost predicate Same(before: Areas, after: Areas) {
    |before| == |after| && forall k :: 0 <= k < |before| ==> before[k].bytes == after[k].bytes
  }

  lemma LocateUnique(areas: Areas, p: nat, k: nat)
    requires Laid(areas) && k < |areas| && Inside(areas[k], p)
    ensures Locate(areas, p, 0) == k
  {
    var j := Locate(areas, p, 0);
    assert Inside(areas[j], p) && Inside(areas[k], p);
  }

  /** Reads through q in `after` are reads through p in `before`. */
  predicate Survives(before: Areas, p: nat, after: Areas, q: nat, low: nat) {
    var k := Locate(before, p, 0);
    && (q == 0 <==> p == 0)
    && (p != 0 && k < |before| && Inside(before[k], p + low) ==>
          Byte(before, p + low).Some? && Byte(after, q + low) == Byte(before, p + low))
  }

  /** A page survives: whatever the new layout, the loaded pointer is in the same array at the same place, so
      every read through it that stays inside the array returns the byte it returned before saving. */
  lemma PageSurvives(before: Areas, after: Areas, p: nat, low: nat)
    requires Laid(before) && Laid(after) && Same(before, after) && SavePage(before, p).1
    ensures LoadPage(after, SavePage(before, p).0).1
    ensures Survives(before, p, after, LoadPage(after, SavePage(before, p).0).0, low)
  {
    if p != 0 {
      var k := Locate(before, p, 0);
      var (q, ok) := LoadPage(after, SavePage(before, p).0);
      assert before[k].bytes == after[k].bytes && |before[k].bytes| <= 0x1_0000_0000;
      assert q == after[k].base + (p - before[k].base);
      if Inside(before[k], p + low) {
        LocateUnique(before, p + low, k);
        LocateUnique(after, q + low, k);
      }
    }
  }

  /** Saving fails exactly for a pointer into no known array. */
  lemma StrayFails(areas: Areas, p: nat)
    ensures SavePage(areas, p).1 <==> p == 0 || exists k :: 0 <= k < |areas| && Inside(areas[k], p)
  {
    var k := Locate(areas, p, 0);
    if k < |areas| { assert Inside(areas[k], p); }
  }

  /** Loading accepts an entry exactly when saving some pointer of this layout produces it, so a pointer that was
      loaded is never outside the arrays. */
  lemma LoadedIsSavable(areas: Areas, e: Entry)
    requires Laid(areas)
    ensures LoadPage(areas, e).1 && (e.region == 0 ==> e.offset == 0)
            <==> exists p :: SavePage(areas, p) == (e, true)
  {
    var (p, ok) := LoadPage(areas, e);
    if ok && (e.region == 0 ==> e.offset == 0) {
      if p != 0 {
        var k := if e.region <= 6 then e.region - 1 else e.region - OWN_START + 6;
        LocateUnique(areas, p, k);
      }
      assert SavePage(areas, p) == (e, true);
    }
    if p': nat :| SavePage(areas, p') == (e, true) && p' != 0 {
      var k := Locate(areas, p', 0);
      assert e.offset == p' - areas[k].base;
    }
  }
}
