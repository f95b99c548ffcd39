/** What the sprite DMA leaves in the PPU's OAM. */
module OamDma {
  import opened Types
  import opened PpuModel
  import opened DmaModel
  import opened DmaTransfer

  /** One CPU cycle of a DMA: two dots, the bus access, one dot. */
  function BusCycle(p: Ppu, a: Access, st: Settings, bus: Bus): (q: Ppu)
    requires PpuOk(p)
    ensures PpuOk(q)
  {
    var before := Exec(Exec(p, st, bus), st, bus);
    Exec(if a.Write? then WriteOam(before, st, a.value) else before, st, bus)
  }

  function BusCycles(p: Ppu, log: seq<Access>, st: Settings, bus: Bus): (q: Ppu)
    requires PpuOk(p)
    ensures PpuOk(q)
    decreases |log|
  {
    if log == [] then p else BusCycle(BusCycles(p, log[..|log| - 1], st, bus), Last(log), st, bus)
  }

  /** Rendering is off, or the next n dots are all in vertical blanking. */
  predicate Blank(p: Position, st: Settings, n: nat) {
    !st.rendering || (p.line >= 240 && (260 - p.line) * 341 + 340 - p.dot >= n)
  }

  lemma BlankExec(p: Ppu, st: Settings, bus: Bus, n: nat)
    requires PpuOk(p) && n > 0 && Blank(p.pos, st, n)
    ensures var q := Exec(p, st, bus); Blank(q.pos, st, n - 1) && q.oam == p.oam && q.eval.addr == p.eval.addr
  {}

  lemma BlankCycle(p: Ppu, a: Access, st: Settings, bus: Bus, n: nat)
    requires PpuOk(p) && n >= 3 && Blank(p.pos, st, n)
    ensures var q := BusCycle(p, a, st, bus);
            Blank(q.pos, st, n - 3)
            && (if a.Write? then q.oam == p.oam[p.eval.addr := Kept(p.eval.addr, a.value)]
                                 && q.eval.addr == (p.eval.addr + 1) % 0x100
                else q.oam == p.oam && q.eval.addr == p.eval.addr)
  {
    hide Exec;
    BlankExec(p, st, bus, n);
    var one := Exec(p, st, bus);
    BlankExec(one, st, bus, n - 1);
    var two := Exec(one, st, bus);
    BlankExec(if a.Write? then WriteOam(two, st, a.value) else two, st, bus, n - 2);
  }

  /** Bits 2 to 4 of a sprite's attribute byte do not exist. */
  function Kept(cell: u8, value: u8): u8 { if cell % 4 == 2 then value / 32 * 32 + value % 4 else value }

  /** The first |bytes| cells from `at` on hold `bytes`; the others are as `before`. */
  ghost predicate Filled(oam: Oam, before: Oam, at: u8, bytes: seq<u8>) {
    forall cell :: 0 <= cell < 0x100 ==>
      oam[cell] == if Offset(at, cell) < |bytes| then Kept(cell, bytes[Offset(at, cell)]) else before[cell]
  }

  lemma NothingFilled(oam: Oam, at: u8)
    ensures Filled(oam, oam, at, [])
  {}

  lemma FilledNext(oam: Oam, before: Oam, at: u8, bytes: seq<u8>, value: u8)
    requires Filled(oam, before, at, bytes) && |bytes| < 0x100
    ensures var next: u8 := (at + |bytes|) % 0x100;
            Filled(oam[next := Kept(next, value)], before, at, bytes + [value])
  {
    hide Kept;
  }

  lemma {:induction false} BlankCyclesFill(p: Ppu, log: seq<Access>, st: Settings, bus: Bus, n: nat)
    requires PpuOk(p) && Blank(p.pos, st, n) && 3 * |log| <= n && Writes(log) <= 0x100
    ensures var q := BusCycles(p, log, st, bus);
            && Blank(q.pos, st, n - 3 * |log|) && q.eval.addr == (p.eval.addr + Writes(log)) % 0x100
            && Filled(q.oam, p.oam, p.eval.addr, Written(log))
    decreases |log|
  {
    hide Kept, Blank, BusCycle, Filled;
    if log == [] {
      NothingFilled(p.oam, p.eval.addr);
    } else {
      var before := log[..|log| - 1];
      var q := BusCycles(p, before, st, bus);
      BlankCyclesFill(p, before, st, bus, n);
      BlankCycle(q, Last(log), st, bus, n - 3 * |before|);
      if Last(log).Write? { FilledNext(q.oam, p.oam, p.eval.addr, Written(before), Last(log).value); }
    }
  }

  /** With rendering off or in vertical blanking, the sprite DMA replaces all of OAM: cell k counted from the
      OAM address holds what some cycle's read of byte k of the page returned, less the bits that attribute bytes do
      not have, and the address ends where it began. */
  lemma DmaFillsOam(p: Ppu, f: Flags, page: u8, even: bool, w: World, st: Settings, bus: Bus, k: u8) returns (i: nat)
    requires PpuOk(p) && Blank(p.pos, st, 3 * |Copy(Enter(f, true, page, even, w), w).log|)
    ensures var log := Copy(Enter(f, true, page, even, w), w).log;
            var q, cell := BusCycles(p, log, st, bus), (p.eval.addr + k) % 0x100;
            && q.eval.addr == p.eval.addr && i < |log|
            && log[i] == Read(page * 0x100 + k, w.sprites(i, page * 0x100 + k))
            && q.oam[cell] == Kept(cell, log[i].value)
  {
    hide Copy, Enter, Blank, BusCycles;
    CopyTransfersPage(f, page, even, w);
    var log := Copy(Enter(f, true, page, even, w), w).log;
    BlankCyclesFill(p, log, st, bus, 3 * |log|);
    i := KthWritten(log, page, w, k);
    assert Offset(p.eval.addr, (p.eval.addr + k) % 0x100) == k;
  }

  // ---- while a line is drawn ----

  /** The next n dots are all in the visible lines. */
  predicate Drawing(p: Position, n: nat) { p.line >= 0 && p.line < 240 && (239 - p.line) * 341 + 340 - p.dot >= n }

  lemma DrawingExec(p: Ppu, st: Settings, bus: Bus, n: nat)
    requires PpuOk(p) && n > 0 && Drawing(p.pos, n) && st.rendering
    ensures var q := Exec(p, st, bus); Drawing(q.pos, n - 1) && q.oam == p.oam
  {
    hide EvalDot, LoadDot;
  }

  /** With rendering on in the visible lines nothing that a DMA writes reaches OAM. */
  lemma {:induction false} DrawingKeepsOam(p: Ppu, log: seq<Access>, st: Settings, bus: Bus, n: nat)
    requires PpuOk(p) && Drawing(p.pos, n) && st.rendering && 3 * |log| <= n
    ensures var q := BusCycles(p, log, st, bus); q.oam == p.oam && Drawing(q.pos, n - 3 * |log|)
    decreases |log|
  {
    hide Exec, Drawing;
    if log != [] {
      var before := log[..|log| - 1];
      DrawingKeepsOam(p, before, st, bus, n);
      var q, m := BusCycles(p, before, st, bus), n - 3 * |before|;
      DrawingExec(q, st, bus, m);
      var one := Exec(q, st, bus);
      DrawingExec(one, st, bus, m - 1);
      var two := Exec(one, st, bus);
      var written := if Last(log).Write? then WriteOam(two, st, Last(log).value) else two;
      WriteSkips(two, st, Last(log), m - 2);
      DrawingExec(written, st, bus, m - 2);
    }
  }

  /** A write only moves the OAM address to the next sprite. */
  lemma WriteSkips(p: Ppu, st: Settings, a: Access, n: nat)
    requires PpuOk(p) && Drawing(p.pos, n) && st.rendering
    ensures a.Write? ==>
              var q := WriteOam(p, st, a.value);
              PpuOk(q) && q == p.(eval := p.eval.(addr := q.eval.addr)) && q.eval.addr == (p.eval.addr + 4) % 0x100
                       && Drawing(q.pos, n)
  {}
}
