/** What the pre-render line does to the sprite unit. */
module PreRenderLine {
  import opened PpuModel
  import opened SpriteLines
  import opened Types

  /** After power-on the first dot begins the first visible line, and the frame counts as an odd one. */
  lemma PowerOnDot(st: Settings, bus: Bus)
    ensures var q := Exec(PowerOn(), st, bus);
            q.pos == Position(0, 0, 1) && q.oam == seq(256, i => 0) && q.eval.count == 0 && !q.eval.overflow
  {}

  /** It starts by forgetting the sprites found last and the overflow flag. */
  lemma PreRenderClears(p: Ppu, st: Settings, bus: Bus)
    requires PpuOk(p) && p.pos.dot == 340 && p.pos.line == 260
    ensures var q := Exec(p, st, bus);
            && q == p.(pos := Position(0, -1, p.pos.frame), eval := q.eval)
            && q.eval == p.eval.(count := 0, overflow := false)
  {}

  /** Dots passed since the beginning of the line, the skipped one included. */
  function Index(p: Position): int { (p.line + 1) * 341 + p.dot }

  lemma CountStays(p: Ppu, st: Settings, bus: Bus)
    requires PpuOk(p) && p.eval.count == 0 && 0 <= Index(p.pos) < 596
    ensures var q := Exec(p, st, bus);
            && q.eval.count == 0
            && Index(q.pos) <= Index(p.pos) + 1 + (if p.pos.line == -1 && p.pos.dot == 338 then 1 else 0)
            && Index(q.pos) >= Index(p.pos) + 1
  {
    hide EvalDot, LoadDot;
    var dot := p.pos.dot + 1;
    if dot < 256 && p.pos.line == 0 { EvalDotKeeps(p.eval, p.oam, dot, 0, st.large); }
  }

  /** Nothing is evaluated on the pre-render line, so none is found until dot 256 of the first visible one. */
  lemma {:induction false} NoneFound(p: Ppu, st: Settings, bus: Bus, n: nat)
    requires PpuOk(p) && p.eval.count == 0 && p.pos.line == -1 && p.pos.dot + n <= 595
    ensures var q := Execs(p, st, bus, n);
            && q.eval.count == 0
            && p.pos.dot + n <= Index(q.pos) <= p.pos.dot + n + (if Index(q.pos) >= 340 then 1 else 0)
  {
    hide Exec;
    if n > 0 {
      NoneFound(p, st, bus, n - 1);
      CountStays(Execs(p, st, bus, n - 1), st, bus);
    }
  }

  /** So the first visible line shows no sprite. */
  lemma FirstLineEmpty(p: Ppu, st: Settings, bus: Bus, n: nat, column: int, b: Backdrop, hit: bool)
    requires PpuOk(p) && p.eval.count == 0 && p.pos.line == -1 && p.pos.dot + n <= 595
    ensures var q := Execs(p, st, bus, n);
            forall look :: Pixel(q.sprites.tiles, q.eval, look, column, b, hit) == (b.palette + b.color, hit)
  {
    NoneFound(p, st, bus, n);
    hide Execs;
  }

  /** The first n bytes have been replaced by those from `row` on. */
  predicate Copied(before: Oam, after: Oam, row: nat, n: nat)
    requires row + 8 <= 256 && n <= 8
  {
    forall i {:trigger after[i]} :: 0 <= i < 256 ==> after[i] == if i < n then before[row + i] else before[i]
  }

  lemma CopiedNext(before: Oam, after: Oam, row: nat, n: nat)
    requires row + 8 <= 256 && n < 8 && Copied(before, after, row, n)
    ensures row == 0 ==> Copied(before, after, row, n + 1)
    ensures row >= 8 ==> Copied(before, after[n := after[row + n]], row, n + 1)
  {}

  /** With rendering on its dots 1 to 8 copy the eight bytes of OAM around the OAM address over the first eight. */
  lemma {:induction false} FirstBytesCopied(p: Ppu, st: Settings, bus: Bus, n: nat)
    requires PpuOk(p) && p.pos.dot == 0 && p.pos.line == -1 && st.rendering && n <= 8
    ensures var q := Execs(p, st, bus, n);
            q.pos == p.pos.(dot := n) && q.eval == p.eval && Copied(p.oam, q.oam, p.eval.addr / 8 * 8, n)
  {
    hide Exec;
    RowOutside(p.eval.addr);
    if n > 0 {
      hide Copied;
      FirstBytesCopied(p, st, bus, n - 1);
      var q := Execs(p, st, bus, n - 1);
      CopyDot(q, st, bus);
      CopiedNext(p.oam, q.oam, p.eval.addr / 8 * 8, n - 1);
    }
  }

  lemma RowOutside(addr: u8)
    ensures addr / 8 * 8 + 8 <= 256 && (addr >= 8 ==> addr / 8 * 8 >= 8) && (addr < 8 ==> addr / 8 * 8 == 0)
  {}

  lemma CopyDot(p: Ppu, st: Settings, bus: Bus)
    requires PpuOk(p) && 0 <= p.pos.dot < 8 && p.pos.line == -1 && st.rendering
    ensures var q, dot := Exec(p, st, bus), p.pos.dot;
            && q.pos == p.pos.(dot := dot + 1) && q.eval == p.eval
            && q.oam == if p.eval.addr >= 8 then p.oam[dot := p.oam[p.eval.addr / 8 * 8 + dot]] else p.oam
  {}
}
