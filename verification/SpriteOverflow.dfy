/** The overflow flag with eight sprites on a line: from then on the evaluation reads a wrong byte of every sprite. */
module SpriteOverflow {
  import opened PpuModel
  import opened SpriteEvaluation
  import opened SpriteLines
  import opened Types

  predicate OnLine(y: int, line: int, large: bool) { y <= line < y + if large then 16 else 8 }

  /** The byte that is taken for sprite j's Y coordinate when `start` is the first sprite after the eighth found: byte
      0 of that one, byte 1 of the next, and so on round the four bytes of an entry. */
  function Diagonal(oam: Oam, start: nat, j: nat): u8
    requires start <= j < 64
  {
    oam[4 * j + (j - start) % 4]
  }

  /** One of the bytes from sprite j on looks like a sprite on the line. */
  predicate Ninth(oam: Oam, start: nat, j: nat, line: int, large: bool)
    requires start <= j
  {
    exists k :: j <= k < 64 && OnLine(Diagonal(oam, start, k), line, large)
  }

  // ---- a raised flag stays ----

  lemma OverflowStays(e: Eval, oam: Oam, dot: nat, line: int, large: bool)
    requires 1 <= dot <= 256 && e.overflow
    ensures EvalDot(e, oam, dot, line, large).overflow
  {
    hide InRange, BugStep, CopyStep;
    BugStays(e);
    if dot % 2 == 0 && dot >= 65 {
      var f := if dot == 256 then EndEval(e) else e;
      var r := f.(inRange := f.inRange || InRange(line, f.buffer, large));
      if r.sec < 32 { CopyStays(r, dot == 66, line, large); }
    }
  }

  lemma BugStays(e: Eval)
    ensures forall f: Eval :: BugStep(f).overflow == f.overflow
  {}

  lemma CopyStays(e: Eval, first: bool, line: int, large: bool)
    requires e.sec < 32
    ensures CopyStep(e, first, line, large).overflow == e.overflow
  {
    hide InRange;
  }

  lemma {:induction false} DotsStay(e: Eval, oam: Oam, from: nat, line: int, large: bool)
    requires 1 <= from <= 257 && e.overflow
    ensures EvalDots(e, oam, from, 257, line, large).overflow
    decreases 257 - from
  {
    hide EvalDot;
    if from < 257 {
      OverflowStays(e, oam, from, line, large);
      DotsStay(EvalDot(e, oam, from, line, large), oam, from + 1, line, large);
    }
  }

  // ---- the diagonal scan ----

  /** The unit, with no room left, is about to look at sprite j. */
  predicate AtDiagonal(e: Eval, start: nat, j: nat) {
    && start <= j < 64 && e.sec == 32 && !e.done && !e.inRange && e.h == j && e.l == (j - start) % 4
    && e.addr == 4 * e.h + e.l
  }

  lemma DiagonalStep(e: Eval, oam: Oam, start: nat, j: nat, dot: nat, line: int, large: bool)
    requires AtDiagonal(e, start, j) && 67 <= dot <= 255 && dot % 2 == 1
    ensures var f := EvalDots(e, oam, dot, dot + 2, line, large);
            if OnLine(Diagonal(oam, start, j), line, large) then f.overflow
            else f.overflow == e.overflow && if j == 63 then f.done else AtDiagonal(f, start, j + 1)
  {
    var read := EvalDot(e, oam, dot, line, large);
    assert read == e.(buffer := Diagonal(oam, start, j));
    assert EvalDots(read, oam, dot + 1, dot + 2, line, large) == EvalDot(read, oam, dot + 1, line, large);
    DiagonalWrite(if dot + 1 == 256 then EndEval(read) else read, start, j, line, large);
    hide WriteStep;
  }

  lemma DiagonalWrite(e: Eval, start: nat, j: nat, line: int, large: bool)
    requires AtDiagonal(e, start, j)
    ensures var f := WriteStep(e, false, line, large);
            if OnLine(e.buffer, line, large) then f.overflow
            else f.overflow == e.overflow && if j == 63 then f.done else AtDiagonal(f, start, j + 1)
  {
    hide BugStep;
    BugStays(e);
  }

  lemma {:induction false} DiagonalScan(e: Eval, oam: Oam, start: nat, j: nat, dot: nat, line: int, large: bool)
    requires start <= j < 64 && AtDiagonal(e, start, j) && 67 <= dot && dot % 2 == 1 && dot + 2 * (64 - j) <= 257
    ensures EvalDots(e, oam, dot, 257, line, large).overflow == (e.overflow || Ninth(oam, start, j, line, large))
    decreases 64 - j
  {
    hide EvalDots, AtDiagonal, OnLine, Diagonal;
    DiagonalStep(e, oam, start, j, dot, line, large);
    EvalDotsSplit(e, oam, dot, dot + 2, 257, line, large);
    var f := EvalDots(e, oam, dot, dot + 2, line, large);
    if OnLine(Diagonal(oam, start, j), line, large) {
      DotsStay(f, oam, dot + 2, line, large);
    } else if j == 63 {
      RestKeeps(f, oam, dot + 2, line, large);
    } else {
      DiagonalScan(f, oam, start, j + 1, dot + 2, line, large);
    }
  }

  lemma NewlyFound(oam: Oam, i: nat, line: int, large: bool)
    requires i < 64 && |Found(oam, i + 1, line, large)| > |Found(oam, i, line, large)|
    ensures Visible(oam, i, line, large)
  {}

  /** The eighth sprite found is the one before the scan stopped. */
  lemma EighthFound(oam: Oam, stop: nat, line: int, large: bool)
    requires 0 < stop <= 64 && |Found(oam, stop, line, large)| == 8 && |Found(oam, stop - 1, line, large)| < 8
    ensures var all := Found(oam, 64, line, large); |all| >= 8 && all[7] == stop - 1
  {
    FoundPrefix(oam, stop, 64, line, large);
    NewlyFound(oam, stop - 1, line, large);
    FoundKeep(oam, stop - 1, line, large);
  }

  lemma SpriteIsDiagonal(e: Eval, oam: Oam, stop: nat, line: int, large: bool)
    requires stop <= 64 && |Found(oam, stop, line, large)| == 8 && AtSprite(e, oam, stop, line, large)
    ensures e.sec == 32 && if stop == 64 then e.done else AtDiagonal(e, stop, stop)
  {
    hide Layout, Found;
  }

  /** With rendering on and the OAM address at 0, dots 1-256 raise the overflow flag if and only if there are eight
      sprites on the line and one of the bytes on the diagonal after the eighth looks like the Y coordinate of a
      ninth. */
  lemma OverflowExactlyWhen(e: Eval, oam: Oam, line: int, large: bool)
    requires e.addr == 0
    ensures var all := Found(oam, 64, line, large);
            EvalDots(e, oam, 1, 257, line, large).overflow
            == (e.overflow || (|all| >= 8 && var start := all[7] as int + 1; Ninth(oam, start, start, line, large)))
  {
    hide EvalDots, Found, Ninth, AtSprite, StartEval, Layout, Entries;
    EvaluationFindsFirstEight(e, oam, line, large);
    EvalDotsSplit(e, oam, 1, 65, 257, line, large);
    ClearDots(e, oam, 1, line, large);
    var c := EvalDots(e, oam, 1, 65, line, large);
    var s := StartEval(c);
    StartAgain(c, oam, line, large);
    var stop := Scan(s, s, oam, 0, line, large);
    if |Found(oam, 64, line, large)| >= 8 { FullScan(s, oam, stop, line, large); }
  }

  lemma FullScan(s: Eval, oam: Oam, stop: nat, line: int, large: bool)
    requires stop <= 64 && (stop == 64 || |Found(oam, stop, line, large)| == 8)
    requires 0 < stop ==> |Found(oam, stop - 1, line, large)| < 8
    requires |Found(oam, 64, line, large)| >= 8
    requires var dot := DotOf(oam, stop, line, large);
             65 <= dot <= 241 && var f := EvalDots(s, oam, 65, dot, line, large);
             AtSprite(f, oam, stop, line, large) && f.overflow == s.overflow
    ensures var start := Found(oam, 64, line, large)[7] as int + 1;
            EvalDots(s, oam, 65, 257, line, large).overflow == (s.overflow || Ninth(oam, start, start, line, large))
  {
    var dot := DotOf(oam, stop, line, large);
    var f := EvalDots(s, oam, 65, dot, line, large);
    AtMostEight(f, oam, stop, line, large);
    EightAt(oam, stop, line, large);
    SpriteIsDiagonal(f, oam, stop, line, large);
    EighthFound(oam, stop, line, large);
    EvalDotsSplit(s, oam, 65, dot, 257, line, large);
    hide EvalDots, Found, OnLine, Diagonal, AtSprite, AtDiagonal;
    if stop == 64 {
      RestKeeps(f, oam, dot, line, large);
    } else {
      DiagonalScan(f, oam, stop, stop, dot, line, large);
    }
  }

  lemma EightAt(oam: Oam, stop: nat, line: int, large: bool)
    requires stop <= 64 && (stop == 64 || |Found(oam, stop, line, large)| == 8)
    requires |Found(oam, 64, line, large)| >= 8 && |Found(oam, stop, line, large)| <= 8
    ensures stop > 0 && |Found(oam, stop, line, large)| == 8
            && DotOf(oam, stop, line, large) % 2 == 1 && DotOf(oam, stop, line, large) == 113 + 2 * stop
  {
    assert |Found(oam, 0, line, large)| == 0;
    hide Found;
  }

  /** So does a whole line. */
  lemma LineOverflows(p: Ppu, st: Settings, bus: Bus)
    requires LineStart(p, st) && p.eval.addr == 0
    ensures var all := Found(p.oam, 64, p.pos.line, st.large);
            Execs(p, st, bus, 340).eval.overflow
            == (p.eval.overflow
                || (|all| >= 8 && var start := all[7] as int + 1; Ninth(p.oam, start, start, p.pos.line, st.large)))
  {
    hide Execs, EvalDots, Found, Ninth, LoadDots;
    RestOfLine(p, st, bus, 340);
    LoadingPhase(p, st, bus, 320);
    OverflowExactlyWhen(p.eval, p.oam, p.pos.line, st.large);
  }
}
