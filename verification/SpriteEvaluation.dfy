/** Dots 1-256 find the first eight sprites on the line. */
module SpriteEvaluation {
  import opened Types
  import opened PpuModel

  /** Dots from .. to-1. */
  function EvalDots(e: Eval, oam: Oam, from: nat, to: nat, line: int, large: bool): Eval
    requires 1 <= from <= to <= 257
    decreases 257 - from
  {
    if from == to then e else EvalDots(EvalDot(e, oam, from, line, large), oam, from + 1, to, line, large)
  }

  lemma {:induction false} EvalDotsSplit(e: Eval, oam: Oam, from: nat, mid: nat, to: nat, line: int, large: bool)
    requires 1 <= from <= mid <= to <= 257
    ensures EvalDots(e, oam, from, to, line, large)
         == EvalDots(EvalDots(e, oam, from, mid, line, large), oam, mid, to, line, large)
    decreases mid - from
  {
    if from < mid { EvalDotsSplit(EvalDot(e, oam, from, line, large), oam, from + 1, mid, to, line, large); }
  }

  // ---- the specification ----

  /** Sprite i, by its Y byte, is on the line: sprites are 8 lines high, large ones 16. */
  predicate Visible(oam: Oam, i: u6, line: int, large: bool) {
    var top: int := oam[4 * i];
    top <= line && line < if large then top + 16 else top + 8
  }

  /** The sprites among the first n that are on the line, in OAM order. */
  function Found(oam: Oam, n: nat, line: int, large: bool): (found: seq<u6>)
    requires n <= 64
    ensures |found| <= n
    ensures forall i :: i in found <==> 0 <= i < n && Visible(oam, i, line, large)
    ensures forall j, k :: 0 <= j < k < |found| ==> found[j] < found[k]
  {
    if n == 0 then [] else
      var rest := Found(oam, n - 1, line, large);
      assert forall j :: 0 <= j < |rest| ==> rest[j] in rest;
      if Visible(oam, n - 1, line, large) then rest + [n - 1] else rest
  }

  /** Their four-byte entries. */
  function Entries(oam: Oam, sprites: seq<u6>): (bytes: seq<u8>)
    ensures |bytes| == 4 * |sprites|
  {
    if sprites == [] then []
    else
      var i: int := sprites[|sprites| - 1];
      Entries(oam, sprites[..|sprites| - 1]) + oam[4 * i..4 * i + 4]
  }

  // ---- clearing ----

  lemma {:induction false} ClearDots(e: Eval, oam: Oam, dot: nat, line: int, large: bool)
    requires 1 <= dot <= 65
    requires forall i :: 0 <= i < dot / 2 ==> e.secondary[i] == 0xFF
    ensures EvalDots(e, oam, dot, 65, line, large)
         == e.(secondary := seq(32, i => 0xFF), buffer := if dot < 65 then 0xFF else e.buffer)
    decreases 65 - dot
  {
    if dot < 65 {
      ClearDots(EvalDot(e, oam, dot, line, large), oam, dot + 1, line, large);
    } else {
      assert e.secondary == seq(32, i => 0xFF);
    }
  }

  // ---- scanning ----

  function Padded(bytes: seq<u8>): SecondaryOam
    requires |bytes| <= 32
  {
    bytes + seq(32 - |bytes|, i => 0xFF)
  }

  /** Secondary OAM after the first n sprites: the entries found, then the Y byte of the last sprite looked
      at if it was not kept, then the cleared rest. */
  function Layout(oam: Oam, n: nat, line: int, large: bool): (s: SecondaryOam)
    requires n <= 64 && |Found(oam, n, line, large)| <= 8
  {
    hide Found, Entries, Visible;
    var bytes := Entries(oam, Found(oam, n, line, large));
    var rejected := n > 0 && |bytes| < 32 && !Visible(oam, n - 1, line, large);
    var kept := if rejected then bytes + [oam[4 * (n - 1)]] else bytes;
    Padded(kept)
  }

  /** The unit is about to look at sprite i, having room for another. */
  predicate AtSprite(e: Eval, oam: Oam, i: nat, line: int, large: bool)
    requires i <= 64
  {
    var k := |Found(oam, i, line, large)|;
    && k <= 8 && e.sec == 4 * k && e.secondary == Layout(oam, i, line, large)
    && e.h == i % 64 && e.l == 0 && e.addr == e.h * 4 && !e.inRange && e.done == (i == 64)
    && e.zeroAdded == (i > 0 && Visible(oam, 0, line, large))
  }

  /** The dot at which sprite i is looked at: every sprite costs two dots, and a kept one six more. */
  function DotOf(oam: Oam, i: nat, line: int, large: bool): nat
    requires i <= 64
  {
    65 + 2 * (i + 3 * |Found(oam, i, line, large)|)
  }

  /** A read dot and the write dot after it. */
  lemma Pair(e: Eval, oam: Oam, dot: nat, line: int, large: bool)
    requires 65 <= dot <= 253 && dot % 2 == 1 && (dot == 65 ==> StartEval(e) == e)
    ensures EvalDots(e, oam, dot, dot + 2, line, large)
         == WriteStep(e.(buffer := oam[e.addr]), dot == 65, line, large)
  {
    var f := EvalDot(e, oam, dot, line, large);
    assert EvalDots(f, oam, dot + 1, dot + 2, line, large) == EvalDot(f, oam, dot + 1, line, large);
  }

  /** The four bytes of an entry written one after the other. */
  function Keep(s: SecondaryOam, at: nat, oam: Oam, i: nat): SecondaryOam
    requires at + 4 <= 32 && i < 64
  {
    s[at := oam[4 * i]][at + 1 := oam[4 * i + 1]][at + 2 := oam[4 * i + 2]][at + 3 := oam[4 * i + 3]]
  }

  /** The layout holds `bytes`, at most one more byte, and is clear after that. */
  predicate Holds(s: SecondaryOam, bytes: seq<u8>, clear: bool) {
    && |bytes| <= 32 && s[..|bytes|] == bytes
    && forall j :: |bytes| + (if clear then 0 else 1) <= j < 32 ==> s[j] == 0xFF
  }

  lemma LayoutHolds(oam: Oam, n: nat, line: int, large: bool)
    requires n <= 64 && |Found(oam, n, line, large)| <= 8
    ensures Holds(Layout(oam, n, line, large), Entries(oam, Found(oam, n, line, large)),
                  n == 0 || Visible(oam, n - 1, line, large))
  {
    hide Found, Entries, Visible;
  }

  lemma FoundSkip(oam: Oam, i: nat, line: int, large: bool)
    requires i < 64 && !Visible(oam, i, line, large)
    ensures Found(oam, i + 1, line, large) == Found(oam, i, line, large)
  {}

  lemma LayoutRejects(oam: Oam, i: nat, line: int, large: bool)
    requires i < 64 && !Visible(oam, i, line, large) && |Found(oam, i + 1, line, large)| < 8
    ensures Layout(oam, i + 1, line, large)[4 * |Found(oam, i + 1, line, large)|] == oam[4 * i]
  {
    hide Found, Entries, Visible;
  }

  lemma OneMoreByte(s: SecondaryOam, t: SecondaryOam, bytes: seq<u8>, clear: bool)
    requires |bytes| < 32 && Holds(s, bytes, clear) && Holds(t, bytes, false)
    ensures t == s[|bytes| := t[|bytes|]]
  {
    var n := |bytes|;
    assert forall j :: 0 <= j < n ==> s[j] == s[..n][j] && t[j] == t[..n][j];
  }

  lemma LayoutSkip(oam: Oam, i: nat, line: int, large: bool)
    requires i < 64 && !Visible(oam, i, line, large) && |Found(oam, i, line, large)| < 8
    ensures Found(oam, i + 1, line, large) == Found(oam, i, line, large)
    ensures Layout(oam, i + 1, line, large)
         == Layout(oam, i, line, large)[4 * |Found(oam, i, line, large)| := oam[4 * i]]
  {
    hide Layout, Holds, Visible, Found, Entries;
    var found := Found(oam, i, line, large);
    FoundSkip(oam, i, line, large);
    LayoutHolds(oam, i, line, large);
    LayoutHolds(oam, i + 1, line, large);
    LayoutRejects(oam, i, line, large);
    OneMoreByte(Layout(oam, i, line, large), Layout(oam, i + 1, line, large), Entries(oam, found),
                i == 0 || Visible(oam, i - 1, line, large));
  }

  lemma LayoutKeep(oam: Oam, i: nat, line: int, large: bool)
    requires i < 64 && Visible(oam, i, line, large) && |Found(oam, i, line, large)| < 8
    ensures Found(oam, i + 1, line, large) == Found(oam, i, line, large) + [i]
    ensures Layout(oam, i + 1, line, large)
         == Keep(Layout(oam, i, line, large), 4 * |Found(oam, i, line, large)|, oam, i)
  {
    hide Layout, Holds, Keep, Visible, Found, Entries;
    var found := Found(oam, i, line, large);
    FoundKeep(oam, i, line, large);
    LayoutHolds(oam, i, line, large);
    LayoutHolds(oam, i + 1, line, large);
    EntriesAppend(oam, found, i);
    SameBytes(Layout(oam, i, line, large), Layout(oam, i + 1, line, large), Entries(oam, found), oam, i,
              i == 0 || Visible(oam, i - 1, line, large));
  }

  lemma SameBytes(s: SecondaryOam, t: SecondaryOam, bytes: seq<u8>, oam: Oam, i: nat, clear: bool)
    requires i < 64 && |bytes| <= 28 && Holds(s, bytes, clear) && Holds(t, bytes + oam[4 * i..4 * i + 4], true)
    ensures t == Keep(s, |bytes|, oam, i)
  {
    var u := Keep(s, |bytes|, oam, i);
    assert oam[4 * i..4 * i + 4] == [oam[4 * i], oam[4 * i + 1], oam[4 * i + 2], oam[4 * i + 3]];
    assert u[..|bytes| + 4] == bytes + oam[4 * i..4 * i + 4];
    assert t[..|bytes| + 4] == u[..|bytes| + 4];
    assert t[|bytes| + 4..] == u[|bytes| + 4..];
    assert t == t[..|bytes| + 4] + t[|bytes| + 4..];
  }

  lemma FoundKeep(oam: Oam, i: nat, line: int, large: bool)
    requires i < 64 && Visible(oam, i, line, large)
    ensures Found(oam, i + 1, line, large) == Found(oam, i, line, large) + [i]
  {}

  lemma EntriesAppend(oam: Oam, found: seq<u6>, i: u6)
    ensures Entries(oam, found + [i]) == Entries(oam, found) + oam[4 * i as int..4 * i as int + 4]
  {
    assert (found + [i])[..|found|] == found;
  }

  lemma SkipDots(e: Eval, oam: Oam, dot: nat, line: int, large: bool)
    requires 65 <= dot <= 253 && dot % 2 == 1 && (dot == 65 ==> StartEval(e) == e)
    requires !e.done && !e.inRange && e.l == 0 && e.sec < 32 && e.addr == e.h * 4
    requires !Visible(oam, e.h, line, large)
    ensures EvalDots(e, oam, dot, dot + 2, line, large)
         == e.(buffer := oam[e.addr], secondary := e.secondary[e.sec := oam[e.addr]], h := NextSprite(e.h),
               done := e.h == 63, addr := NextSprite(e.h) * 4)
  {
    hide EvalDots;
    Pair(e, oam, dot, line, large);
  }

  /** One byte of a sprite on the line. */
  lemma KeepByte(e: Eval, oam: Oam, dot: nat, line: int, large: bool)
    requires 65 <= dot <= 253 && dot % 2 == 1 && (dot == 65 ==> StartEval(e) == e)
    requires !e.done && e.sec < 32 && e.sec % 4 == e.l && e.addr == e.h * 4 + e.l
    requires if e.l == 0 then !e.inRange && Visible(oam, e.h, line, large) else e.inRange
    ensures EvalDots(e, oam, dot, dot + 2, line, large)
         == var last := e.l == 3; var h := if last then NextSprite(e.h) else e.h;
            e.(buffer := oam[e.addr], secondary := e.secondary[e.sec := oam[e.addr]], sec := e.sec + 1,
               zeroAdded := e.zeroAdded || dot == 65, inRange := !last, h := h, l := (e.l + 1) % 4,
               done := last && e.h == 63, addr := h * 4 + (e.l + 1) % 4)
  {
    hide EvalDots;
    Pair(e, oam, dot, line, large);
  }

  lemma FourPairs(e: Eval, oam: Oam, dot: nat, line: int, large: bool)
    requires 1 <= dot <= 249
    ensures var one := EvalDots(e, oam, dot, dot + 2, line, large);
            var two := EvalDots(one, oam, dot + 2, dot + 4, line, large);
            var three := EvalDots(two, oam, dot + 4, dot + 6, line, large);
            EvalDots(e, oam, dot, dot + 8, line, large) == EvalDots(three, oam, dot + 6, dot + 8, line, large)
  {
    hide EvalDots;
    var one := EvalDots(e, oam, dot, dot + 2, line, large);
    var two := EvalDots(one, oam, dot + 2, dot + 4, line, large);
    EvalDotsSplit(e, oam, dot, dot + 2, dot + 8, line, large);
    EvalDotsSplit(one, oam, dot + 2, dot + 4, dot + 8, line, large);
    EvalDotsSplit(two, oam, dot + 4, dot + 6, dot + 8, line, large);
  }

  lemma KeepDots(e: Eval, oam: Oam, dot: nat, line: int, large: bool)
    requires 65 <= dot <= 247 && dot % 2 == 1 && (dot == 65 ==> StartEval(e) == e)
    requires !e.done && !e.inRange && e.l == 0 && e.sec <= 28 && e.sec % 4 == 0 && e.addr == e.h * 4
    requires Visible(oam, e.h, line, large)
    ensures EvalDots(e, oam, dot, dot + 8, line, large)
         == e.(buffer := oam[e.addr + 3], secondary := Keep(e.secondary, e.sec, oam, e.h), sec := e.sec + 4,
               zeroAdded := e.zeroAdded || dot == 65, h := NextSprite(e.h), done := e.h == 63,
               addr := NextSprite(e.h) * 4)
  {
    hide EvalDots, StartEval, Visible;
    KeepByte(e, oam, dot, line, large);
    var one := EvalDots(e, oam, dot, dot + 2, line, large);
    KeepByte(one, oam, dot + 2, line, large);
    var two := EvalDots(one, oam, dot + 2, dot + 4, line, large);
    KeepByte(two, oam, dot + 4, line, large);
    var three := EvalDots(two, oam, dot + 4, dot + 6, line, large);
    KeepByte(three, oam, dot + 6, line, large);
    FourPairs(e, oam, dot, line, large);
  }

  /** One sprite: kept and copied if it is on the line, passed over otherwise. */
  lemma ScanSprite(e: Eval, oam: Oam, i: nat, line: int, large: bool)
    requires i < 64 && AtSprite(e, oam, i, line, large) && |Found(oam, i, line, large)| < 8
    requires i == 0 ==> StartEval(e) == e
    ensures var from, to := DotOf(oam, i, line, large), DotOf(oam, i + 1, line, large);
            from < to <= 241 && var f := EvalDots(e, oam, from, to, line, large);
            AtSprite(f, oam, i + 1, line, large) && f.overflow == e.overflow
  {
    hide EvalDots, Layout, Visible, Found;
    var from := DotOf(oam, i, line, large);
    if Visible(oam, i, line, large) {
      LayoutKeep(oam, i, line, large);
      KeepDots(e, oam, from, line, large);
    } else {
      LayoutSkip(oam, i, line, large);
      SkipDots(e, oam, from, line, large);
    }
  }

  /** The scan from sprite i on, to the end of OAM or to the eighth sprite found. */
  lemma {:induction false} Scan(start: Eval, e: Eval, oam: Oam, i: nat, line: int, large: bool) returns (stop: nat)
    requires i <= 64 && AtSprite(e, oam, i, line, large) && (i == 0 ==> StartEval(e) == e)
    requires var dot := DotOf(oam, i, line, large);
             dot <= 241 && e == EvalDots(start, oam, 65, dot, line, large) && e.overflow == start.overflow
    ensures i <= stop <= 64 && (stop == 64 || |Found(oam, stop, line, large)| == 8)
    ensures i < stop ==> |Found(oam, stop - 1, line, large)| < 8
    ensures var dot := DotOf(oam, stop, line, large);
            65 <= dot <= 241 && var f := EvalDots(start, oam, 65, dot, line, large);
            AtSprite(f, oam, stop, line, large) && f.overflow == start.overflow
    decreases 64 - i
  {
    hide EvalDots, AtSprite, StartEval, Found;
    if i == 64 || |Found(oam, i, line, large)| == 8 {
      stop := i;
    } else {
      AtMostEight(e, oam, i, line, large);
      ScanSprite(e, oam, i, line, large);
      var from, to := DotOf(oam, i, line, large), DotOf(oam, i + 1, line, large);
      EvalDotsSplit(start, oam, 65, from, to, line, large);
      stop := Scan(start, EvalDots(e, oam, from, to, line, large), oam, i + 1, line, large);
    }
  }

  lemma AtMostEight(e: Eval, oam: Oam, i: nat, line: int, large: bool)
    requires i <= 64 && AtSprite(e, oam, i, line, large)
    ensures |Found(oam, i, line, large)| <= 8
  {}

  /** Once OAM is exhausted or secondary OAM is full, what was found stays; dot 256 publishes it. */
  lemma {:induction false} RestKeeps(e: Eval, oam: Oam, dot: nat, line: int, large: bool)
    requires 67 <= dot <= 257 && (e.done || e.sec == 32)
    ensures var f := EvalDots(e, oam, dot, 257, line, large);
            && f.secondary == e.secondary && f.sec == e.sec && f.zeroAdded == e.zeroAdded
            && (e.done ==> f.overflow == e.overflow)
            && (dot <= 256 ==> f.count == (e.sec + 3) / 4 && f.zeroVisible == e.zeroAdded)
            && (dot == 257 ==> f == e)
    decreases 257 - dot
  {
    hide EvalDot;
    if dot < 257 {
      RestDotKeeps(e, oam, dot, line, large);
      RestKeeps(EvalDot(e, oam, dot, line, large), oam, dot + 1, line, large);
    }
  }

  lemma RestDotKeeps(e: Eval, oam: Oam, dot: nat, line: int, large: bool)
    requires 67 <= dot <= 256 && (e.done || e.sec == 32)
    ensures var f := EvalDot(e, oam, dot, line, large);
            && f.secondary == e.secondary && f.sec == e.sec && f.zeroAdded == e.zeroAdded
            && (e.done ==> f.done && f.overflow == e.overflow)
            && (dot == 256 ==> f.count == (e.sec + 3) / 4 && f.zeroVisible == e.zeroAdded)
  {
    hide WriteStep, InRange;
    if dot % 2 == 0 { RestStepKeeps(if dot == 256 then EndEval(e) else e, dot == 66, line, large); }
  }

  lemma RestStepKeeps(e: Eval, first: bool, line: int, large: bool)
    requires e.done || e.sec == 32
    ensures var f := WriteStep(e, first, line, large);
            && f.secondary == e.secondary && f.sec == e.sec && f.zeroAdded == e.zeroAdded
            && f.count == e.count && f.zeroVisible == e.zeroVisible
            && (e.done ==> f.done && f.overflow == e.overflow)
  {
    hide InRange, CopyStep;
    if !e.done {
      hide OverflowStep;
      OverflowKeeps(e.(inRange := e.inRange || InRange(line, e.buffer, large)));
    }
  }

  lemma OverflowKeeps(e: Eval)
    ensures var f := OverflowStep(e);
            f.secondary == e.secondary && f.sec == e.sec && f.zeroAdded == e.zeroAdded
            && f.count == e.count && f.zeroVisible == e.zeroVisible
  {
    hide BugStep;
    var c := e.(buffer := e.secondary[e.sec % 32]);
    BugKeeps(c.(overflow := true, h := NextSprite(e.h), l := 0));
    if e.l < 3 { BugKeeps(c.(overflow := true, l := e.l + 1)); }
  }

  lemma BugKeeps(e: Eval)
    ensures BugStep(e) == e.(bug := BugStep(e).bug, done := BugStep(e).done, l := BugStep(e).l)
  {}

  lemma {:induction false} FoundPrefix(oam: Oam, m: nat, n: nat, line: int, large: bool)
    requires m <= n <= 64
    ensures Found(oam, m, line, large) <= Found(oam, n, line, large)
  {
    if m < n {
      var i: int := n - 1;
      if Visible(oam, i, line, large) { FoundKeep(oam, i, line, large); } else { FoundSkip(oam, i, line, large); }
      hide Found, Visible;
      FoundPrefix(oam, m, i, line, large);
    }
  }

  /** Dots 65-256 on a cleared secondary OAM with the OAM address at 0. */
  lemma ScanFinds(e: Eval, oam: Oam, line: int, large: bool)
    requires e.addr == 0 && e.secondary == seq(32, i => 0xFF)
    ensures var f := EvalDots(e, oam, 65, 257, line, large);
            var all := Found(oam, 64, line, large);
            var m := if |all| < 8 then |all| else 8;
            && f.count == m && f.sec == 4 * m && f.secondary[..4 * m] == Entries(oam, all[..m])
            && f.zeroVisible == Visible(oam, 0, line, large)
            && (|all| < 8 ==> f.overflow == e.overflow && f.secondary == Layout(oam, 64, line, large))
  {
    hide Layout, Entries, Visible, StartEval, EvalDots, Found;
    var s := StartEval(e);
    StartAgain(e, oam, line, large);
    var stop := Scan(s, s, oam, 0, line, large);
    var dot := DotOf(oam, stop, line, large);
    var f := EvalDots(s, oam, 65, dot, line, large);
    EvalDotsSplit(s, oam, 65, dot, 257, line, large);
    RestKeeps(f, oam, dot, line, large);
    FoundPrefix(oam, stop, 64, line, large);
    var all, found := Found(oam, 64, line, large), Found(oam, stop, line, large);
    assert found == all[..|found|];
    FirstBytes(oam, stop, line, large);
  }

  /** Dot 65 restarts the unit, so it may as well have been restarted before. */
  lemma StartAgain(e: Eval, oam: Oam, line: int, large: bool)
    requires e.addr == 0 && e.secondary == seq(32, i => 0xFF)
    ensures var s := StartEval(e);
            && StartEval(s) == s && s.overflow == e.overflow && AtSprite(s, oam, 0, line, large)
            && EvalDots(e, oam, 65, 257, line, large) == EvalDots(s, oam, 65, 257, line, large)
            && EvalDots(s, oam, 65, 65, line, large) == s && DotOf(oam, 0, line, large) == 65
  {
    hide WriteStep;
    assert Layout(oam, 0, line, large) == StartEval(e).secondary;
    assert EvalDot(e, oam, 65, line, large) == EvalDot(StartEval(e), oam, 65, line, large);
  }

  lemma FirstBytes(oam: Oam, n: nat, line: int, large: bool)
    requires n <= 64 && |Found(oam, n, line, large)| <= 8
    ensures var bytes := Entries(oam, Found(oam, n, line, large));
            |bytes| <= 32 && Layout(oam, n, line, large)[..|bytes|] == bytes
  {
    LayoutHolds(oam, n, line, large);
  }

  /** Sprite evaluation meets its specification: with rendering on and the OAM address at 0, dots 1-256
      leave in secondary OAM the entries of the first eight sprites on the line in OAM order, count them,
      tell whether sprite 0 is on the line, and with fewer than eight never touch the overflow flag; then
      every byte of secondary OAM is accounted for. */
  lemma EvaluationFindsFirstEight(e: Eval, oam: Oam, line: int, large: bool)
    requires e.addr == 0
    ensures var f := EvalDots(e, oam, 1, 257, line, large);
            var all := Found(oam, 64, line, large);
            var m := if |all| < 8 then |all| else 8;
            && f.count == m && f.sec == 4 * m && f.secondary[..4 * m] == Entries(oam, all[..m])
            && f.zeroVisible == Visible(oam, 0, line, large)
            && (|all| < 8 ==> f.overflow == e.overflow && f.secondary == Layout(oam, 64, line, large))
  {
    hide EvalDots, Layout, Entries, Visible, Found;
    EvalDotsSplit(e, oam, 1, 65, 257, line, large);
    ClearDots(e, oam, 1, line, large);
    ScanFinds(EvalDots(e, oam, 1, 65, line, large), oam, line, large);
  }
}
