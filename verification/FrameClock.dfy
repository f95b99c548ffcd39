/** How long a frame is (src/systems/nes/nes_ppu.cpp). */
module FrameClock {
  import opened PpuModel

  /** Rendering and register settings may change at any dot: skips[i] is what the i-th dot sees. */
  function Positions(p: Position, skips: seq<bool>): Position
    decreases |skips|
  {
    if skips == [] then p else NextDot(Positions(p, skips[..|skips| - 1]), skips[|skips| - 1])
  }

  lemma {:induction false} PositionsSum(p: Position, a: seq<bool>, b: seq<bool>)
    ensures Positions(p, a + b) == Positions(Positions(p, a), b)
    decreases |b|
  {
    if b == [] {
      assert a + b == a;
    } else {
      PositionsSum(p, a, b[..|b| - 1]);
      assert (a + b)[..|a + b| - 1] == a + b[..|b| - 1];
    }
  }

  /** Dots since the frame counter last moved, if no dot was skipped. */
  function Index(p: Position): (i: nat)
    ensures i < 89342
  {
    (if p.line >= 240 then p.line - 240 else p.line + 22) * 341 + p.dot
  }

  predicate FrameStart(p: Position) { p.line == 240 && p.dot == 0 }

  lemma StepIndex(p: Position, skip: bool)
    ensures var q := NextDot(p, skip);
            && (Index(p) == 89341 ==> q == Position(0, 240, (p.frame + 1) % 0x1_0000_0000))
            && (Index(p) < 89341 ==>
                  && q.frame == p.frame
                  && Index(q) == Index(p) + if Index(p) == 7499 && p.frame % 2 == 1 && skip then 2 else 1)
  {}

  /** The dot of the pre-render line that an odd frame leaves out while rendering. */
  predicate Skips(p: Position, skips: seq<bool>) { p.frame % 2 == 1 && |skips| > 7499 && skips[7499] }

  lemma {:induction false} IndexAfter(p: Position, skips: seq<bool>)
    requires FrameStart(p) && |skips| < if Skips(p, skips) then 89341 else 89342
    ensures var q := Positions(p, skips);
            q.frame == p.frame && Index(q) == |skips| + if Skips(p, skips) then 1 else 0
    decreases |skips|
  {
    hide NextDot, Index;
    StartIndex(p);
    if skips != [] {
      var before := skips[..|skips| - 1];
      IndexAfter(p, before);
      StepIndex(Positions(p, before), skips[|skips| - 1]);
    }
  }

  lemma StartIndex(p: Position)
    ensures FrameStart(p) <==> Index(p) == 0
  {}

  /** From one increment of the frame counter to the next there are exactly 89342 dots, or 89341 when the
      frame is odd and rendering is on at the skipped dot of the pre-render line, whatever rendering does at
      every other dot; in between the counter does not move and the start of a frame is not seen. */
  lemma FrameLength(p: Position, skips: seq<bool>)
    requires FrameStart(p) && |skips| == if Skips(p, skips) then 89341 else 89342
    ensures Positions(p, skips) == Position(0, 240, (p.frame + 1) % 0x1_0000_0000)
    ensures forall m :: 0 < m < |skips| ==>
              Positions(p, skips[..m]).frame == p.frame && !FrameStart(Positions(p, skips[..m]))
  {
    hide NextDot, Index, Positions;
    forall m | 0 < m < |skips|
      ensures Positions(p, skips[..m]).frame == p.frame && !FrameStart(Positions(p, skips[..m]))
    {
      IndexAfter(p, skips[..m]);
      StartIndex(Positions(p, skips[..m]));
    }
    var before := skips[..|skips| - 1];
    IndexAfter(p, before);
    StepIndex(Positions(p, before), skips[|skips| - 1]);
    LastPosition(p, skips);
  }

  lemma LastPosition(p: Position, skips: seq<bool>)
    requires skips != []
    ensures Positions(p, skips) == NextDot(Positions(p, skips[..|skips| - 1]), skips[|skips| - 1])
  {}

  /** Fewer dots than a frame has move the counter at most once, and until it moves they get closer to that. */
  lemma Advance(p: Position, skips: seq<bool>)
    requires |skips| <= 89341
    ensures var q := Positions(p, skips);
            || (q.frame == p.frame && Index(q) >= Index(p) + |skips|)
            || q.frame == (p.frame + 1) % 0x1_0000_0000
  {
    hide Index, NextDot, Positions;
    var wrapped, a, b := Wraps(p, skips);
    if wrapped {
      PositionsSum(p, a, b);
      IndexAfter(Positions(p, a), b);
    }
  }

  lemma {:induction false} Wraps(p: Position, skips: seq<bool>) returns (wrapped: bool, a: seq<bool>, b: seq<bool>)
    ensures !wrapped ==> Positions(p, skips).frame == p.frame && Index(Positions(p, skips)) >= Index(p) + |skips|
    ensures wrapped ==> skips == a + b && a != [] && Positions(p, a) == Position(0, 240, (p.frame + 1) % 0x1_0000_0000)
    decreases |skips|
  {
    hide Index, NextDot;
    if skips == [] {
      wrapped, a, b := false, [], [];
    } else {
      var before, last := skips[..|skips| - 1], skips[|skips| - 1];
      wrapped, a, b := Wraps(p, before);
      if wrapped {
        b := b + [last];
      } else {
        StepIndex(Positions(p, before), last);
        wrapped := Index(Positions(p, before)) == 89341;
        a, b := skips, [];
      }
    }
  }

  /** While settings do not change, execution follows the dot clock. */
  lemma {:induction false} ExecsPositions(p: Ppu, st: Settings, bus: Bus, n: nat)
    requires PpuOk(p)
    ensures Execs(p, st, bus, n).pos == Positions(p.pos, seq(n, i => st.rendering && !st.noSkip))
  {
    hide Exec, NextDot;
    if n > 0 {
      var skips := seq(n, i => st.rendering && !st.noSkip);
      assert skips[..n - 1] == seq(n - 1, i => st.rendering && !st.noSkip);
      ExecsPositions(p, st, bus, n - 1);
      ExecPosition(Execs(p, st, bus, n - 1), st, bus);
    }
  }

  /** The dots of a CPU cycle: two see the settings from before it, the third those that its bus access leaves. */
  function CycleSkips(before: Settings, third: Settings): (skips: seq<bool>)
    ensures |skips| == 3
  {
    var skip := before.rendering && !before.noSkip;
    [skip, skip, third.rendering && !third.noSkip]
  }

  lemma CyclePositions(p: Ppu, before: Settings, third: Settings, bus: Bus)
    requires PpuOk(p)
    ensures Execs(Execs(p, before, bus, 2), third, bus, 1).pos == Positions(p.pos, CycleSkips(before, third))
  {
    hide Exec, NextDot;
    ExecsPositions(p, before, bus, 2);
    ExecsPositions(Execs(p, before, bus, 2), third, bus, 1);
    var first := seq(2, i => before.rendering && !before.noSkip);
    var second := seq(1, i => third.rendering && !third.noSkip);
    PositionsSum(p.pos, first, second);
    assert first + second == CycleSkips(before, third);
  }
}
