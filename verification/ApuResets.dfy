/** A reset and the lazy APU: the cycles that have not been run when it comes are never run. */
module ApuResets {
  import opened ApuChannels
  import opened ApuLogs
  import opened ApuModel
  import opened LazyApu
  import opened Types

  // ---- when a reset keeps lazy and eager in agreement ----

  predicate SameSent(c: Channels, d: Channels) {
    && c.sq1.timer.out == d.sq1.timer.out && c.sq2.timer.out == d.sq2.timer.out && c.tri.timer.out == d.tri.timer.out
    && c.noi.timer.out == d.noi.timer.out && c.dmc.timer.out == d.dmc.timer.out
  }

  /** Equal in all that a reset keeps, what was sent apart. */
  predicate SameKept(a: Apu, b: Apu) {
    && a.ch.tri.gen.len == b.ch.tri.gen.len && a.fc.mode == b.fc.mode && a.fc.irqLine == b.fc.irqLine
    && a.ch.sq1.gen.first == b.ch.sq1.gen.first && a.ch.sq2.gen.first == b.ch.sq2.gen.first
    && a.ch.dmc.gen.core.irqLine == b.ch.dmc.gen.core.irqLine && a.ch.dmc.gen.core.calls == b.ch.dmc.gen.core.calls
    && a.ch.dmc.gen.core.sampleAddr == b.ch.dmc.gen.core.sampleAddr
    && a.ch.dmc.gen.core.sampleLength == b.ch.dmc.gen.core.sampleLength && a.frames == b.frames
  }

  lemma QuietRunKept(l: Apu)
    requires LazyInv(l)
    ensures SameKept(Run(l), l)
  {
    if l.prev < l.cur {
      QuietRun(l);
      DrainKeepsLengths(l.ch, l.prev, l.cur);
      IdleDrainSilent(l.ch.dmc, l.cur);
      SquareKeepsFirst(l.ch.sq1, l.cur);
      SquareKeepsFirst(l.ch.sq2, l.cur);
    }
  }

  lemma {:induction false} SquareKeepsFirst(c: Channel<Square>, target: nat)
    requires c.timer.prev <= target
    ensures RunTo(c, SquareTick, target).gen.first == c.gen.first
    decreases target - c.timer.prev
  {
    if target - c.timer.prev > c.timer.timer { SquareKeepsFirst(TickOnce(c, SquareTick), target); }
  }

  lemma ResetKeepsKept(a: Apu, b: Apu, soft: bool)
    requires SameKept(a, b)
    ensures Unflag(Reset(a, soft)) == Unflag(Reset(b, soft)) <==> SameSent(a.ch, b.ch)
  {
    hide SweepTarget;
  }

  lemma ResetLazyInv(l: Apu, soft: bool)
    requires FlagsOk(l)
    ensures LazyInv(Reset(l, soft))
  {}

  lemma UnflaggedSends(a: Apu, b: Apu)
    requires Unflag(a) == Unflag(b)
    ensures SameSent(a.ch, b.ch)
  {
    assert Unflag(a).ch == Unflag(b).ch;
  }

  lemma UnflaggedKept(a: Apu, b: Apu)
    requires Unflag(a) == Unflag(b)
    ensures SameKept(a, b)
  {}

  /** In the cycles not run yet no channel's timer expires to a level other than its last: the mixer is owed nothing. */
  predicate NothingOwed(s: Apu)
    requires s.prev <= s.cur
  {
    var cycles := s.cur - s.prev;
    && Silent(s.ch.sq1, SquareTick, cycles) && Silent(s.ch.sq2, SquareTick, cycles)
    && Silent(s.ch.tri, TriangleTick, cycles) && Silent(s.ch.noi, NoiseTick, cycles)
    && Silent(s.ch.dmc, DmcTick, cycles)
  }

  lemma DrainSends(c: Channels, from: nat, target: nat)
    requires At(c, from) && from <= target
    ensures SameSent(c, Drain(c, from, target)) <==>
              && Silent(c.sq1, SquareTick, target - from) && Silent(c.sq2, SquareTick, target - from)
              && Silent(c.tri, TriangleTick, target - from) && Silent(c.noi, NoiseTick, target - from)
              && Silent(c.dmc, DmcTick, target - from)
  {
    hide Silent, RunTo;
    DrainSilent(c.sq1, SquareTick, target);
    DrainSilent(c.sq2, SquareTick, target);
    DrainSilent(c.tri, TriangleTick, target);
    DrainSilent(c.noi, NoiseTick, target);
    DrainSilent(c.dmc, DmcTick, target);
  }

  lemma OwedIsUnsent(l: Apu)
    requires LazyInv(l)
    ensures NothingOwed(l) <==> SameSent(l.ch, Run(l).ch)
  {
    QuietRunOrNone(l);
    assert At(l.ch, l.prev) && l.prev <= l.cur;
    hide Silent, Quiet, Drain, Run, LazyInv, At, SameSent;
    DrainSends(l.ch, l.prev, l.cur);
  }

  lemma QuietRunOrNone(l: Apu)
    requires LazyInv(l)
    ensures Run(l).ch == Drain(l.ch, l.prev, l.cur)
  {
    hide Drain;
    if l.prev < l.cur { QuietRun(l); } else { DrainNowhere(l.ch, l.prev); }
  }

  /** A reset does not catch up first. It leaves the lazy APU and the one that runs every cycle in agreement exactly
      when the mixer is owed nothing. */
  lemma ResetRefinesExactlyWhen(l: Apu, e: Apu, soft: bool)
    requires Refines(l, e)
    ensures Refines(Reset(l, soft), Reset(e, soft)) <==> NothingOwed(l)
  {
    OwedIsUnsent(l);
    QuietRunKept(l);
    ResetLazyInv(l, soft);
    RunSynced(Reset(l, soft));
    assert SameSent(l.ch, Run(l).ch) == SameSent(l.ch, e.ch) by { UnflaggedSends(Run(l), e); }
    assert SameKept(l, e) by { UnflaggedKept(Run(l), e); }
    hide Run, LazyInv, Reset, SameKept, SameSent, Unflag, NothingOwed;
    ResetKeepsKept(l, e, soft);
  }

  // ---- whole runs ----

  /** No reset of the run finds the mixer owed anything. */
  predicate CleanResets(s: Apu, events: seq<Event>)
    requires InFrame(s)
    decreases events
  {
    events == [] || (
      && (events[0].ResetEvent? ==> NothingOwed(s))
      && CleanResets(Happen(s, events[0], true), events[1..]))
  }

  /** What is seen after each event: the value read, if any, and the CPU's view. */
  function EventTrace(s: Apu, events: seq<Event>, lazy: bool): seq<(ReadResult, CpuView)>
    requires InFrame(s)
    decreases events
  {
    if events == [] then []
    else
      var read := if events[0].Operate? then Step(s, events[0].op, lazy).1 else Nothing;
      var t := Happen(s, events[0], lazy);
      [(read, View(t))] + EventTrace(t, events[1..], lazy)
  }

  /** Then lazy equals eager through resets as well, at every step. */
  lemma {:induction false} EventsRefine(l: Apu, e: Apu, events: seq<Event>)
    requires Refines(l, e) && CleanResets(l, events)
    ensures Refines(RunEvents(l, events, true), RunEvents(e, events, false))
    ensures EventTrace(l, events, true) == EventTrace(e, events, false)
    decreases events
  {
    hide LazyInv, InFrame, Step, Reset, Unflag, NothingOwed, View;
    if events != [] {
      match events[0] {
        case Operate(op) => StepRefines(l, e, op);
        case ResetEvent(soft) => ResetRefinesExactlyWhen(l, e, soft);
      }
      var a, b := Happen(l, events[0], true), Happen(e, events[0], false);
      ViewsAgree(a, b);
      EventsRefine(a, b, events[1..]);
    }
  }

  // ---- a run in which a reset finds something owed ----

  lemma {:induction false} RunOpsAppend(s: Apu, a: seq<Op>, b: seq<Op>, lazy: bool)
    requires InFrame(s)
    ensures RunOps(s, a + b, lazy) == RunOps(RunOps(s, a, lazy), b, lazy)
    decreases a
  {
    hide InFrame, Step;
    if a == [] {
      assert a + b == b;
    } else {
      assert (a + b)[1..] == a[1..] + b;
      RunOpsAppend(Step(s, a[0], lazy).0, a[1..], b, lazy);
    }
  }

  /** The DMC plays nothing, and a disable delay of k clocks is left. */
  predicate DmcOff(d: Dmc, k: nat) {
    && d.core.bytes == 0 && d.core.startDelay == 0 && d.core.empty && !d.core.irqOn && d.core.disableDelay == k
    && (d.needRun <==> k > 0)
  }

  lemma {:induction false} DrainKeepsOff(c: Channel<Dmc>, target: nat, k: nat)
    requires c.timer.prev <= target && DmcOff(c.gen, k)
    ensures DmcOff(RunTo(c, DmcTick, target).gen, k)
    decreases target - c.timer.prev
  {
    if target - c.timer.prev > c.timer.timer { DrainKeepsOff(TickOnce(c, DmcTick), target, k); }
  }

  /** Both clocks stand at n, the frame counter at f, and the DMC has k clocks of a disable delay left. */
  predicate Standing(s: Apu, n: nat, f: FrameCounter, k: nat) {
    && InFrame(s) && s.prev == s.cur == n && s.enabled && s.fc == f && DmcOff(s.ch.dmc.gen, k)
  }

  function Reloaded(c: Channel<Square>): Channel<Square> { OnSquareLength(c, ReloadLength(c.gen.env.len)) }

  /** A clock while a $4017 write is pending: the lazy APU runs it. */
  lemma ClockRun(s: Apu, n: nat, f: FrameCounter, k: nat)
    requires Standing(s, n, f, k) && n < 9000 && f.newValue >= 0 && RunFrame(f, 1).tick == NoTick
    ensures var t := LazyClock(s);
            && Standing(t, n + 1, RunFrame(f, 1).fc, if k > 0 then k - 1 else 0)
            && !t.needToRun && AllSettled(GetLengths(t.ch))
            && t.ch.sq1 == RunTo(Reloaded(s.ch.sq1), SquareTick, n + 1)
  {
    hide RunTo, ReloadLength, DmcIrqPending, AllSettled, RunFrame;
    var q := ConsumeRequest(PollIfFlagged(Later(s)));
    assert DmcOff(q.ch.dmc.gen, if k > 0 then k - 1 else 0);
    assert LazyClock(s) == Run(q);
    var once := RunOnce(q);
    assert Run(once) == once;
    var c := ReloadLengths(q.ch);
    assert once.ch == Drain(c, n, n + 1);
    DrainKeepsOff(c.dmc, n + 1, if k > 0 then k - 1 else 0);
    DrainKeepsLengths(c, n, n + 1);
  }

  /** While no run is due, clocks only count. */
  lemma {:induction false} ClocksDeferred(s: Apu, n: nat)
    requires InFrame(s) && s.enabled && !s.needToRun && DmcOff(s.ch.dmc.gen, 0) && s.fc.newValue < 0 && s.fc.block == 0
    requires s.cur + n < 9000 && s.fc.pos + (s.cur - s.prev) + n < NextStep(s.fc) - 1
    ensures RunOps(s, seq(n, i => Clock), true) == s.(cur := s.cur + n)
    decreases n
  {
    hide NextStep;
    if n > 0 {
      var clocks := seq(n, i => Clock);
      assert clocks[0] == Clock && clocks[1..] == seq(n - 1, i => Clock);
      assert LazyClock(s) == Later(s);
      ClocksDeferred(Later(s), n - 1);
    }
  }

  /** Square 1 on, period 8, volume 15, with the length to be loaded. */
  const TONE := [WriteOp(0x4015, 1, false), WriteOp(0x4000, 0x3F, false), WriteOp(0x4002, 8, false),
                 WriteOp(0x4003, 0, false)]

  /** The register state that these writes lead to. */
  predicate ToneSet(c: Channel<Square>) {
    && c.timer.prev == 0 && c.timer.timer == 0 && c.timer.period == 17 && c.timer.last == 0
    && c.gen.duty == 0 && c.gen.dutyPos == 0 && c.gen.period == 8 && c.gen.target == 16
    && c.gen.env.constant && c.gen.env.volume == 15
    && c.gen.env.len == Length(true, true, false, 0, 10, 0)
  }

  /** A write to square 1 while both clocks stand at 0. */
  lemma SquareOneWritten(s: Apu, f: FrameCounter, addr: u16, value: u8)
    requires Standing(s, 0, f, 2) && 0x4000 <= addr < 0x4004
    ensures var t := Write(s, addr, value, false);
            Standing(t, 0, f, 2) && t.ch.sq1 == WriteSquare(s.ch.sq1, addr % 4, value)
  {
    hide WriteSquare;
    RunSynced(s);
  }

  lemma SquareOneEnabled(before: Apu)
    ensures var r := Reset(before, false); var a := Write(r, 0x4015, 1, false);
            && Standing(a, 0, ResetFrame(before.fc, false), 2)
            && a.ch.sq1 == OnSquareLength(r.ch.sq1, EnableLength(r.ch.sq1.gen.env.len, true))
  {
    hide SweepTarget;
    RunSynced(Reset(before, false));
  }

  lemma ToneWritten(before: Apu)
    ensures var s := RunOps(Reset(before, false), TONE, true);
            Standing(s, 0, ResetFrame(before.fc, false), 2) && ToneSet(s.ch.sq1)
  {
    hide Write, WriteSquare, ResetSquare, Standing, ToneSet, ResetFrame;
    var r, f := Reset(before, false), ResetFrame(before.fc, false);
    SquareOneEnabled(before);
    var a := Write(r, 0x4015, 1, false);
    SquareOneWritten(a, f, 0x4000, 0x3F);
    var b := Write(a, 0x4000, 0x3F, false);
    SquareOneWritten(b, f, 0x4002, 8);
    var c := Write(b, 0x4002, 8, false);
    SquareOneWritten(c, f, 0x4003, 0);
    ToneRegisters(before.ch.sq1, a.ch.sq1);
    hide Reset;
    FourOps(r, TONE, true);
  }

  lemma FourOps(s: Apu, ops: seq<Op>, lazy: bool)
    requires InFrame(s) && |ops| == 4
    ensures RunOps(s, ops, lazy)
         == Step(Step(Step(Step(s, ops[0], lazy).0, ops[1], lazy).0, ops[2], lazy).0, ops[3], lazy).0
  {
    hide InFrame, Step;
    var a := Step(s, ops[0], lazy).0;
    var b := Step(a, ops[1], lazy).0;
    var c := Step(b, ops[2], lazy).0;
    assert RunOps(c, ops[1..][1..][1..], lazy) == Step(c, ops[3], lazy).0;
    assert RunOps(b, ops[1..][1..], lazy) == RunOps(c, ops[1..][1..][1..], lazy);
    assert RunOps(a, ops[1..], lazy) == RunOps(b, ops[1..][1..], lazy);
  }

  lemma ToneRegisters(before: Channel<Square>, c: Channel<Square>)
    requires var r := ResetSquare(before, false); c == OnSquareLength(r, EnableLength(r.gen.env.len, true))
    ensures ToneSet(WriteSquare(WriteSquare(WriteSquare(c, 0, 0x3F), 2, 8), 3, 0))
  {}

  /** A pending write of 0 to $4017 is counted down early in the sequence, and then restarts it. */
  lemma ZeroCountedDown(f: FrameCounter)
    requires FrameOk(f) && f.pos < 100 && f.step == 0 && f.mode == 0 && f.block == 0 && f.newValue == 0
    ensures var r := RunFrame(f, 1);
            r.tick == NoTick && r.fc == if f.delay > 1 then f.(pos := f.pos + 1, delay := f.delay - 1)
                                        else f.(pos := 0, delay := -1, newValue := -1)
  {
    assert !Bit(0, 7);
  }

  /** The write of 0 to $4017 that a reset leaves behind arrives after three cycles. */
  lemma ResetWriteArrives(before: FrameCounter)
    ensures var f := ResetFrame(before, false);
            var g, h := f.(pos := 1, delay := 2), f.(pos := 2, delay := 1);
            && RunFrame(f, 1) == FrameRun(g, 1, NoTick) && RunFrame(g, 1) == FrameRun(h, 1, NoTick)
            && RunFrame(h, 1) == FrameRun(f.(delay := -1, newValue := -1), 1, NoTick)
  {
    var f := ResetFrame(before, false);
    var g, h := f.(pos := 1, delay := 2), f.(pos := 2, delay := 1);
    hide RunFrame;
    ZeroCountedDown(f);
    ZeroCountedDown(g);
    ZeroCountedDown(h);
  }

  /** At the first cycle the square goes up to 15; at cycle 3 its timer has 15 cycles to go, and then it goes down. */
  lemma ToneClocked(c: Channel<Square>)
    requires ToneSet(c)
    ensures var d := RunTo(Reloaded(c), SquareTick, 1);
            var e := RunTo(Reloaded(RunTo(Reloaded(d), SquareTick, 2)), SquareTick, 3);
            && e.timer == Timer(3, 15, 17, 15, c.timer.out + [Delta(1, 15)])
            && SquareTick(e.gen).1 == Some(0)
  {
    var r := Reloaded(c);
    assert Muted(r.gen) == false && Volume(r.gen.env) == 15;
    var t := TickOnce(r, SquareTick);
    assert t.timer == Timer(1, 17, 17, 15, c.timer.out + [Delta(1, 15)]);
    assert RunTo(r, SquareTick, 1) == t;
    assert Reloaded(t) == t;
    var u := t.(timer := Timer(2, 16, 17, 15, t.timer.out));
    assert RunTo(t, SquareTick, 2) == u && Reloaded(u) == u;
    var v := t.(timer := Timer(3, 15, 17, 15, t.timer.out));
    assert RunTo(u, SquareTick, 3) == v;
    assert v.gen.dutyPos == 7;
  }

  /** Sixteen cycles later it has gone down. */
  lemma ToneGoesDown(c: Channel<Square>, out: seq<Delta>)
    requires c.timer == Timer(3, 15, 17, 15, out) && SquareTick(c.gen).1 == Some(0)
    ensures RunTo(c, SquareTick, 19).timer.out == out + [Delta(19, -15)]
    ensures !Silent(c, SquareTick, 16)
  {
    var d := TickOnce(c, SquareTick);
    assert d.timer == Timer(19, 17, 17, 0, out + [Delta(19, -15)]);
    assert RunTo(d, SquareTick, 19).timer.out == d.timer.out;
    assert RunTo(c, SquareTick, 19) == RunTo(d, SquareTick, 19);
    DrainSilent(c, SquareTick, 19);
  }

  /** The run: a tone, three clocks that are run, and sixteen that are put off. */
  function ToneRun(): seq<Op> { TONE + [Clock, Clock, Clock] + seq(16, i => Clock) }

  lemma ThreeClocks(s: Apu)
    requires InFrame(s)
    ensures RunOps(s, [Clock, Clock, Clock], true) == LazyClock(LazyClock(LazyClock(s)))
  {
    hide LazyClock;
    var a, b := LazyClock(s), LazyClock(LazyClock(s));
    assert RunOps(b, [Clock], true) == LazyClock(b);
    assert [Clock, Clock][1..] == [Clock] && [Clock, Clock, Clock][1..] == [Clock, Clock];
    assert RunOps(a, [Clock, Clock], true) == RunOps(b, [Clock], true);
  }

  /** After the tone and three clocks. */
  predicate ToneOn(s: Apu, f: FrameCounter, out: seq<Delta>) {
    && Standing(s, 3, f.(delay := -1, newValue := -1), 0) && !s.needToRun
    && s.ch.sq1.timer == Timer(3, 15, 17, 15, out) && SquareTick(s.ch.sq1.gen).1 == Some(0)
  }

  lemma ToneRuns(s: Apu, before: FrameCounter)
    requires Standing(s, 0, ResetFrame(before, false), 2) && ToneSet(s.ch.sq1)
    ensures ToneOn(LazyClock(LazyClock(LazyClock(s))), ResetFrame(before, false), s.ch.sq1.timer.out + [Delta(1, 15)])
  {
    var f := ResetFrame(before, false);
    ResetWriteArrives(before);
    hide ResetFrame, RunTo, RunFrame, LazyClock, ToneSet, ReloadLength, SquareTick, DmcOff, AllSettled, FrameOk;
    var a := LazyClock(s);
    assert f.newValue >= 0 && f.(pos := 1, delay := 2).newValue >= 0 by { ResetIsPending(before); }
    ClockRun(s, 0, f, 2);
    ClockRun(a, 1, f.(pos := 1, delay := 2), 1);
    ClockRun(LazyClock(a), 2, f.(pos := 2, delay := 1), 0);
    ToneClocked(s.ch.sq1);
  }

  lemma ResetIsPending(before: FrameCounter)
    ensures ResetFrame(before, false).newValue == 0
  {}

  /** Then sixteen clocks are put off, and the change back to 0 is owed. */
  lemma ToneOwes(s: Apu, before: FrameCounter, out: seq<Delta>)
    requires ToneOn(s, ResetFrame(before, false), out)
    ensures InFrame(s)
    ensures var l := RunOps(s, seq(16, i => Clock), true);
            && l == s.(cur := 19) && l.prev == 3 && !NothingOwed(l)
            && RunTo(l.ch.sq1, SquareTick, 19).timer.out == l.ch.sq1.timer.out + [Delta(19, -15)]
  {
    hide RunTo, Silent, SquareTick, RunOps;
    ToneGoesDown(s.ch.sq1, out);
    ClocksDeferred(s, 16);
  }

  /** The lazy APU after the run is sixteen cycles behind, and owes the change back to 0. */
  lemma ToneOwed(before: Apu)
    ensures var l := RunOps(Reset(before, false), ToneRun(), true);
            && l.prev == 3 && l.cur == 19 && !NothingOwed(l)
            && RunTo(l.ch.sq1, SquareTick, 19).timer.out == l.ch.sq1.timer.out + [Delta(19, -15)]
  {
    hide Reset, ResetFrame, RunTo, LazyClock, Standing, ToneSet, ToneOn, NothingOwed, SquareTick, RunOps, InFrame;
    var r, clocks := Reset(before, false), seq(16, i => Clock);
    RunOpsAppend(r, TONE + [Clock, Clock, Clock], clocks, true);
    RunOpsAppend(r, TONE, [Clock, Clock, Clock], true);
    ToneWritten(before);
    var s := RunOps(r, TONE, true);
    ThreeClocks(s);
    ToneRuns(s, before.fc);
    ToneOwes(LazyClock(LazyClock(LazyClock(s))), before.fc, s.ch.sq1.timer.out + [Delta(1, 15)]);
  }

  /** After that run the eager APU has sent a delta that the lazy one has not; a reset, and the lazy one never will. */
  lemma LateResetDropsDelta(before: Apu, soft: bool)
    ensures var r := Reset(before, false);
            var l, e := RunOps(r, ToneRun(), true), RunOps(r, ToneRun(), false);
            && Refines(l, e) && e.ch.sq1.timer.out == l.ch.sq1.timer.out + [Delta(19, -15)]
            && !Refines(Reset(l, soft), Reset(e, soft))
  {
    var r := Reset(before, false);
    assert Refines(r, r) by { RunSynced(r); }
    RunsRefine(r, r, ToneRun());
    var l, e := RunOps(r, ToneRun(), true), RunOps(r, ToneRun(), false);
    QuietRunOrNone(l);
    ToneOwed(before);
    assert SameSent(Run(l).ch, e.ch) by { UnflaggedSends(Run(l), e); }
    hide Reset, Refines, RunOps, ToneRun, Run, NothingOwed;
    ResetRefinesExactlyWhen(l, e, soft);
  }
}
