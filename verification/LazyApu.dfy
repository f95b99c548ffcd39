/** The lazy APU refines the APU that runs on every CPU cycle. */
module LazyApu {
  import opened Types
  import opened ApuChannels
  import opened ApuModel

  // ---- the two run-request flags, which only decide when to run ----

  function UnflagChannels(c: Channels): Channels { c.(dmc := Unflagged(c.dmc)) }

  function Unflag(s: Apu): Apu { s.(needToRun := false, ch := UnflagChannels(s.ch)) }

  lemma DrainIgnoresFlag(c: Channels, d: Channels, from: nat, target: nat)
    requires At(c, from) && from <= target && UnflagChannels(c) == UnflagChannels(d)
    ensures At(d, from) && UnflagChannels(Drain(c, from, target)) == UnflagChannels(Drain(d, from, target))
  {
    FlagIrrelevant(c.dmc, d.dmc, target);
  }

  lemma TicksIgnoreFlag(c: Channels, d: Channels, tick: FrameType)
    requires UnflagChannels(c) == UnflagChannels(d)
    ensures UnflagChannels(ReloadLengths(FrameTick(c, tick))) == UnflagChannels(ReloadLengths(FrameTick(d, tick)))
  {
    assert d == c.(dmc := d.dmc);
  }

  lemma {:induction false} RunIgnoresFlags(a: Apu, b: Apu)
    requires Valid(a) && Unflag(a) == Unflag(b)
    ensures Valid(b) && Unflag(Run(a)) == Unflag(Run(b))
    decreases a.cur - a.prev
  {
    hide RunFrame, FrameTick, ReloadLengths, Drain;
    if a.prev < a.cur {
      var r := RunFrame(a.fc, a.cur - a.prev);
      TicksIgnoreFlag(a.ch, b.ch, r.tick);
      DrainIgnoresFlag(ReloadLengths(FrameTick(a.ch, r.tick)), ReloadLengths(FrameTick(b.ch, r.tick)),
                       a.prev, a.prev + r.ran);
      RunIgnoresFlags(RunOnce(a), RunOnce(b));
    }
  }

  lemma PollIgnoresFlags(a: Apu, b: Apu)
    requires Unflag(a) == Unflag(b)
    ensures Unflag(Poll(a)) == Unflag(Poll(b))
  {
    assert b.ch.dmc.gen.core == a.ch.dmc.gen.core;
  }

  // ---- run() on quiet states ----

  /** Nothing is due before the frame counter has advanced by more than `lag` cycles. */
  predicate Quiet(s: Apu, lag: nat) {
    && s.fc.newValue < 0 && s.fc.block == 0 && s.fc.pos + lag < NextStep(s.fc)
    && AllSettled(GetLengths(s.ch)) && Idle(s.ch.dmc.gen.core)
  }

  lemma DrainNowhere(c: Channels, at: nat)
    requires At(c, at)
    ensures Drain(c, at, at) == c
  {}

  /** One batch: the sequencer advances and the channels drain, but nothing ticks. */
  function Batch(s: Apu): Apu
    requires At(s.ch, s.prev) && s.prev <= s.cur
  {
    s.(prev := s.cur, fc := s.fc.(pos := s.fc.pos + (s.cur - s.prev)), ch := Drain(s.ch, s.prev, s.cur))
  }

  /** A quiet catch-up is one batch. */
  lemma QuietRun(s: Apu)
    requires Valid(s) && Quiet(s, s.cur - s.prev)
    ensures Run(s) == Batch(s)
  {
    hide Drain, ReloadLengths, TickSweep;
    DrainNowhere(s.ch, s.prev);
    if s.prev < s.cur {
      var r := RunFrame(s.fc, s.cur - s.prev);
      assert r.tick == NoTick && r.ran == s.cur - s.prev;
      assert ReloadLengths(FrameTick(s.ch, NoTick)) == s.ch;
      assert Run(RunOnce(s)) == RunOnce(s);
    }
  }

  lemma {:induction false} SquareKeepsEnvelope(c: Channel<Square>, target: nat)
    requires c.timer.prev <= target
    ensures RunTo(c, SquareTick, target).gen.env == c.gen.env
    decreases target - c.timer.prev
  {
    if target - c.timer.prev > c.timer.timer { SquareKeepsEnvelope(TickOnce(c, SquareTick), target); }
  }

  lemma {:induction false} TriangleKeepsLength(c: Channel<Triangle>, target: nat)
    requires c.timer.prev <= target
    ensures RunTo(c, TriangleTick, target).gen.len == c.gen.len
    decreases target - c.timer.prev
  {
    if target - c.timer.prev > c.timer.timer { TriangleKeepsLength(TickOnce(c, TriangleTick), target); }
  }

  lemma {:induction false} NoiseKeepsEnvelope(c: Channel<Noise>, target: nat)
    requires c.timer.prev <= target
    ensures RunTo(c, NoiseTick, target).gen.env == c.gen.env
    decreases target - c.timer.prev
  {
    if target - c.timer.prev > c.timer.timer { NoiseKeepsEnvelope(TickOnce(c, NoiseTick), target); }
  }

  /** Draining the channels changes no length counter. */
  lemma DrainKeepsLengths(c: Channels, from: nat, target: nat)
    requires At(c, from) && from <= target
    ensures GetLengths(Drain(c, from, target)) == GetLengths(c)
  {
    SquareKeepsEnvelope(c.sq1, target);
    SquareKeepsEnvelope(c.sq2, target);
    TriangleKeepsLength(c.tri, target);
    NoiseKeepsEnvelope(c.noi, target);
  }

  lemma DrainKeepsIdle(c: Channels, from: nat, target: nat)
    requires At(c, from) && from <= target
    ensures Idle(Drain(c, from, target).dmc.gen.core) == Idle(c.dmc.gen.core)
    ensures c.dmc.gen.needRun ==> Drain(c, from, target).dmc.gen.needRun
  {
    DrainKeepsDelays(c.dmc, target);
  }

  lemma DrainSplits(c: Channels, from: nat, a: nat, b: nat)
    requires At(c, from) && from <= a <= b
    ensures Drain(Drain(c, from, a), a, b) == Drain(c, from, b)
  {
    RunToSplits(c.sq1, SquareTick, a, b);
    RunToSplits(c.sq2, SquareTick, a, b);
    RunToSplits(c.tri, TriangleTick, a, b);
    RunToSplits(c.noi, NoiseTick, a, b);
    RunToSplits(c.dmc, DmcTick, a, b);
  }

  function Later(s: Apu): Apu { s.(cur := s.cur + 1) }

  lemma BatchSplits(s: Apu)
    requires At(s.ch, s.prev) && s.prev <= s.cur
    ensures At(Batch(s).ch, s.cur) && Batch(Later(s)) == Batch(Later(Batch(s)))
  {
    hide Drain, At;
    DrainSplits(s.ch, s.prev, s.cur, s.cur + 1);
  }

  lemma BatchStaysQuiet(s: Apu)
    requires InFrame(s) && Quiet(s, s.cur - s.prev + 1)
    ensures Quiet(Batch(s), 1) && InFrame(Batch(s))
  {
    hide Drain, GetLengths, Idle, AllSettled;
    DrainKeepsIdle(s.ch, s.prev, s.cur);
    DrainKeepsLengths(s.ch, s.prev, s.cur);
  }

  /** Running after every cycle or only at the end of a quiet stretch comes to the same. */
  lemma QuietRunSplits(s: Apu)
    requires InFrame(s) && Quiet(s, s.cur - s.prev + 1)
    ensures Quiet(Run(s), 1) && Run(Later(s)) == Run(Later(Run(s)))
  {
    hide Run, Batch, GetLengths, Idle, At, AllSettled;
    QuietRun(s);
    BatchStaysQuiet(s);
    BatchSplits(s);
    QuietRun(Later(Batch(s)));
    QuietRun(Later(s));
  }

  /** After a run that had something to do, every length counter is settled. */
  lemma {:induction false} RunSettles(s: Apu)
    requires Valid(s) && s.prev < s.cur
    ensures AllSettled(GetLengths(Run(s).ch))
    decreases s.cur - s.prev
  {
    hide RunFrame, FrameTick, ReloadLengths, GetLengths, AllSettled, Drain;
    var r := RunFrame(s.fc, s.cur - s.prev);
    DrainKeepsLengths(ReloadLengths(FrameTick(s.ch, r.tick)), s.prev, s.prev + r.ran);
    if s.prev + r.ran < s.cur { RunSettles(RunOnce(s)); }
  }

  lemma {:induction false} RunKeepsDelays(s: Apu)
    requires Valid(s)
    ensures Idle(Run(s).ch.dmc.gen.core) <==> Idle(s.ch.dmc.gen.core)
    ensures s.ch.dmc.gen.needRun ==> Run(s).ch.dmc.gen.needRun
    ensures Run(s).needToRun == s.needToRun && Run(s).enabled == s.enabled
    decreases s.cur - s.prev
  {
    hide RunFrame, FrameTick, ReloadLengths, Drain, Idle;
    if s.prev < s.cur {
      var r := RunFrame(s.fc, s.cur - s.prev);
      DrainKeepsIdle(ReloadLengths(FrameTick(s.ch, r.tick)), s.prev, s.prev + r.ran);
      RunKeepsDelays(RunOnce(s));
    }
  }

  // ---- the simulation ----

  /** A flag that is down promises that there is nothing to do. */
  predicate FlagsOk(s: Apu) {
    (!s.ch.dmc.gen.needRun ==> Idle(s.ch.dmc.gen.core)) && (!s.needToRun ==> AllSettled(GetLengths(s.ch)))
  }

  /** The invariant of the lazy APU: whenever it has fallen behind, nothing was due in the meantime. */
  predicate LazyInv(s: Apu)
    ensures LazyInv(s) ==> InFrame(s)
  {
    InFrame(s) && FlagsOk(s) && (s.prev < s.cur ==> Quiet(s, s.cur - s.prev + 1))
  }

  /** Once synced, the lazy APU is the eager one, run-request flags apart. The eager one is never behind. */
  predicate Refines(l: Apu, e: Apu) {
    LazyInv(l) && InFrame(e) && e.prev == e.cur && Unflag(Run(l)) == Unflag(e)
  }

  /** run() leaves nothing deferred behind. */
  lemma RunFlagsOk(s: Apu)
    requires Valid(s) && (!s.ch.dmc.gen.needRun ==> Idle(s.ch.dmc.gen.core))
    requires s.prev == s.cur && !s.needToRun ==> AllSettled(GetLengths(s.ch))
    ensures FlagsOk(Run(s))
  {
    hide GetLengths, AllSettled, Idle, FrameOk, At;
    RunKeepsDelays(s);
    if s.prev < s.cur { RunSettles(s); }
  }

  lemma RunSynced(s: Apu)
    requires Valid(s) && s.prev == s.cur
    ensures Run(s) == s
  {}

  lemma IdlePoll(s: Apu)
    requires Idle(s.ch.dmc.gen.core)
    ensures Unflag(Poll(s)) == Unflag(s)
  {}

  /** After the next clock both APUs agree, whether or not the lazy one polls the idle DMC. */
  lemma ClockAligned(l: Apu, e: Apu)
    requires Refines(l, e)
    ensures Unflag(Run(Poll(Later(l)))) == Unflag(Run(Poll(Later(e))))
    ensures Idle(l.ch.dmc.gen.core) ==> Unflag(Run(Later(l))) == Unflag(Run(Poll(Later(l))))
  {
    hide GetLengths, AllSettled, Idle, FrameOk, Run, NextStep;
    if Idle(l.ch.dmc.gen.core) {
      IdlePoll(Later(l));
      RunIgnoresFlags(Later(l), Poll(Later(l)));
    }
    if l.prev < l.cur {
      QuietRunSplits(l);
      RunKeepsDelays(l);
      assert Unflag(Later(Run(l))) == Unflag(Later(e));
      IdlePoll(Later(e));
      RunIgnoresFlags(Later(e), Poll(Later(e)));
      RunIgnoresFlags(Later(Run(l)), Later(e));
    } else {
      RunSynced(l);
      PollIgnoresFlags(Later(l), Later(e));
      RunIgnoresFlags(Poll(Later(l)), Poll(Later(e)));
    }
  }

  lemma FlushIgnoresFlags(a: Apu, b: Apu)
    requires Unflag(a) == Unflag(b)
    ensures Unflag(Flush(a)) == Unflag(Flush(b))
  {}

  lemma FlushFlagsOk(s: Apu)
    requires FlagsOk(s)
    ensures FlagsOk(Flush(s))
  {}

  lemma PollKeepsLengths(s: Apu)
    ensures GetLengths(Poll(s).ch) == GetLengths(s.ch)
  {}

  lemma EndFrameRefines(l: Apu, e: Apu)
    requires Valid(l) && Valid(e) && Unflag(Run(Poll(l))) == Unflag(Run(Poll(e)))
    requires l.prev == l.cur && !l.needToRun ==> AllSettled(GetLengths(l.ch))
    ensures Refines(EndFrame(l), EndFrame(e))
  {
    hide GetLengths, AllSettled, Idle, FrameOk, Run, Flush;
    PollKeepsLengths(l);
    RunFlagsOk(Poll(l));
    FlushFlagsOk(Run(Poll(l)));
    FlushIgnoresFlags(Run(Poll(l)), Run(Poll(e)));
    RunSynced(EndFrame(l));
  }

  lemma ClockRefines(l: Apu, e: Apu)
    requires Refines(l, e)
    ensures Refines(LazyClock(l), EagerClock(e))
  {
    hide GetLengths, AllSettled, FrameOk, Run, EndFrame, DmcIrqPending;
    RunKeepsDelays(l);
    if l.enabled {
      var c := Later(l);
      ClockAligned(l, e);
      if c.cur == CYCLE_LENGTH - 1 {
        EndFrameRefines(c, Later(e));
      } else {
        var q := PollIfFlagged(c);
        PollKeepsLengths(c);
        assert Unflag(Run(q)) == Unflag(Run(Poll(Later(e))));
        RunIgnoresFlags(ConsumeRequest(q), q);
        if RunDue(q) {
          RunFlagsOk(ConsumeRequest(q));
          RunSynced(Run(ConsumeRequest(q)));
        }
      }
    }
  }

  // ---- bus accesses ----

  lemma ChannelWriteIgnoresFlag(c: Channels, d: Channels, addr: u16, value: u8)
    requires IsChannelRegister(addr) && UnflagChannels(c) == UnflagChannels(d)
    ensures UnflagChannels(WriteChannel(c, addr, value)) == UnflagChannels(WriteChannel(d, addr, value))
  {
    hide AddOutput, WriteSquare, WriteTriangle, WriteNoise, Bit;
  }

  lemma EnableIgnoresFlag(c: Channels, d: Channels, value: u8, odd: bool)
    requires UnflagChannels(c) == UnflagChannels(d)
    ensures UnflagChannels(Enable(c, value, odd)) == UnflagChannels(Enable(d, value, odd))
  {
    hide EnableLength, Bit;
  }

  lemma EnableFlagsOk(s: Apu, value: u8, odd: bool)
    requires FlagsOk(s)
    ensures FlagsOk(s.(ch := Enable(s.ch, value, odd)))
  {
    hide Bit;
  }

  lemma SquareWriteSettled(c: Channel<Square>, reg: u2, value: u8)
    requires Settled(c.gen.env.len) && reg != 0 && (reg == 3 ==> !c.gen.env.len.enabled)
    ensures Settled(WriteSquare(c, reg, value).gen.env.len)
  {
    hide AddOutput, SquareLevel, SweepTarget, Bit;
  }

  lemma ChannelWriteFlagsOk(s: Apu, addr: u16, value: u8)
    requires FlagsOk(s) && IsChannelRegister(addr)
    ensures FlagsOk(s.(ch := WriteChannel(s.ch, addr, value),
                       needToRun := s.needToRun || RequestsRun(GetLengths(s.ch), addr)))
  {
    hide AddOutput, WriteSquare, Bit;
    if !s.needToRun && !RequestsRun(GetLengths(s.ch), addr) {
      if addr < 0x4004 { SquareWriteSettled(s.ch.sq1, addr % 4, value); }
      else if addr < 0x4008 { SquareWriteSettled(s.ch.sq2, addr % 4, value); }
    }
  }

  lemma WriteRefines(l: Apu, e: Apu, addr: u16, value: u8, odd: bool)
    requires Refines(l, e)
    ensures Refines(Write(l, addr, value, odd), Write(e, addr, value, odd))
  {
    hide GetLengths, AllSettled, Idle, NextStep, Run, Enable, WriteChannel, Bit;
    var r := Run(l);
    RunFlagsOk(l);
    RunSynced(e);
    if addr == 0x4015 {
      EnableIgnoresFlag(r.ch, e.ch, value, odd);
      EnableFlagsOk(r, value, odd);
      RunSynced(Write(l, addr, value, odd));
    } else if addr == 0x4017 {
      RunSynced(Write(l, addr, value, odd));
    } else if IsChannelRegister(addr) {
      ChannelWriteIgnoresFlag(r.ch, e.ch, addr, value);
      ChannelWriteFlagsOk(r, addr, value);
      RunSynced(Write(l, addr, value, odd));
    }
  }

  /** A read catches up, returns the same and leaves both APUs the same. */
  lemma ReadRefines(l: Apu, e: Apu, addr: u16)
    requires Refines(l, e)
    ensures Refines(Read(l, addr).0, Read(e, addr).0) && Read(l, addr).1 == Read(e, addr).1
  {
    hide GetLengths, AllSettled, Idle, NextStep, Run;
    RunFlagsOk(l);
    RunSynced(e);
    RunSynced(Read(l, addr).0);
    assert UnflagChannels(Run(l).ch) == UnflagChannels(e.ch);
    ObserveIgnoresFlags(Run(l), e, addr);
  }

  lemma ObserveIgnoresFlags(a: Apu, b: Apu, addr: u16)
    requires Unflag(a) == Unflag(b)
    ensures Observe(a, addr) == Observe(b, addr)
  {}

  /** A sample byte can only arrive while the DMC is busy, and then the lazy APU is not behind. */
  lemma RefillRefines(l: Apu, e: Apu, value: u8)
    requires Refines(l, e)
    ensures Refines(RefillDmc(l, value), RefillDmc(e, value))
  {
    hide NextStep, TakeSample, Settled, Run;
    RunKeepsDelays(l);
    if l.prev == l.cur {
      RunSynced(l);
      RunSynced(RefillDmc(l, value));
    }
  }

  // ---- what the rest of the machine sees between syncs ----

  /** Interrupt lines, DMA requests, the address that the DMA fetches the next sample byte from, and the frames handed
      to the mixer. */
  datatype CpuView = CpuView(frameIrq: bool, dmcIrq: bool, calls: seq<DmcCall>, sampleAt: u16, frames: seq<AudioFrame>)

  function View(s: Apu): CpuView {
    var d := s.ch.dmc.gen.core;
    CpuView(s.fc.irqLine, d.irqLine, d.calls, d.addr, s.frames)
  }

  /** With no sample playing, draining asks nothing of the CPU and leaves the sample where it is. */
  lemma {:induction false} IdleDrainSilent(c: Channel<Dmc>, target: nat)
    requires c.timer.prev <= target && c.gen.core.bytes == 0
    ensures var d, e := c.gen.core, RunTo(c, DmcTick, target).gen.core;
            && e.irqLine == d.irqLine && e.calls == d.calls && e.addr == d.addr
            && e.sampleAddr == d.sampleAddr && e.sampleLength == d.sampleLength
    decreases target - c.timer.prev
  {
    if target - c.timer.prev > c.timer.timer { IdleDrainSilent(TickOnce(c, DmcTick), target); }
  }

  /** The lazy APU has nothing to tell the CPU that it has not told already. */
  lemma ViewsAgree(l: Apu, e: Apu)
    requires Refines(l, e)
    ensures View(l) == View(e)
  {
    hide Run;
    if l.prev < l.cur {
      QuietRun(l);
      IdleDrainSilent(l.ch.dmc, l.cur);
    } else {
      RunSynced(l);
    }
    assert View(Run(l)) == View(Unflag(Run(l)));
  }

  // ---- whole runs ----

  datatype Op = Clock | WriteOp(addr: u16, value: u8, oddCycle: bool) | ReadOp(addr: u16) | RefillOp(value: u8)
              | EndFrameOp | SetStatus(on: bool)

  /** One operation on the APU; `lazy` selects which clock it has. The second result is what a read returns. */
  function Step(s: Apu, op: Op, lazy: bool): (t: (Apu, ReadResult))
    requires InFrame(s)
    ensures InFrame(t.0)
  {
    match op
    case Clock => (if lazy then LazyClock(s) else EagerClock(s), Nothing)
    case WriteOp(addr, value, odd) => (Write(s, addr, value, odd), Nothing)
    case ReadOp(addr) => Read(s, addr)
    case RefillOp(value) => (RefillDmc(s, value), Nothing)
    case EndFrameOp => (EndFrame(s), Nothing)
    case SetStatus(on) => (s.(enabled := on), Nothing)
  }

  lemma StatusRefines(l: Apu, e: Apu, on: bool)
    requires Refines(l, e)
    ensures Refines(l.(enabled := on), e.(enabled := on))
  {
    RunIgnoresEnabled(l, on);
  }

  lemma {:induction false} RunIgnoresEnabled(s: Apu, on: bool)
    requires Valid(s)
    ensures Run(s.(enabled := on)) == Run(s).(enabled := on)
    decreases s.cur - s.prev
  {
    hide RunFrame, FrameTick, ReloadLengths, Drain;
    if s.prev < s.cur {
      assert RunOnce(s.(enabled := on)) == RunOnce(s).(enabled := on);
      RunIgnoresEnabled(RunOnce(s), on);
    }
  }

  lemma EndFrameOpRefines(l: Apu, e: Apu)
    requires Refines(l, e)
    ensures Refines(EndFrame(l), EndFrame(e))
  {
    hide GetLengths, AllSettled, Idle, FrameOk, Run, EndFrame, NextStep;
    RunSynced(e);
    if l.prev < l.cur {
      IdlePoll(l);
      RunKeepsDelays(l);
      IdlePoll(e);
      RunIgnoresFlags(l, Poll(l));
      RunIgnoresFlags(Poll(e), e);
    } else {
      RunSynced(l);
      PollIgnoresFlags(l, e);
      RunIgnoresFlags(Poll(l), Poll(e));
    }
    EndFrameRefines(l, e);
  }

  lemma StepRefines(l: Apu, e: Apu, op: Op)
    requires Refines(l, e)
    ensures Refines(Step(l, op, true).0, Step(e, op, false).0) && Step(l, op, true).1 == Step(e, op, false).1
  {
    hide LazyInv, LazyClock, EagerClock, Write, Read, RefillDmc, EndFrame, Run, Unflag;
    match op
    case Clock => ClockRefines(l, e);
    case WriteOp(addr, value, odd) => WriteRefines(l, e, addr, value, odd);
    case ReadOp(addr) => ReadRefines(l, e, addr);
    case RefillOp(value) => RefillRefines(l, e, value);
    case EndFrameOp => EndFrameOpRefines(l, e);
    case SetStatus(on) => StatusRefines(l, e, on);
  }

  function RunOps(s: Apu, ops: seq<Op>, lazy: bool): (t: Apu)
    requires InFrame(s)
    ensures InFrame(t)
    decreases ops
  {
    if ops == [] then s else RunOps(Step(s, ops[0], lazy).0, ops[1..], lazy)
  }

  /** What is seen after each operation: the value read and the CPU's view. */
  function Trace(s: Apu, ops: seq<Op>, lazy: bool): seq<(ReadResult, CpuView)>
    requires InFrame(s)
    decreases ops
  {
    if ops == [] then []
    else var (t, read) := Step(s, ops[0], lazy); [(read, View(t))] + Trace(t, ops[1..], lazy)
  }

  lemma {:induction false} RunsRefine(l: Apu, e: Apu, ops: seq<Op>)
    requires Refines(l, e)
    ensures Refines(RunOps(l, ops, true), RunOps(e, ops, false))
    ensures Trace(l, ops, true) == Trace(e, ops, false)
    decreases ops
  {
    hide LazyInv, InFrame, Unflag, Step, View;
    if ops != [] {
      StepRefines(l, e, ops[0]);
      var a, b := Step(l, ops[0], true).0, Step(e, ops[0], false).0;
      ViewsAgree(a, b);
      RunsRefine(a, b, ops[1..]);
    }
  }

  /** Lazy equals eager. Start from any reset (a soft one needs the flags to be honest, which every
      run keeps). For every interleaving of CPU clocks, bus accesses, DMC refills, ends of frame and
      enable changes, the APU that runs only when `need_to_run` says so returns the same reads and
      raises the same interrupts, DMA requests and audio frames in the same operation as the one that
      runs every cycle; and once synced all its state is the same. */
  lemma LazyEqualsEager(before: Apu, soft: bool, ops: seq<Op>)
    requires soft ==> FlagsOk(before)
    ensures var s := Reset(before, soft);
            && Trace(s, ops, true) == Trace(s, ops, false)
            && Unflag(Run(RunOps(s, ops, true))) == Unflag(RunOps(s, ops, false))
  {
    var s := Reset(before, soft);
    assert Refines(s, s) by { RunSynced(s); }
    RunsRefine(s, s, ops);
  }
}
