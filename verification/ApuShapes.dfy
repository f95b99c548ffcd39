/** Envelopes, the triangle's linear counter and the sweep units over whole runs, in numbers. */
module ApuShapes {
  import opened ApuBatches
  import opened ApuChannels
  import ApuLogs
  import opened ApuModel
  import opened ApuTicks
  import opened ApuUnits
  import opened Arithmetic
  import opened LazyApu
  import opened Types

  // ---- envelopes ----

  type Enveloped = k: Voice | k != 2

  function EnvelopeOf(u: Units, k: Enveloped): Envelope {
    if k == 0 then u.sq1.env else if k == 1 then u.sq2.env else u.noi
  }

  predicate DecayedTo(e: Envelope, steps: int, rest: int) {
    !e.start && e.divider == e.volume - rest && e.counter == if e.len.halt then 15 - steps % 16 else Minus(15, steps)
  }

  /** The envelope x ticks after the one that restarted it: a step down from 15 every volume + 1 ticks, to 0, or round
      and round in a loop. */
  predicate Decayed(e: Envelope, x: nat) { DecayedTo(e, x / (e.volume + 1), x % (e.volume + 1)) }

  lemma DecayTick(e: Envelope, steps: nat, rest: nat)
    requires DecayedTo(e, steps, rest) && rest <= e.volume
    ensures var f := TickEnvelope(e);
            && f.volume == e.volume
            && if rest == e.volume then DecayedTo(f, steps + 1, 0) else DecayedTo(f, steps, rest + 1)
  {}

  lemma DecayStep(e: Envelope, x: nat)
    requires Decayed(e, x)
    ensures Decayed(TickEnvelope(e), x + 1)
  {
    hide DecayedTo, TickEnvelope;
    NextQuotient(x, e.volume + 1);
    DecayTick(e, x / (e.volume + 1), x % (e.volume + 1));
  }

  lemma EnvelopeCycle(u: Units, tick: FrameType, k: Enveloped)
    ensures var e, d := EnvelopeOf(u, k), EnvelopeOf(TickUnits(u, tick), k);
            && d == (if tick == NoTick then e else TickEnvelope(e)).(len := d.len)
            && Settled(d.len) && d.len.halt == e.len.newHalt
  {
    hide TickEnvelope, TickSweep, TickLinear;
    LengthCycle(u, tick, k);
    if tick == Half { SquaresKeep(u); }
  }

  lemma SquaresKeep(u: Units)
    ensures TickSquare(u.sq1, Half).env == TickEnvelope(u.sq1.env).(len := TickSquare(u.sq1, Half).env.len)
    ensures TickSquare(u.sq2, Half).env == TickEnvelope(u.sq2.env).(len := TickSquare(u.sq2, Half).env.len)
  {
    hide TickEnvelope, TickLength, TickSweep;
    SweepKeeps(Pass(u.sq1.(env := TickEnvelope(u.sq1.env).(len := TickLength(TickEnvelope(u.sq1.env).len)))));
    SweepKeeps(Pass(u.sq2.(env := TickEnvelope(u.sq2.env).(len := TickLength(TickEnvelope(u.sq2.env).len)))));
  }

  lemma DecayCycle(u: Units, tick: FrameType, k: Enveloped, x: nat)
    requires Settled(EnvelopeOf(u, k).len) && Decayed(EnvelopeOf(u, k), x)
    ensures var e, d := EnvelopeOf(u, k), EnvelopeOf(TickUnits(u, tick), k);
            && Decayed(d, x + if tick == NoTick then 0 else 1) && Settled(d.len) && d.len.halt == e.len.halt
            && d.volume == e.volume && d.constant == e.constant
  {
    hide TickUnits, EnvelopeOf;
    EnvelopeCycle(u, tick, k);
    DecayStep(EnvelopeOf(u, k), x);
  }

  lemma {:induction false} DecaysOn(u: Units, f: FrameCounter, n: nat, k: Enveloped, x: nat)
    requires Orderly(f) && Settled(EnvelopeOf(u, k).len) && Decayed(EnvelopeOf(u, k), x)
    ensures var e, d := EnvelopeOf(u, k), EnvelopeOf(UnitsAfter(u, f, n), k);
            && Decayed(d, x + |Singly(f, n).1|) && d.volume == e.volume && d.constant == e.constant
            && d.len.halt == e.len.halt
    decreases n
  {
    hide RunFrame, TickUnits, Orderly, EnvelopeOf, Decayed;
    StepNumbers(f);
    if n > 0 {
      RunFrameOrderly(f, 1);
      var r := RunFrame(f, 1);
      DecayCycle(u, r.tick, k, x);
      DecaysOn(TickUnits(u, r.tick), r.fc, n - 1, k, x + if r.tick == NoTick then 0 else 1);
    }
  }

  /** A restarted envelope waits for the next tick, and decays from there. */
  lemma {:induction false} EnvelopeRestarts(u: Units, f: FrameCounter, n: nat, k: Enveloped)
    requires Orderly(f) && EnvelopeOf(u, k).start
    ensures var e, d, ticks := EnvelopeOf(u, k), EnvelopeOf(UnitsAfter(u, f, n), k), |Singly(f, n).1|;
            && d.volume == e.volume && d.constant == e.constant
            && if ticks == 0 then d.start && d.counter == e.counter
               else Decayed(d, ticks - 1) && d.len.halt == e.len.newHalt
    decreases n
  {
    hide RunFrame, TickUnits, Orderly, EnvelopeOf, Decayed;
    StepNumbers(f);
    if n > 0 {
      RunFrameOrderly(f, 1);
      var r := RunFrame(f, 1);
      var v := TickUnits(u, r.tick);
      EnvelopeCycle(u, r.tick, k);
      if r.tick == NoTick {
        EnvelopeRestarts(v, r.fc, n - 1, k);
      } else {
        StartDecays(EnvelopeOf(v, k), EnvelopeOf(u, k));
        DecaysOn(v, r.fc, n - 1, k, 0);
      }
    }
  }

  lemma StartDecays(d: Envelope, e: Envelope)
    requires e.start && d == TickEnvelope(e).(len := d.len)
    ensures Decayed(d, 0) && d.volume == e.volume && d.constant == e.constant
  {
    DivideUnique(0, e.volume + 1, 0, 0);
  }

  // ---- the linear counter ----

  /** The flag set by a write to $400B reloads the counter at the next tick, and at every tick under the control bit;
      otherwise ticks count it down to 0. */
  lemma {:induction false} LinearCounts(u: Units, f: FrameCounter, n: nat)
    requires Orderly(f)
    ensures var t, v, ticks := u.tri, UnitsAfter(u, f, n).tri, |Singly(f, n).1|;
            && v.linear == (if ticks == 0 then t.linear
                            else if !t.reloadFlag then Minus(t.linear, ticks)
                            else if t.control then t.linearReload else Minus(t.linearReload, ticks - 1))
            && v.reloadFlag == (t.reloadFlag && (t.control || ticks == 0))
            && v.control == t.control && v.linearReload == t.linearReload
    decreases n
  {
    hide RunFrame, Orderly, TickSquare, TickEnvelope;
    StepNumbers(f);
    if n > 0 {
      RunFrameOrderly(f, 1);
      var r := RunFrame(f, 1);
      LinearCounts(TickUnits(u, r.tick), r.fc, n - 1);
    }
  }

  // ---- the sweep units ----

  function SquareOf(u: Units, first: bool): Square { if first then u.sq1 else u.sq2 }

  function Shifted(period: u11, shift: u3): (r: int)
    ensures 0 <= r <= period && (shift > 0 ==> 2 * r <= period)
  {
    period / if shift == 0 then 1 else if shift == 1 then 2 else if shift == 2 then 4 else if shift == 3 then 8
             else if shift == 4 then 16 else if shift == 5 then 32 else if shift == 6 then 64 else 128
  }

  /** Where a sweep would take the period: a shifted copy is added, or subtracted, by square 1 in ones' complement. */
  function Bent(s: Square): int {
    var change := Shifted(s.period, s.shift);
    if !s.negate then s.period + change else if s.first then s.period - change - 1 else s.period - change
  }

  /** The target that the channel keeps, which mutes it when too high, is that, in 32 bits. */
  predicate Honest(s: Square) { s.target == Bent(s) % 0x1_0000_0000 }

  /** The period after a sweep that is due. */
  function SweptPeriod(s: Square): int {
    if s.sweepOn && s.shift > 0 && s.period >= 8 && Bent(s) < 0x800 then Bent(s) else s.period
  }

  function Wait(s: Square): nat { if s.divider == 0 then 256 else s.divider }

  /** t is s after h half frames, which do not go past the next sweep. */
  predicate SweptBy(s: Square, t: Square, h: nat)
    requires h <= Wait(s)
  {
    && !t.reloadSweep && t.sweepPeriod == s.sweepPeriod
    && t.period == (if h == Wait(s) then SweptPeriod(s) else s.period)
    && t.divider == (if h == Wait(s) then s.sweepPeriod else (s.divider - h) % 256)
    && (h < Wait(s) ==> SweptPeriod(t) == SweptPeriod(s))
  }

  lemma SweepCycle(u: Units, tick: FrameType, first: bool)
    requires Honest(SquareOf(u, first))
    ensures var s, t := SquareOf(u, first), SquareOf(TickUnits(u, tick), first);
            && Honest(t) && t.sweepPeriod == s.sweepPeriod
            && (t.period == s.period ==> SweptPeriod(t) == SweptPeriod(s))
            && if tick != Half then t.period == s.period && t.divider == s.divider && t.reloadSweep == s.reloadSweep
               else t.period == (if s.divider == 1 then SweptPeriod(s) else s.period) && !t.reloadSweep
                    && t.divider == if s.divider == 1 || s.reloadSweep then s.sweepPeriod else (s.divider - 1) % 256
  {
    hide TickEnvelope, TickLength, TickLinear, ReloadLength, TickSweep, Shifted;
    var s, t := SquareOf(u, first), SquareOf(TickUnits(u, tick), first);
    if tick == Half { HalfSweeps(s); } else { assert t == s.(env := t.env); }
    SameSweep(s, t);
    hide TickUnits, TickSquare, Honest, SweptPeriod;
  }

  lemma SameSweep(s: Square, t: Square)
    requires SameSettings(s, t)
    ensures t.period == s.period ==> SweptPeriod(t) == SweptPeriod(s)
    ensures t.period == s.period && t.target == s.target ==> Honest(t) == Honest(s)
  {
    hide Shifted;
  }

  lemma SweptThrough(s: Square, m: Square, t: Square, half: bool, h: nat)
    requires !s.reloadSweep && SweptBy(s, m, if half then 1 else 0) && h + (if half then 1 else 0) <= Wait(s)
    requires half && Wait(s) == 1 ==> h == 0
    requires h <= Wait(m) && SweptBy(m, t, h) && Wait(s) >= 1
    ensures SweptBy(s, t, h + if half then 1 else 0)
  {
    hide SweptPeriod;
  }

  predicate SameSettings(s: Square, t: Square) {
    t.sweepOn == s.sweepOn && t.shift == s.shift && t.negate == s.negate && t.first == s.first
    && t.sweepPeriod == s.sweepPeriod
  }

  lemma HalfSweeps(s: Square)
    requires Honest(s)
    ensures var t := TickSquare(s, Half);
            && Honest(t) && SameSettings(s, t) && !t.reloadSweep
            && t.period == (if s.divider == 1 then SweptPeriod(s) else s.period)
            && t.divider == if s.divider == 1 || s.reloadSweep then s.sweepPeriod else (s.divider - 1) % 256
  {
    hide TickEnvelope, TickLength, TickSweep, Shifted;
    SweepOnce(s.(env := TickEnvelope(s.env).(len := TickLength(TickEnvelope(s.env).len))));
  }

  lemma SweepOnce(s: Square)
    requires Honest(s)
    ensures var t := TickSweep(Pass(s)).gen;
            && Honest(t) && SameSettings(s, t) && !t.reloadSweep
            && t.period == (if s.divider == 1 then SweptPeriod(s) else s.period)
            && t.divider == if s.divider == 1 || s.reloadSweep then s.sweepPeriod else (s.divider - 1) % 256
  {
    hide Shifted, SweepTarget;
    TargetIsBent(s);
    if s.target <= 0x7FF { TargetIsBent(s.(period := s.target)); }
  }

  lemma TargetIsBent(s: Square)
    ensures SweepTarget(s.period, s.shift, s.negate, s.first) == Bent(s) % 0x1_0000_0000
  {}

  /** Half frames count the divider down; when it runs out the period is swept once, and the count begins again. */
  lemma {:induction false} SweepRuns(u: Units, f: FrameCounter, n: nat, first: bool)
    requires Orderly(f) && Honest(SquareOf(u, first)) && !SquareOf(u, first).reloadSweep
    requires Halves(Singly(f, n).1) <= Wait(SquareOf(u, first))
    ensures var s, t, h := SquareOf(u, first), SquareOf(UnitsAfter(u, f, n), first), Halves(Singly(f, n).1);
            Honest(t) && SweptBy(s, t, h)
    decreases n
  {
    hide RunFrame, TickUnits, Orderly, Honest, SquareOf, SweptPeriod;
    StepNumbers(f);
    if n > 0 {
      RunFrameOrderly(f, 1);
      var r := RunFrame(f, 1);
      var s, m, v := SquareOf(u, first), SquareOf(TickUnits(u, r.tick), first), TickUnits(u, r.tick);
      SweepCycle(u, r.tick, first);
      HalvesCons(r.tick, Singly(r.fc, n - 1).1);
      SweepRuns(v, r.fc, n - 1, first);
      SweptThrough(s, m, SquareOf(UnitsAfter(v, r.fc, n - 1), first), r.tick == Half, Halves(Singly(r.fc, n - 1).1));
    }
  }

  // ---- in every run the targets are honest ----

  predicate BothHonest(c: Channels) { Honest(c.sq1.gen) && Honest(c.sq2.gen) }

  lemma DrainHonest(c: Channels, from: nat, target: nat)
    requires At(c, from) && from <= target && BothHonest(c)
    ensures BothHonest(Drain(c, from, target))
  {
    hide Bent;
    DrainKeepsUnits(c, from, target);
    SameHonest(c, Drain(c, from, target));
  }

  lemma SameHonest(c: Channels, d: Channels)
    requires UnitsOf(c) == UnitsOf(d)
    ensures BothHonest(c) <==> BothHonest(d)
  {
    assert Honest(c.sq1.gen) == Honest(c.sq1.gen.(dutyPos := 0));
    assert Honest(d.sq1.gen) == Honest(d.sq1.gen.(dutyPos := 0));
    assert Honest(c.sq2.gen) == Honest(c.sq2.gen.(dutyPos := 0));
    assert Honest(d.sq2.gen) == Honest(d.sq2.gen.(dutyPos := 0));
  }

  lemma TickHonest(c: Channels, tick: FrameType)
    requires BothHonest(c)
    ensures BothHonest(ReloadLengths(FrameTick(c, tick)))
  {
    hide TickUnits, FrameTick, ReloadLengths, Shifted;
    TicksAreLocal(c, tick);
    var d := ReloadLengths(FrameTick(c, tick));
    assert Honest(UnitsOf(c).sq1) && Honest(UnitsOf(c).sq2);
    SweepCycle(UnitsOf(c), tick, true);
    SweepCycle(UnitsOf(c), tick, false);
    assert Honest(UnitsOf(d).sq1) && Honest(UnitsOf(d).sq2);
  }

  lemma {:induction false} RunHonest(s: Apu)
    requires Valid(s) && BothHonest(s.ch)
    ensures BothHonest(Run(s).ch)
    decreases s.cur - s.prev
  {
    hide RunFrame, FrameTick, ReloadLengths, Drain, BothHonest;
    if s.prev < s.cur {
      var r := RunFrame(s.fc, s.cur - s.prev);
      TickHonest(s.ch, r.tick);
      DrainHonest(ReloadLengths(FrameTick(s.ch, r.tick)), s.prev, s.prev + r.ran);
      RunHonest(RunOnce(s));
    }
  }

  lemma SquareWriteHonest(c: Channel<Square>, reg: u2, value: u8)
    requires Honest(c.gen)
    ensures Honest(WriteSquare(c, reg, value).gen)
  {
    hide Shifted, SweepTarget, SquareLevel, AddOutput;
    TargetIsBent(WriteSquare(c, reg, value).gen);
  }

  lemma WriteHonest(c: Channels, addr: u16, value: u8)
    requires BothHonest(c) && IsChannelRegister(addr)
    ensures BothHonest(WriteChannel(c, addr, value))
  {
    hide WriteSquare, WriteTriangle, WriteNoise, WriteDmc, Honest;
    if addr < 0x4004 { SquareWriteHonest(c.sq1, addr % 4, value); }
    else if addr < 0x4008 { SquareWriteHonest(c.sq2, addr % 4, value); }
  }

  predicate SameTarget(s: Square, t: Square) {
    t.target == s.target && t.period == s.period && t.shift == s.shift && t.negate == s.negate && t.first == s.first
  }

  lemma SquaresMatter(c: Channels, d: Channels)
    requires SameTarget(c.sq1.gen, d.sq1.gen) && SameTarget(c.sq2.gen, d.sq2.gen)
    ensures BothHonest(c) == BothHonest(d)
  {
    hide Shifted;
  }

  lemma EnableHonest(c: Channels, value: u8, odd: bool)
    ensures BothHonest(Enable(c, value, odd)) == BothHonest(c)
  {
    hide EnableDmc, EnableLength, Bit, BothHonest;
    SquaresMatter(c, Enable(c, value, odd));
  }

  lemma PollHonest(s: Apu)
    ensures BothHonest(Poll(s).ch) == BothHonest(s.ch) && BothHonest(PollIfFlagged(s).ch) == BothHonest(s.ch)
    ensures Valid(s) ==> Valid(Poll(s)) && Valid(PollIfFlagged(s))
  {
    hide ProcessDmcClock, BothHonest;
    SquaresMatter(s.ch, Poll(s).ch);
  }

  lemma FlushHonest(s: Apu)
    ensures BothHonest(Flush(s).ch) == BothHonest(s.ch)
  {
    hide BothHonest;
    SquaresMatter(s.ch, Flush(s).ch);
  }

  lemma StepHonest(s: Apu, op: Op, lazy: bool)
    requires InFrame(s) && BothHonest(s.ch)
    ensures BothHonest(Step(s, op, lazy).0.ch)
  {
    hide Run, RunDue, WriteFrame, WriteChannel, BothHonest, Poll, PollIfFlagged, Flush, Enable, Refill;
    var c := Later(s);
    match op
    case Clock =>
      if s.enabled {
        PollHonest(c);
        RunHonest(ConsumeRequest(PollIfFlagged(c)));
        RunHonest(Poll(c));
        FlushHonest(Run(Poll(c)));
      }
    case WriteOp(addr, value, odd) =>
      RunHonest(s);
      EnableHonest(Run(s).ch, value, odd);
      if IsChannelRegister(addr) { WriteHonest(Run(s).ch, addr, value); }
    case ReadOp(_) => RunHonest(s);
    case RefillOp(value) => SquaresMatter(s.ch, RefillDmc(s, value).ch);
    case EndFrameOp =>
      PollHonest(s);
      RunHonest(Poll(s));
      FlushHonest(Run(Poll(s)));
    case SetStatus(_) =>
  }

  lemma ResetHonest(s: Apu, soft: bool)
    ensures BothHonest(Reset(s, soft).ch)
  {
    hide SweepTarget, Bent;
    TargetIsBent(Reset(s, soft).ch.sq1.gen);
    TargetIsBent(Reset(s, soft).ch.sq2.gen);
  }

  lemma {:induction false} EventsHonest(s: Apu, events: seq<ApuLogs.Event>, lazy: bool)
    requires InFrame(s) && BothHonest(s.ch)
    ensures BothHonest(ApuLogs.RunEvents(s, events, lazy).ch)
    decreases events
  {
    hide BothHonest, Step, Reset, InFrame;
    if events != [] {
      match events[0] {
        case Operate(op) => StepHonest(s, op, lazy);
        case ResetEvent(soft) => ResetHonest(s, soft);
      }
      EventsHonest(ApuLogs.Happen(s, events[0], lazy), events[1..], lazy);
    }
  }

  /** After every run from a reset both target periods are what the registers ask for. */
  lemma EveryRunHonest(before: Apu, soft: bool, events: seq<ApuLogs.Event>, lazy: bool)
    ensures var c := ApuLogs.RunEvents(Reset(before, soft), events, lazy).ch; Honest(c.sq1.gen) && Honest(c.sq2.gen)
  {
    ResetHonest(before, soft);
    EventsHonest(Reset(before, soft), events, lazy);
  }
}
