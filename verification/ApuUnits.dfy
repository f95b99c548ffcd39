/** What the sequencer does to the channels over whole runs, in numbers: length counters, envelopes, the triangle's
    linear counter and the sweep units. */
module ApuUnits {
  import opened ApuBatches
  import opened ApuChannels
  import opened ApuModel
  import opened ApuTicks
  import opened LazyApu
  import opened Types

  type Voice = k: int | 0 <= k < 4

  /** What ticks change. Timers, duty and sequence positions and the noise register go by other clocks. */
  datatype Units = Units(sq1: Square, sq2: Square, tri: Triangle, noi: Envelope)

  function UnitsOf(c: Channels): Units {
    Units(c.sq1.gen.(dutyPos := 0), c.sq2.gen.(dutyPos := 0), c.tri.gen.(position := 0), c.noi.gen.env)
  }

  function LengthOf(u: Units, k: Voice): Length {
    match k
    case 0 => u.sq1.env.len
    case 1 => u.sq2.env.len
    case 2 => u.tri.len
    case 3 => u.noi.len
  }

  // ---- the sequencer's part of a run ----

  function Pass(s: Square): Channel<Square> { Channel(Timer(0, 0, 0, 0, []), s) }

  function TickSquare(s: Square, tick: FrameType): Square {
    var e := if tick == NoTick then s.env else TickEnvelope(s.env);
    if tick != Half then s.(env := e) else TickSweep(Pass(s.(env := e.(len := TickLength(e.len))))).gen
  }

  function Reloaded(s: Square): Square { s.(env := s.env.(len := ReloadLength(s.env.len))) }

  /** What one cycle of the sequencer that ticks so does. */
  function TickUnits(u: Units, tick: FrameType): Units {
    var tri := if tick == NoTick then u.tri else TickLinear(u.tri);
    var noi := if tick == NoTick then u.noi else TickEnvelope(u.noi);
    Units(Reloaded(TickSquare(u.sq1, tick)), Reloaded(TickSquare(u.sq2, tick)),
          tri.(len := ReloadLength(if tick == Half then TickLength(tri.len) else tri.len)),
          noi.(len := ReloadLength(if tick == Half then TickLength(noi.len) else noi.len)))
  }

  function UnitsAfter(u: Units, f: FrameCounter, n: nat): Units
    requires FrameOk(f)
    decreases n
  {
    if n == 0 then u else UnitsAfter(TickUnits(u, RunFrame(f, 1).tick), RunFrame(f, 1).fc, n - 1)
  }

  lemma SweepIsLocal(c: Channel<Square>, d: Channel<Square>)
    requires c.gen.(dutyPos := 0) == d.gen.(dutyPos := 0)
    ensures TickSweep(c).gen.(dutyPos := 0) == TickSweep(d).gen.(dutyPos := 0)
  {
    hide SweepTarget;
  }

  /** A square after the envelope and length ticks of a half frame. */
  function Counted(c: Channel<Square>): Channel<Square> {
    var e := TickEnvelope(c.gen.env);
    c.(gen := c.gen.(env := e.(len := TickLength(e.len))))
  }

  lemma HalfParts(c: Channels)
    ensures var d := FrameTick(c, Half);
            && d.sq1 == TickSweep(Counted(c.sq1)) && d.sq2 == TickSweep(Counted(c.sq2))
            && d.tri.gen == TickLinear(c.tri.gen).(len := TickLength(c.tri.gen.len))
            && d.noi.gen.env == TickEnvelope(c.noi.gen.env).(len := TickLength(c.noi.gen.env.len))
  {
    hide TickLength, TickSweep;
  }

  lemma ReloadParts(c: Channels)
    ensures var d := ReloadLengths(c);
            && d.sq1.gen == Reloaded(c.sq1.gen) && d.sq2.gen == Reloaded(c.sq2.gen)
            && d.tri.gen == c.tri.gen.(len := ReloadLength(c.tri.gen.len))
            && d.noi.gen.env == c.noi.gen.env.(len := ReloadLength(c.noi.gen.env.len))
  {
    hide ReloadLength;
  }

  lemma TicksAreLocal(c: Channels, tick: FrameType)
    ensures UnitsOf(ReloadLengths(FrameTick(c, tick))) == TickUnits(UnitsOf(c), tick)
  {
    match tick
    case Half => HalfIsLocal(c);
    case Quarter => QuarterIsLocal(c);
    case NoTick => NoTickIsLocal(c);
  }

  lemma LinearIsLocal(t: Triangle)
    ensures TickLinear(t.(position := 0)) == TickLinear(t).(position := 0) && TickLinear(t).len == t.len
  {}

  lemma EnvelopeKeepsLength(e: Envelope)
    ensures TickEnvelope(e).len == e.len
  {}

  lemma HalfIsLocal(c: Channels)
    ensures UnitsOf(ReloadLengths(FrameTick(c, Half))) == TickUnits(UnitsOf(c), Half)
  {
    hide TickLength, ReloadLength, TickSweep, ReloadLengths, FrameTick, Counted, TickSquare, TickEnvelope;
    ReloadParts(FrameTick(c, Half));
    HalfParts(c);
    SquareIsLocal(c.sq1);
    SquareIsLocal(c.sq2);
    LinearIsLocal(c.tri.gen);
    EnvelopeKeepsLength(c.noi.gen.env);
    var x := TickLinear(c.tri.gen.(position := 0));
    assert TickUnits(UnitsOf(c), Half).tri == x.(len := ReloadLength(TickLength(x.len)));
  }

  lemma QuarterParts(c: Channels)
    ensures var d := FrameTick(c, Quarter);
            && d.sq1.gen == c.sq1.gen.(env := TickEnvelope(c.sq1.gen.env))
            && d.sq2.gen == c.sq2.gen.(env := TickEnvelope(c.sq2.gen.env))
            && d.tri.gen == TickLinear(c.tri.gen) && d.noi.gen.env == TickEnvelope(c.noi.gen.env)
    ensures FrameTick(c, NoTick) == c
  {
    hide TickEnvelope, TickLinear;
  }

  lemma QuarterIsLocal(c: Channels)
    ensures UnitsOf(ReloadLengths(FrameTick(c, Quarter))) == TickUnits(UnitsOf(c), Quarter)
  {
    hide ReloadLength, ReloadLengths, TickEnvelope, FrameTick;
    QuarterParts(c);
    ReloadParts(FrameTick(c, Quarter));
    LinearIsLocal(c.tri.gen);
    var x := TickLinear(c.tri.gen.(position := 0));
    hide TickLinear;
    assert TickUnits(UnitsOf(c), Quarter).tri == x.(len := ReloadLength(x.len));
  }

  lemma NoTickIsLocal(c: Channels)
    ensures UnitsOf(ReloadLengths(FrameTick(c, NoTick))) == TickUnits(UnitsOf(c), NoTick)
  {
    hide ReloadLength, ReloadLengths, FrameTick;
    QuarterParts(c);
    ReloadParts(c);
  }

  /** A half frame of a square, duty position apart. */
  lemma SquareIsLocal(c: Channel<Square>)
    ensures TickSweep(Counted(c)).gen.(dutyPos := 0) == TickSquare(c.gen.(dutyPos := 0), Half)
  {
    hide TickEnvelope, TickLength, TickSweep;
    var e := TickEnvelope(c.gen.env);
    var a := c.gen.(env := e.(len := TickLength(e.len)));
    SweepIsLocal(Counted(c), Pass(a.(dutyPos := 0)));
    SweepKeeps(Pass(a.(dutyPos := 0)));
  }

  lemma SweepKeeps(c: Channel<Square>)
    ensures TickSweep(c).gen.dutyPos == c.gen.dutyPos && TickSweep(c).gen.env == c.gen.env
  {
    hide SweepTarget;
  }

  lemma {:induction false} SquareDrains(c: Channel<Square>, target: nat)
    requires c.timer.prev <= target
    ensures RunTo(c, SquareTick, target).gen.(dutyPos := 0) == c.gen.(dutyPos := 0)
    decreases target - c.timer.prev
  {
    if target - c.timer.prev > c.timer.timer { SquareDrains(TickOnce(c, SquareTick), target); }
  }

  lemma {:induction false} TriangleDrains(c: Channel<Triangle>, target: nat)
    requires c.timer.prev <= target
    ensures RunTo(c, TriangleTick, target).gen.(position := 0) == c.gen.(position := 0)
    decreases target - c.timer.prev
  {
    if target - c.timer.prev > c.timer.timer { TriangleDrains(TickOnce(c, TriangleTick), target); }
  }

  lemma DrainKeepsUnits(c: Channels, from: nat, target: nat)
    requires At(c, from) && from <= target
    ensures UnitsOf(Drain(c, from, target)) == UnitsOf(c)
  {
    SquareDrains(c.sq1, target);
    SquareDrains(c.sq2, target);
    TriangleDrains(c.tri, target);
    NoiseKeepsEnvelope(c.noi, target);
  }

  /** An APU that is caught up and clocked. */
  predicate Synced(s: Apu) { InFrame(s) && s.prev == s.cur && s.enabled && Orderly(s.fc) }

  lemma ClockTicks(s: Apu)
    requires Synced(s)
    ensures var t, r := EagerClock(s), RunFrame(s.fc, 1);
            Synced(t) && t.fc == r.fc && UnitsOf(t.ch) == TickUnits(UnitsOf(s.ch), r.tick)
  {
    hide RunFrame, FrameTick, ReloadLengths, Drain, Orderly, TickUnits, ProcessDmcClock;
    RunFrameOrderly(s.fc, 1);
    var r, p := RunFrame(s.fc, 1), Poll(Later(s));
    var c := ReloadLengths(FrameTick(p.ch, r.tick));
    TicksAreLocal(p.ch, r.tick);
    DrainKeepsUnits(c, s.prev, s.prev + 1);
    RunSynced(RunOnce(p));
  }

  function Clocks(n: nat): (ops: seq<Op>)
    ensures |ops| == n
  {
    seq(n, i => Clock)
  }

  lemma {:induction false} ClocksTick(s: Apu, n: nat)
    requires Synced(s)
    ensures var t := RunOps(s, Clocks(n), false);
            Synced(t) && t.fc == Singly(s.fc, n).0 && UnitsOf(t.ch) == UnitsAfter(UnitsOf(s.ch), s.fc, n)
    decreases n
  {
    hide RunFrame, TickUnits, EagerClock, Orderly;
    if n > 0 {
      ClockTicks(s);
      assert Clocks(n)[1..] == Clocks(n - 1);
      ClocksTick(EagerClock(s), n - 1);
    }
  }

  /** The lazy APU n clocks on, once it has caught up. */
  lemma UnitsLater(l: Apu, e: Apu, n: nat)
    requires Refines(l, e) && Synced(e)
    ensures UnitsOf(Run(RunOps(l, Clocks(n), true)).ch) == UnitsAfter(UnitsOf(e.ch), e.fc, n)
  {
    hide LazyInv, Orderly, Run, Unflag;
    RunsRefine(l, e, Clocks(n));
    ClocksTick(e, n);
    FlagsApart(Run(RunOps(l, Clocks(n), true)), RunOps(e, Clocks(n), false));
  }

  lemma FlagsApart(a: Apu, b: Apu)
    requires Unflag(a) == Unflag(b)
    ensures UnitsOf(a.ch) == UnitsOf(b.ch)
  {
    assert UnitsOf(a.ch) == UnitsOf(Unflag(a).ch) && UnitsOf(b.ch) == UnitsOf(Unflag(b).ch);
  }

  // ---- length counters ----

  function Minus(a: int, b: int): int { if a > b then a - b else 0 }

  /** One cycle of the sequencer, a deferred halt flag and a deferred load included. The load is dropped if the counter
      has been counted down since the write. */
  lemma LengthCycle(u: Units, tick: FrameType, k: Voice)
    ensures var l, m := LengthOf(u, k), LengthOf(TickUnits(u, tick), k);
            var counted := if tick == Half && !l.halt then Minus(l.counter, 1) else l.counter;
            && m.counter == (if l.reload != 0 && counted == l.previous then l.reload else counted)
            && m.halt == m.newHalt == l.newHalt && m.enabled == l.enabled && m.reload == 0
  {
    hide TickSweep, TickLength, ReloadLength;
    var l := LengthOf(u, k);
    SweepKeeps(Pass(u.sq1.(env := TickEnvelope(u.sq1.env).(len := TickLength(u.sq1.env.len)))));
    SweepKeeps(Pass(u.sq2.(env := TickEnvelope(u.sq2.env).(len := TickLength(u.sq2.env.len)))));
    assert LengthOf(TickUnits(u, tick), k) == ReloadLength(if tick == Half then TickLength(l) else l);
    LengthStep(l, tick == Half);
  }

  lemma LengthStep(l: Length, half: bool)
    ensures var m := ReloadLength(if half then TickLength(l) else l);
            var counted := if half && !l.halt then Minus(l.counter, 1) else l.counter;
            && m.counter == (if l.reload != 0 && counted == l.previous then l.reload else counted)
            && m.halt == m.newHalt == l.newHalt && m.enabled == l.enabled && m.reload == 0
  {}

  /** With nothing deferred the counter falls by one with each half frame down to 0, and stays as it is when halted. */
  lemma {:induction false} LengthCounts(u: Units, f: FrameCounter, n: nat, k: Voice)
    requires Orderly(f) && Settled(LengthOf(u, k))
    ensures var l, m := LengthOf(u, k), LengthOf(UnitsAfter(u, f, n), k);
            Settled(m) && m.counter == if l.halt then l.counter else Minus(l.counter, Halves(Singly(f, n).1))
    decreases n
  {
    hide RunFrame, TickUnits, Orderly, LengthOf;
    StepNumbers(f);
    if n > 0 {
      RunFrameOrderly(f, 1);
      var r := RunFrame(f, 1);
      LengthCycle(u, r.tick, k);
      HalvesCons(r.tick, Singly(r.fc, n - 1).1);
      LengthCounts(TickUnits(u, r.tick), r.fc, n - 1, k);
    }
  }

  /** What the counter holds after n cycles: `first` and `all` are the half frames in the first and in all of them. */
  function CounterAfter(l: Length, first: int, all: int): int {
    var counted := if l.halt then l.counter else Minus(l.counter, first);
    var loaded := if l.reload != 0 && counted == l.previous then l.reload else counted;
    if l.newHalt then loaded else Minus(loaded, all - first)
  }

  lemma LengthAfter(u: Units, f: FrameCounter, n: nat, k: Voice)
    requires Orderly(f) && n > 0
    ensures LengthOf(UnitsAfter(u, f, n), k).counter
         == CounterAfter(LengthOf(u, k), HalvesIn(f, 1), HalvesIn(f, n))
  {
    hide RunFrame, TickUnits, Orderly, LengthOf, HalvesIn;
    StepNumbers(f);
    RunFrameOrderly(f, 1);
    var r := RunFrame(f, 1);
    LengthCycle(u, r.tick, k);
    LengthCounts(TickUnits(u, r.tick), r.fc, n - 1, k);
    HalvesCons(r.tick, Singly(r.fc, n - 1).1);
    HalvesCons(r.tick, []);
    assert Singly(f, 1).1 == Ticked(r.tick) + [];
    TicksDue(f, 1);
    TicksDue(f, n);
  }

  /** The lazy APU in a state that a run reaches, and the one that runs every cycle beside it. */
  ghost predicate Reached(l: Apu, e: Apu)
    ensures Reached(l, e) ==> InFrame(l) && Orderly(e.fc)
  {
    Refines(l, e) && Synced(e)
  }

  /** The bit of $4015 that tells whether channel k plays. */
  predicate Active(r: ReadResult, k: Voice)
    requires r.Status?
  {
    match k
    case 0 => r.sq1
    case 1 => r.sq2
    case 2 => r.tri
    case 3 => r.noi
  }

  /** A run of the lazy APU that goes on with a write and n clocks, and then a read of $4015. */
  function StatusLater(s: Apu, addr: u16, value: u8, odd: bool, n: nat): ReadResult
    requires InFrame(s)
  {
    Read(RunOps(s, [WriteOp(addr, value, odd)] + Clocks(n), true), 0x4015).1
  }

  lemma StatusIsCounter(l: Apu, e: Apu, addr: u16, value: u8, odd: bool, n: nat, k: Voice)
    requires Reached(l, e) && n > 0 && addr != 0x4017
    ensures var t, r := Write(e, addr, value, odd), StatusLater(l, addr, value, odd, n);
            && Orderly(e.fc) && r.Status?
            && (Active(r, k) <==>
                  CounterAfter(LengthOf(UnitsOf(t.ch), k), HalvesIn(e.fc, 1), HalvesIn(e.fc, n)) > 0)
  {
    hide Read, Observe, Write, LazyInv, Orderly, HalvesIn, CounterAfter, Unflag, RunFrame;
    var write := WriteOp(addr, value, odd);
    var ops := [write] + Clocks(n);
    RunsRefine(l, e, ops);
    ReadRefines(RunOps(l, ops, true), RunOps(e, ops, false), 0x4015);
    WriteSynced(e, addr, value, odd);
    var t := Write(e, addr, value, odd);
    assert ops[1..] == Clocks(n);
    ClocksTick(t, n);
    LengthAfter(UnitsOf(t.ch), e.fc, n, k);
    ObserveCounter(RunOps(t, Clocks(n), false), k);
  }

  lemma WriteSynced(e: Apu, addr: u16, value: u8, odd: bool)
    requires Synced(e) && addr != 0x4017
    ensures var t := Write(e, addr, value, odd); Synced(t) && t.fc == e.fc
  {
    hide WriteChannel, Enable, Orderly;
    RunSynced(e);
  }

  lemma ObserveCounter(s: Apu, k: Voice)
    requires Synced(s)
    ensures var r := Read(s, 0x4015).1; r.Status? && (Active(r, k) <==> LengthOf(UnitsOf(s.ch), k).counter > 0)
  {
    RunSynced(s);
  }

  lemma NoteWritten(c: Channels, k: Voice, value: u8)
    ensures var l := LengthOf(UnitsOf(c), k);
            LengthOf(UnitsOf(WriteChannel(c, 0x4003 + 4 * k, value)), k)
            == if l.enabled then l.(reload := LENGTH_TABLE[value / 8], previous := l.counter) else l
  {
    hide WriteSquare;
    if k == 0 { SquareNote(c.sq1, value); }
    if k == 1 { SquareNote(c.sq2, value); }
  }

  lemma SquareNote(c: Channel<Square>, value: u8)
    ensures WriteSquare(c, 3, value).gen.env.len == LoadLength(c.gen.env.len, value / 8)
  {
    hide SquareLevel, SweepTarget, AddOutput;
  }

  /** Each channel has its own four registers, and no write to them touches another channel. */
  lemma RegistersApart(c: Channels, reg: u2, value: u8)
    ensures WriteChannel(c, 0x4000 + reg, value) == c.(sq1 := WriteSquare(c.sq1, reg, value))
    ensures WriteChannel(c, 0x4004 + reg, value) == c.(sq2 := WriteSquare(c.sq2, reg, value))
    ensures WriteChannel(c, 0x4008 + reg, value) == c.(tri := WriteTriangle(c.tri, reg, value))
    ensures WriteChannel(c, 0x400C + reg, value) == c.(noi := WriteNoise(c.noi, reg, value))
    ensures WriteChannel(c, 0x4010 + reg, value) == c.(dmc := WriteDmc(c.dmc, reg, value))
  {
    hide WriteSquare, WriteTriangle, WriteNoise, WriteDmc;
  }

  /** A note on any of the four channels, from any state that a run reaches. Unless the very next cycle counts the old
      note down, which drops the new one, bit k of $4015 stays set until as many half frames have passed as the table
      says, or for good when halted. */
  lemma NoteLasts(l: Apu, e: Apu, k: Voice, value: u8, odd: bool, n: nat)
    requires Reached(l, e) && n > 0 && LengthOf(UnitsOf(e.ch), k).enabled
    ensures var c, r := LengthOf(UnitsOf(e.ch), k), StatusLater(l, 0x4003 + 4 * k, value, odd, n);
            var first, all := HalvesIn(e.fc, 1), HalvesIn(e.fc, n);
            var length := if first == 1 && c.counter > 0 && !c.halt then c.counter - 1 else LENGTH_TABLE[value / 8];
            r.Status? && (Active(r, k) <==> length > if c.newHalt then 0 else all - first)
  {
    hide StatusLater, Reached, LengthOf, UnitsOf, Write, HalvesIn, CounterAfter;
    WrittenLength(l, e, k, value, odd);
    StatusIsCounter(l, e, 0x4003 + 4 * k, value, odd, n, k);
    FirstAtMostOne(e.fc, n);
    LoadedCounter(LengthOf(UnitsOf(e.ch), k), value / 8, HalvesIn(e.fc, 1), HalvesIn(e.fc, n));
  }

  lemma WrittenLength(l: Apu, e: Apu, k: Voice, value: u8, odd: bool)
    requires Reached(l, e) && LengthOf(UnitsOf(e.ch), k).enabled
    ensures var c := LengthOf(UnitsOf(e.ch), k);
            LengthOf(UnitsOf(Write(e, 0x4003 + 4 * k, value, odd).ch), k)
            == c.(reload := LENGTH_TABLE[value / 8], previous := c.counter)
  {
    ChannelWritten(e, 0x4003 + 4 * k, value, odd);
    hide LengthOf, UnitsOf, WriteChannel, Write, Reached;
    NoteWritten(e.ch, k, value);
  }

  lemma LoadedCounter(c: Length, index: u5, first: int, all: int)
    requires 0 <= first <= 1 && first <= all
    ensures var length := if first == 1 && c.counter > 0 && !c.halt then c.counter - 1 else LENGTH_TABLE[index];
            CounterAfter(c.(reload := LENGTH_TABLE[index], previous := c.counter), first, all) > 0
            <==> length > if c.newHalt then 0 else all - first
  {
    assert LENGTH_TABLE[index] > 0;
  }

  lemma ChannelWritten(e: Apu, addr: u16, value: u8, odd: bool)
    requires Synced(e)
    ensures Write(e, addr, value, odd).ch
         == if IsChannelRegister(addr) then WriteChannel(e.ch, addr, value)
            else if addr == 0x4015 then Enable(e.ch, value, odd) else e.ch
  {
    hide WriteChannel, Enable;
    RunSynced(e);
  }

  lemma FirstAtMostOne(f: FrameCounter, n: nat)
    requires Orderly(f) && n > 0
    ensures 0 <= HalvesIn(f, 1) <= 1 && HalvesIn(f, 1) <= HalvesIn(f, n)
  {
    hide RunFrame, HalvesIn;
    StepNumbers(f);
    var r := RunFrame(f, 1);
    HalvesCons(r.tick, Singly(r.fc, n - 1).1);
    HalvesCons(r.tick, []);
    assert Singly(f, 1).1 == Ticked(r.tick) + [];
    TicksDue(f, 1);
    TicksDue(f, n);
  }

  predicate Switched(value: u8, k: Voice) {
    value / (if k == 0 then 1 else if k == 1 then 2 else if k == 2 then 4 else 8) % 2 == 1
  }

  lemma EnableWritten(c: Channels, k: Voice, value: u8, odd: bool)
    ensures var l, on := LengthOf(UnitsOf(c), k), Switched(value, k);
            LengthOf(UnitsOf(Enable(c, value, odd)), k)
            == l.(enabled := on, counter := if on then l.counter else 0)
  {
    hide EnableDmc;
  }

  /** Bit k of a write to $4015 switches channel k. With the bit clear the channel falls silent, unless a load of a
      counter that stood at 0 is still waiting; with it set the counter goes on. */
  lemma EnableSwitches(l: Apu, e: Apu, k: Voice, value: u8, odd: bool, n: nat)
    requires Reached(l, e) && n > 0
    ensures var c, r := LengthOf(UnitsOf(e.ch), k), StatusLater(l, 0x4015, value, odd, n);
            var first, all := HalvesIn(e.fc, 1), HalvesIn(e.fc, n);
            && r.Status?
            && (!Switched(value, k) ==>
                  (Active(r, k) <==> c.previous == 0 && c.reload > if c.newHalt then 0 else all - first))
            && (Switched(value, k) && c.reload == 0 && c.halt == c.newHalt ==>
                  (Active(r, k) <==> c.counter > if c.halt then 0 else all))
  {
    ChannelWritten(e, 0x4015, value, odd);
    hide StatusLater, Reached, LengthOf, UnitsOf, Enable, Write, HalvesIn, Switched, CounterAfter;
    StatusIsCounter(l, e, 0x4015, value, odd, n, k);
    EnableWritten(e.ch, k, value, odd);
    FirstAtMostOne(e.fc, n);
    SwitchedCounter(LengthOf(UnitsOf(e.ch), k), HalvesIn(e.fc, 1), HalvesIn(e.fc, n));
  }

  lemma SwitchedCounter(c: Length, first: int, all: int)
    requires 0 <= first <= 1 && first <= all
    ensures forall on :: CounterAfter(c.(enabled := on, counter := 0), first, all) > 0
                         <==> c.previous == 0 && c.reload > if c.newHalt then 0 else all - first
    ensures c.reload == 0 && c.halt == c.newHalt ==>
              forall on :: CounterAfter(c.(enabled := on), first, all) > 0 <==> c.counter > if c.halt then 0 else all
  {}

  /** The lengths in the table: odd entries are one less than their index, but 254 for index 1. Even ones are notes of
      two tempos: a sixteenth of 10 or 12 half frames and four times doubled, a dotted quarter, and triplets. */
  lemma NoteLengths(index: u5)
    ensures var sixteenth, note := if index < 16 then 10 else 12, index / 2 % 8;
            LENGTH_TABLE[index]
            == if index % 2 == 1 then (if index == 1 then 254 else index - 1)
               else if note < 5 then [1, 2, 4, 8, 16][note] * sixteenth
               else if note == 5 then 6 * sixteenth
               else if note == 6 then (4 * sixteenth + 2) / 3 else 8 * sixteenth / 3
  {}
}
