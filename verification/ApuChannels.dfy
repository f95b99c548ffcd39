/** The values of the APU channels, and what one timer expiry, one register write and one
    sequencer tick does to each (src/systems/nes/audio). The classes of module ApuDevices
    update fields in place and are proved against these functions. */
module ApuChannels {
  import opened Types
  import opened Arithmetic

  // ---- timer ----

  /** One call `add_delta(channel, time, delta)` that a channel makes to the mixer. */
  datatype Delta = Delta(time: nat, delta: i16)

  /** ApuTimer. `out` lists the deltas sent to the mixer since the last audio frame. */
  datatype Timer = Timer(prev: nat, timer: u16, period: u16, last: i8, out: seq<Delta>)

  function AddOutput(t: Timer, output: i8): (u: Timer)
    ensures u.prev == t.prev && u.last == output
  {
    if output == t.last then t
    else t.(last := output, out := t.out + [Delta(t.prev, output - t.last)])
  }

  /** The timer reaches its next expiry: `timer_ + 1` cycles pass and the period is reloaded. */
  function Expire(t: Timer): Timer { t.(prev := t.prev + t.timer + 1, timer := t.period) }

  /** The target comes before the next expiry. */
  function Coast(t: Timer, target: nat): Timer
    requires t.prev <= target <= t.prev + t.timer
  {
    t.(prev := target, timer := t.timer - (target - t.prev))
  }

  // ---- length counter and envelope ----

  datatype Length = Length(newHalt: bool, enabled: bool, halt: bool, counter: u8, reload: u8, previous: u8)

  const LENGTH_TABLE: seq<u8> := [
    10, 254, 20, 2, 40, 4, 80, 6, 160, 8, 60, 10, 14, 12, 26, 14,
    12, 16, 24, 18, 48, 20, 96, 22, 192, 24, 72, 26, 16, 28, 32, 30]

  function ReloadLength(l: Length): Length {
    l.(counter := if l.reload != 0 && l.counter == l.previous then l.reload else l.counter,
       reload := 0, halt := l.newHalt)
  }

  function TickLength(l: Length): Length {
    if l.counter > 0 && !l.halt then l.(counter := l.counter - 1) else l
  }

  function EnableLength(l: Length, on: bool): Length {
    l.(counter := if on then l.counter else 0, enabled := on)
  }

  function InitLength(l: Length, halt: bool): Length { l.(newHalt := halt) }

  function LoadLength(l: Length, index: u5): Length {
    if l.enabled then l.(reload := LENGTH_TABLE[index], previous := l.counter) else l
  }

  /** No deferred halt flag and no deferred reload is waiting for a run. */
  predicate Settled(l: Length) { l.reload == 0 && l.halt == l.newHalt }

  datatype Envelope = Envelope(len: Length, constant: bool, volume: u4, start: bool, divider: u4, counter: u4)

  function InitEnvelope(e: Envelope, value: u8): Envelope {
    e.(len := InitLength(e.len, Bit(value, 5)), constant := Bit(value, 4), volume := value % 16)
  }

  function Volume(e: Envelope): u4 {
    if e.len.counter == 0 then 0 else if e.constant then e.volume else e.counter
  }

  function TickEnvelope(e: Envelope): Envelope {
    if e.start then e.(start := false, counter := 15, divider := e.volume)
    else if e.divider > 0 then e.(divider := e.divider - 1)
    else e.(divider := e.volume,
            counter := if e.counter > 0 then e.counter - 1 else if e.len.halt then 15 else 0)
  }

  // ---- the timer loop shared by the four channels ----

  datatype Channel<+G> = Channel(timer: Timer, gen: G)

  /** What a generator does when its timer expires: its new state and the level it outputs, if any. */
  type Ticker<!G> = G -> (G, Option<i8>)

  function TickOnce<G>(c: Channel<G>, tick: Ticker<G>): Channel<G> {
    var (gen, output) := tick(c.gen);
    var timer := Expire(c.timer);
    Channel(if output.Some? then AddOutput(timer, output.value) else timer, gen)
  }

  /** `while (timer_.run(target)) tick` */
  function RunTo<G>(c: Channel<G>, tick: Ticker<G>, target: nat): (d: Channel<G>)
    requires c.timer.prev <= target
    ensures d.timer.prev == target
    decreases target - c.timer.prev
  {
    if target - c.timer.prev > c.timer.timer then RunTo(TickOnce(c, tick), tick, target)
    else c.(timer := Coast(c.timer, target))
  }

  /** Draining to a and then to b is draining straight to b: same state, same list of deltas. */
  lemma {:induction false} RunToSplits<G>(c: Channel<G>, tick: Ticker<G>, a: nat, b: nat)
    requires c.timer.prev <= a <= b
    ensures RunTo(RunTo(c, tick, a), tick, b) == RunTo(c, tick, b)
    decreases a - c.timer.prev
  {
    if a - c.timer.prev > c.timer.timer {
      RunToSplits(TickOnce(c, tick), tick, a, b);
    } else {
      var d := RunTo(c, tick, a);
      if b - c.timer.prev > c.timer.timer { assert TickOnce(d, tick) == TickOnce(c, tick); }
    }
  }

  /** Number of expiries of a free-running timer over `cycles` cycles. */
  function Expiries(timer: nat, period: nat, cycles: nat): nat {
    if cycles <= timer then 0 else 1 + (cycles - timer - 1) / (period + 1)
  }

  /** The generator after n expiries. */
  function Generated<G>(gen: G, tick: Ticker<G>, n: nat): G {
    if n == 0 then gen else Generated(tick(gen).0, tick, n - 1)
  }

  /** Over D cycles the loop ticks 0 times if D <= timer, else 1 + (D - timer - 1) / (period + 1) times. */
  lemma {:induction false} TickCount<G>(c: Channel<G>, tick: Ticker<G>, target: nat)
    requires c.timer.prev <= target
    ensures RunTo(c, tick, target).gen
         == Generated(c.gen, tick, Expiries(c.timer.timer, c.timer.period, target - c.timer.prev))
    decreases target - c.timer.prev
  {
    var timer, period, cycles := c.timer.timer, c.timer.period, target - c.timer.prev;
    if cycles > timer {
      hide Expiries;
      ExpiriesStep(timer, period, cycles);
      TickCount(TickOnce(c, tick), tick, target);
    }
  }

  lemma ExpiriesStep(timer: nat, period: nat, cycles: nat)
    requires cycles > timer
    ensures Expiries(timer, period, cycles) == 1 + Expiries(period, period, cycles - timer - 1)
  {
    var rest := cycles - timer - 1;
    if rest > period { DivideStep(rest, period + 1); }
  }

  // ---- what reaches the mixer ----

  function Sum(out: seq<Delta>): int {
    if out == [] then 0 else Sum(out[..|out| - 1]) + out[|out| - 1].delta
  }

  /** Length of an audio frame in CPU cycles, and so of each row of the mixer. */
  const CYCLE_LENGTH := 10000

  /** Every `channel_output_[channel][time]` is in bounds. */
  predicate InBounds(out: seq<Delta>) {
    forall i :: 0 <= i < |out| ==> out[i].time < CYCLE_LENGTH && out[i].delta != 0
  }

  /** In time order, and none later than `cycles`. */
  predicate Ordered(out: seq<Delta>, cycles: nat) {
    && (forall i, j :: 0 <= i < j < |out| ==> out[i].time <= out[j].time)
    && (forall i :: 0 <= i < |out| ==> out[i].time <= cycles)
  }

  /** The deltas are in bounds, in time order if `ordered`, and add up to the level change since `base`. */
  predicate LogOk(t: Timer, base: int, ordered: bool) {
    InBounds(t.out) && (ordered ==> Ordered(t.out, t.prev)) && base + Sum(t.out) == t.last
  }

  lemma SumAppend(out: seq<Delta>, d: Delta)
    ensures Sum(out + [d]) == Sum(out) + d.delta
  {
    assert (out + [d])[..|out|] == out;
  }

  lemma AddOutputLog(t: Timer, output: i8, base: int, ordered: bool)
    requires LogOk(t, base, ordered) && t.prev < CYCLE_LENGTH
    ensures LogOk(AddOutput(t, output), base, ordered)
  {
    hide Sum;
    if output != t.last { SumAppend(t.out, Delta(t.prev, output - t.last)); }
  }

  /** Whatever a channel generates, the mixer sees ordered, in-frame deltas that sum to its level. */
  lemma {:induction false} RunToLog<G>(c: Channel<G>, tick: Ticker<G>, target: nat, base: int, ordered: bool)
    requires c.timer.prev <= target < CYCLE_LENGTH && LogOk(c.timer, base, ordered)
    ensures LogOk(RunTo(c, tick, target).timer, base, ordered)
    decreases target - c.timer.prev
  {
    if target - c.timer.prev > c.timer.timer {
      var output := tick(c.gen).1;
      if output.Some? { AddOutputLog(Expire(c.timer), output.value, base, ordered); }
      RunToLog(TickOnce(c, tick), tick, target, base, ordered);
    }
  }

  // ---- when draining sends nothing ----

  /** The expiry that follows n others asks for no level, or for the one that is there. */
  predicate SilentExpiry<G>(c: Channel<G>, tick: Ticker<G>, n: nat) {
    var output := tick(Generated(c.gen, tick, n)).1;
    output.None? || output.value == c.timer.last
  }

  predicate Silent<G>(c: Channel<G>, tick: Ticker<G>, cycles: nat) {
    forall n: nat :: n < Expiries(c.timer.timer, c.timer.period, cycles) ==> SilentExpiry(c, tick, n)
  }

  /** Draining only adds to the log. */
  lemma {:induction false} RunToGrows<G>(c: Channel<G>, tick: Ticker<G>, target: nat)
    requires c.timer.prev <= target
    ensures c.timer.out <= RunTo(c, tick, target).timer.out
    decreases target - c.timer.prev
  {
    if target - c.timer.prev > c.timer.timer { RunToGrows(TickOnce(c, tick), tick, target); }
  }

  lemma SilentStep<G>(c: Channel<G>, tick: Ticker<G>, cycles: nat)
    requires cycles > c.timer.timer && SilentExpiry(c, tick, 0)
    ensures Silent(c, tick, cycles) <==> Silent(TickOnce(c, tick), tick, cycles - c.timer.timer - 1)
  {
    hide Expiries;
    var d, rest := TickOnce(c, tick), cycles - c.timer.timer - 1;
    ExpiriesStep(c.timer.timer, c.timer.period, cycles);
    assert forall n: nat :: SilentExpiry(d, tick, n) == SilentExpiry(c, tick, n + 1);
    if Silent(d, tick, rest) {
      forall n: nat | n < Expiries(c.timer.timer, c.timer.period, cycles)
        ensures SilentExpiry(c, tick, n)
      {
        if n > 0 { assert SilentExpiry(d, tick, n - 1); }
      }
    }
    if Silent(c, tick, cycles) {
      forall n: nat | n < Expiries(d.timer.timer, d.timer.period, rest)
        ensures SilentExpiry(d, tick, n)
      {
        assert SilentExpiry(c, tick, n + 1);
      }
    }
  }

  lemma FirstExpiry<G>(c: Channel<G>, tick: Ticker<G>, cycles: nat)
    ensures cycles <= c.timer.timer ==> Silent(c, tick, cycles)
    ensures cycles > c.timer.timer && !SilentExpiry(c, tick, 0) ==> !Silent(c, tick, cycles)
    ensures |TickOnce(c, tick).timer.out| == |c.timer.out| + if SilentExpiry(c, tick, 0) then 0 else 1
    ensures SilentExpiry(c, tick, 0) ==> TickOnce(c, tick).timer.out == c.timer.out
  {
    if cycles > c.timer.timer { ExpiriesStep(c.timer.timer, c.timer.period, cycles); }
  }

  /** Draining sends the mixer nothing exactly when every expiry on the way is silent. */
  lemma {:induction false} DrainSilent<G>(c: Channel<G>, tick: Ticker<G>, target: nat)
    requires c.timer.prev <= target
    ensures RunTo(c, tick, target).timer.out == c.timer.out <==> Silent(c, tick, target - c.timer.prev)
    decreases target - c.timer.prev
  {
    hide Silent, SilentExpiry, Generated, Expiries;
    var cycles := target - c.timer.prev;
    FirstExpiry(c, tick, cycles);
    if cycles > c.timer.timer {
      var d := TickOnce(c, tick);
      RunToGrows(d, tick, target);
      if SilentExpiry(c, tick, 0) {
        SilentStep(c, tick, cycles);
        DrainSilent(d, tick, target);
      }
    }
  }

  // ---- square channel ----

  datatype Square = Square(env: Envelope, first: bool, duty: u2, dutyPos: u3, sweepOn: bool, sweepPeriod: u8,
                           negate: bool, shift: u3, reloadSweep: bool, divider: u8, target: u32, period: u11)

  const DUTY: seq<seq<u4>> := [
    [0, 0, 0, 0, 0, 0, 0, 1], [0, 0, 0, 0, 0, 0, 1, 1], [0, 0, 0, 0, 1, 1, 1, 1], [1, 1, 1, 1, 1, 1, 0, 0]]

  predicate Muted(s: Square) { s.period < 8 || (!s.negate && s.target > 0x7FF) }

  function SquareLevel(s: Square): i8 {
    if Muted(s) || DUTY[s.duty][s.dutyPos] == 0 then 0 else Volume(s.env)
  }

  function SquareTick(s: Square): (Square, Option<i8>) {
    var d := s.(dutyPos := (s.dutyPos - 1) % 8);
    (d, Some(SquareLevel(d)))
  }

  function SweepTarget(period: u11, shift: u3, negate: bool, first: bool): u32 {
    var change := period / [1, 2, 4, 8, 16, 32, 64, 128][shift];
    if negate then (period - change - if first then 1 else 0) % 0x1_0000_0000 else period + change
  }

  function UpdateTarget(s: Square): Square { s.(target := SweepTarget(s.period, s.shift, s.negate, s.first)) }

  function SetSquarePeriod(c: Channel<Square>, period: u11): Channel<Square> {
    Channel(c.timer.(period := period * 2 + 1), UpdateTarget(c.gen.(period := period)))
  }

  function WriteSquareRegister(c: Channel<Square>, reg: u2, value: u8): Channel<Square> {
    var s := c.gen;
    match reg
    case 0 => c.(gen := s.(env := InitEnvelope(s.env, value), duty := value / 64))
    case 1 => c.(gen := UpdateTarget(s.(sweepOn := Bit(value, 7), negate := Bit(value, 3), reloadSweep := true,
                                        sweepPeriod := value / 16 % 8 + 1, shift := value % 8)))
    case 2 => SetSquarePeriod(c, s.period / 256 * 256 + value)
    case 3 =>
      SetSquarePeriod(c.(gen := s.(env := s.env.(len := LoadLength(s.env.len, value / 8), start := true),
                                   dutyPos := 0)),
                      s.period % 256 + value % 8 * 256)
  }

  function WriteSquare(c: Channel<Square>, reg: u2, value: u8): Channel<Square> {
    var d := WriteSquareRegister(c, reg, value);
    d.(timer := AddOutput(d.timer, SquareLevel(d.gen)))
  }

  function TickSweep(c: Channel<Square>): Channel<Square> {
    var s := c.gen;
    var divider := (s.divider - 1) % 256;
    var d := if divider == 0 && s.shift > 0 && s.sweepOn && s.period >= 8 && s.target <= 0x7FF
             then SetSquarePeriod(c, s.target) else c;
    d.(gen := d.gen.(divider := if divider == 0 || s.reloadSweep then s.sweepPeriod else divider,
                     reloadSweep := false))
  }

  // ---- triangle channel ----

  datatype Triangle = Triangle(len: Length, linear: u7, linearReload: u7, reloadFlag: bool, control: bool,
                               position: u5)

  const SEQUENCE: seq<i8> := [
    15, 14, 13, 12, 11, 10, 9, 8, 7, 6, 5, 4, 3, 2, 1, 0,
    0, 1, 2, 3, 4, 5, 6, 7, 8, 9, 10, 11, 12, 13, 14, 15]

  function TriangleTick(t: Triangle): (Triangle, Option<i8>) {
    var position := (t.position + 1) % 32;
    if t.len.counter > 0 && t.linear > 0 then (t.(position := position), Some(SEQUENCE[position])) else (t, None)
  }

  function WriteTriangle(c: Channel<Triangle>, reg: u2, value: u8): Channel<Triangle> {
    var t := c.gen;
    match reg
    case 0 => c.(gen := t.(control := Bit(value, 7), linearReload := value % 128,
                           len := InitLength(t.len, Bit(value, 7))))
    case 1 => c
    case 2 => c.(timer := c.timer.(period := c.timer.period / 256 * 256 + value))
    case 3 => Channel(c.timer.(period := c.timer.period % 256 + value % 8 * 256),
                      t.(len := LoadLength(t.len, value / 8), reloadFlag := true))
  }

  function TickLinear(t: Triangle): Triangle {
    t.(linear := if t.reloadFlag then t.linearReload else if t.linear > 0 then t.linear - 1 else 0,
       reloadFlag := t.reloadFlag && t.control)
  }

  // ---- noise channel ----

  /** The 15-bit feedback register never reaches the stuck state 0. */
  type Lfsr = x: int | 0 < x < 0x8000 witness 1

  datatype Noise = Noise(env: Envelope, lfsr: Lfsr, mode: bool)

  const NOISE_PERIODS: seq<u16> := [4, 8, 16, 32, 64, 96, 128, 160, 202, 254, 380, 508, 762, 1016, 2034, 4068]

  function LfsrStep(s: Lfsr, mode: bool): Lfsr {
    var feedback := (s % 2 + s / (if mode then 64 else 2) % 2) % 2;
    s / 2 + feedback * 0x4000
  }

  function NoiseTick(n: Noise): (Noise, Option<i8>) {
    var m := n.(lfsr := LfsrStep(n.lfsr, n.mode));
    (m, Some(if m.lfsr % 2 == 1 then 0 else Volume(m.env)))
  }

  function WriteNoise(c: Channel<Noise>, reg: u2, value: u8): Channel<Noise> {
    var n := c.gen;
    match reg
    case 0 => c.(gen := n.(env := InitEnvelope(n.env, value)))
    case 1 => c
    case 2 => Channel(c.timer.(period := NOISE_PERIODS[value % 16] - 1), n.(mode := Bit(value, 7)))
    case 3 => c.(gen := n.(env := n.env.(len := LoadLength(n.env.len, value / 8), start := true)))
  }

  /** No two register states lead to the same one, so every register state lies on a cycle. */
  lemma LfsrStepInjective(s: Lfsr, t: Lfsr, mode: bool)
    requires LfsrStep(s, mode) == LfsrStep(t, mode)
    ensures s == t
  {
    assert s / 2 < 0x4000 && t / 2 < 0x4000;
    assert s / 2 == t / 2;
    assert s / 64 == s / 2 / 32 && t / 64 == t / 2 / 32;
  }

  // ---- delta modulation channel ----

  datatype DmcCall = StartTransfer | StopTransfer

  type Bits = x: int | 1 <= x <= 8 witness 8
  type SampleLength = x: int | 0 < x < 0x1000 witness 1

  /** `irqLine` and `calls` are what the channel has asked of the CPU. */
  datatype Dpcm = Dpcm(sampleAddr: u16, sampleLength: SampleLength, level: u7, irqOn: bool, loop: bool, addr: u16,
                       bytes: u12, buffer: u8, empty: bool, shifter: u8, bits: Bits, silence: bool,
                       disableDelay: u2, startDelay: u2, irqLine: bool, calls: seq<DmcCall>)

  /** The channel and its request to be run on the next clock. */
  datatype Dmc = Dmc(core: Dpcm, needRun: bool)

  const DMC_PERIODS: seq<u16> := [428, 380, 340, 320, 286, 254, 226, 214, 190, 160, 142, 128, 106, 84, 72, 54]

  function StartTransferIfNeeded(d: Dpcm): Dpcm {
    if d.empty && d.bytes > 0 then d.(calls := d.calls + [StartTransfer]) else d
  }

  function ShiftLevel(d: Dpcm): Dpcm {
    if d.silence then d
    else d.(shifter := d.shifter / 2,
            level := if d.shifter % 2 == 1 then (if d.level <= 125 then d.level + 2 else d.level)
                     else if d.level >= 2 then d.level - 2 else d.level)
  }

  /** The last bit of a byte has been shifted out and the next byte is there. */
  predicate TakesByte(d: Dpcm) { d.bits == 1 && !d.empty }

  function ShiftBits(d: Dpcm): Dpcm {
    if d.bits > 1 then d.(bits := d.bits - 1)
    else if d.empty then d.(bits := 8, silence := true)
    else
      var e := d.(bits := 8, silence := false, shifter := d.buffer, empty := true);
      if e.startDelay == 0 then StartTransferIfNeeded(e) else e
  }

  function DmcTick(d: Dmc): (Dmc, Option<i8>) {
    var e := ShiftBits(ShiftLevel(d.core));
    (Dmc(e, d.needRun || TakesByte(d.core)), Some(e.level))
  }

  function InitSample(d: Dpcm): Dpcm { d.(addr := d.sampleAddr, bytes := d.sampleLength) }

  function TakeSample(d: Dpcm, value: u8): Dpcm
    requires d.bytes > 0
  {
    d.(buffer := value, empty := false, addr := if d.addr == 0xFFFF then 0x8000 else d.addr + 1, bytes := d.bytes - 1)
  }

  /** set_dmc_read_buffer: a sample byte arrives from the DMA engine. */
  function Refill(d: Dmc, value: u8): Dmc {
    if d.core.bytes == 0 then d
    else
      var e := TakeSample(d.core, value);
      if e.bytes > 0 then d.(core := e)
      else if e.loop then Dmc(InitSample(e), true)
      else d.(core := if e.irqOn then e.(irqLine := true) else e)
  }

  function WriteDmc(c: Channel<Dmc>, reg: u2, value: u8): Channel<Dmc> {
    var d := c.gen.core;
    match reg
    case 0 => Channel(c.timer.(period := DMC_PERIODS[value % 16] - 1),
                      c.gen.(core := d.(irqOn := Bit(value, 7), loop := Bit(value, 6),
                                        irqLine := d.irqLine && Bit(value, 7))))
    case 1 => Channel(AddOutput(c.timer, value % 128), c.gen.(core := d.(level := value % 128)))
    case 2 => c.(gen := c.gen.(core := d.(sampleAddr := 0xC000 + value * 64)))
    case 3 => c.(gen := c.gen.(core := d.(sampleLength := value * 16 + 1)))
  }

  function EnableDmc(d: Dmc, on: bool, oddCycle: bool): Dmc {
    var delay := if oddCycle then 3 else 2;
    if !on then Dmc(d.core.(disableDelay := if d.core.disableDelay == 0 then delay else d.core.disableDelay), true)
    else if d.core.bytes == 0 then Dmc(InitSample(d.core).(startDelay := delay), true)
    else d
  }

  function StepDisable(d: Dpcm): Dpcm {
    if d.disableDelay == 1 then d.(disableDelay := 0, bytes := 0, calls := d.calls + [StopTransfer])
    else if d.disableDelay > 1 then d.(disableDelay := d.disableDelay - 1) else d
  }

  function StepStart(d: Dpcm): Dpcm {
    if d.startDelay == 1 then StartTransferIfNeeded(d.(startDelay := 0))
    else if d.startDelay > 1 then d.(startDelay := d.startDelay - 1) else d
  }

  /** No byte to fetch and no delay running: the clock has nothing to do. */
  predicate Idle(d: Dpcm) { d.bytes == 0 && d.disableDelay == 0 && d.startDelay == 0 }

  /** process_clock: the enable and disable delays of $4015, once per CPU cycle. */
  function ProcessDmcClock(d: Dmc): Dmc {
    var e := StepStart(StepDisable(d.core));
    Dmc(e, !Idle(e))
  }

  /** irq_pending: the product is taken modulo 2^32, as the source's unsigned arithmetic does. */
  predicate DmcIrqPending(c: Channel<Dmc>, cycles: nat) {
    var d := c.gen.core;
    d.irqOn && d.bytes > 0 && cycles >= (d.bits + (d.bytes - 1) * 8) * c.timer.period % 0x1_0000_0000
  }

  function Unflagged(c: Channel<Dmc>): Channel<Dmc> { c.(gen := c.gen.(needRun := false)) }

  /** The run request flag never influences the drain. */
  lemma {:induction false} FlagIrrelevant(c: Channel<Dmc>, d: Channel<Dmc>, target: nat)
    requires Unflagged(c) == Unflagged(d) && c.timer.prev <= target
    ensures Unflagged(RunTo(c, DmcTick, target)) == Unflagged(RunTo(d, DmcTick, target))
    decreases target - c.timer.prev
  {
    if target - c.timer.prev > c.timer.timer {
      FlagIrrelevant(TickOnce(c, DmcTick), TickOnce(d, DmcTick), target);
    }
  }

  /** Draining never touches the byte counter or the delays. */
  lemma {:induction false} DrainKeepsDelays(c: Channel<Dmc>, target: nat)
    requires c.timer.prev <= target
    ensures var d := RunTo(c, DmcTick, target).gen;
            Idle(d.core) == Idle(c.gen.core) && (c.gen.needRun ==> d.needRun)
    decreases target - c.timer.prev
  {
    if target - c.timer.prev > c.timer.timer { DrainKeepsDelays(TickOnce(c, DmcTick), target); }
  }
}
