/** The frame counter and the APU as values: one call of each source function, and the reference
    APU that runs on every CPU cycle. */
module ApuModel {
  import opened Types
  import opened ApuChannels

  // ---- frame counter ----

  datatype FrameType = NoTick | Quarter | Half

  type StepIndex = x: int | 0 <= x < 6
  type StepMode = x: int | 0 <= x < 2

  function StepCycle(mode: StepMode, step: StepIndex): nat {
    match step
    case 0 => 7457
    case 1 => 14913
    case 2 => 22371
    case 3 => if mode == 0 then 29828 else 29829
    case 4 => if mode == 0 then 29829 else 37281
    case 5 => if mode == 0 then 29830 else 37282
  }

  function StepType(step: StepIndex): FrameType {
    if step == 0 || step == 2 then Quarter else if step == 1 || step == 4 then Half else NoTick
  }

  /** ApuFrameCounter; `irqLine` is the CPU's FRAME_COUNTER interrupt source. */
  datatype FrameCounter = FrameCounter(pos: int, step: StepIndex, mode: StepMode, inhibit: bool, block: u8,
                                       newValue: int, delay: i8, irqFlag: bool, irqLine: bool)

  function NextStep(f: FrameCounter): nat { StepCycle(f.mode, f.step) }

  predicate WriteOk(f: FrameCounter) { f.newValue < 256 && (f.newValue >= 0 ==> 1 <= f.delay <= 4) }

  predicate FrameOk(f: FrameCounter) { 0 <= f.pos < NextStep(f) && WriteOk(f) }

  datatype FrameRun = FrameRun(fc: FrameCounter, ran: nat, tick: FrameType)

  /** The step that is due: interrupt flag, tick, and position on to the next step. */
  function TakeStep(f: FrameCounter): (r: FrameRun)
    requires FrameOk(f)
    ensures FrameOk(r.fc)
  {
    var irq := f.mode == 0 && f.step >= 3;
    var flagged := if !irq then f
                   else f.(irqFlag := !(f.inhibit && f.step == 5), irqLine := f.irqLine || !f.inhibit);
    var tick := if f.block == 0 then StepType(f.step) else NoTick;
    var ticked := if tick == NoTick then flagged else flagged.(block := 2);
    FrameRun(if f.step == 5 then ticked.(step := 0, pos := 0) else ticked.(step := f.step + 1, pos := NextStep(f)),
             NextStep(f) - f.pos, tick)
  }

  /** The delayed $4017 write, counted down once per call. */
  function DeliverWrite(r: FrameRun): (d: FrameRun)
    requires FrameOk(r.fc)
    ensures FrameOk(d.fc) && d.ran == r.ran
  {
    if r.fc.newValue < 0 then r
    else if r.fc.delay > 1 then r.(fc := r.fc.(delay := r.fc.delay - 1))
    else
      var mode := if Bit(r.fc.newValue, 7) then 1 else 0;
      var f := r.fc.(mode := mode, delay := -1, step := 0, pos := 0, newValue := -1);
      if mode == 1 && f.block == 0 then FrameRun(f.(block := 2), r.ran, Half) else r.(fc := f)
  }

  function AdvanceFrame(f: FrameCounter, cycles: nat): (r: FrameRun)
    requires FrameOk(f) && cycles > 0
    ensures FrameOk(r.fc) && 1 <= r.ran <= cycles
  {
    if f.pos + cycles >= NextStep(f) then TakeStep(f) else FrameRun(f.(pos := f.pos + cycles), cycles, NoTick)
  }

  function RunFrame(f: FrameCounter, cycles: nat): (r: FrameRun)
    requires FrameOk(f) && cycles > 0
    ensures FrameOk(r.fc) && 1 <= r.ran <= cycles
  {
    var d := DeliverWrite(AdvanceFrame(f, cycles));
    d.(fc := d.fc.(block := if d.fc.block > 0 then d.fc.block - 1 else 0))
  }

  predicate FrameNeedsRun(f: FrameCounter, cycles: nat) {
    f.newValue >= 0 || f.block > 0 || f.pos + cycles >= NextStep(f) - 1
  }

  function WriteFrame(f: FrameCounter, value: u8, oddCycle: bool): (g: FrameCounter)
    ensures FrameOk(f) ==> FrameOk(g)
  {
    f.(newValue := value, delay := if oddCycle then 4 else 3, inhibit := Bit(value, 6),
       irqLine := f.irqLine && !Bit(value, 6), irqFlag := f.irqFlag && !Bit(value, 6))
  }

  // ---- the five channels together ----

  datatype Channels = Channels(sq1: Channel<Square>, sq2: Channel<Square>, tri: Channel<Triangle>,
                               noi: Channel<Noise>, dmc: Channel<Dmc>)

  /** All five channels have been drained to the same cycle. */
  predicate At(c: Channels, cycle: nat) {
    c.sq1.timer.prev == c.sq2.timer.prev == c.tri.timer.prev == c.noi.timer.prev == c.dmc.timer.prev == cycle
  }

  function TickQuarter(c: Channels): Channels {
    Channels(c.sq1.(gen := c.sq1.gen.(env := TickEnvelope(c.sq1.gen.env))),
             c.sq2.(gen := c.sq2.gen.(env := TickEnvelope(c.sq2.gen.env))),
             c.tri.(gen := TickLinear(c.tri.gen)),
             c.noi.(gen := c.noi.gen.(env := TickEnvelope(c.noi.gen.env))), c.dmc)
  }

  function OnSquareLength(c: Channel<Square>, l: Length): Channel<Square> {
    c.(gen := c.gen.(env := c.gen.env.(len := l)))
  }

  function OnNoiseLength(c: Channel<Noise>, l: Length): Channel<Noise> {
    c.(gen := c.gen.(env := c.gen.env.(len := l)))
  }

  function OnTriangleLength(c: Channel<Triangle>, l: Length): Channel<Triangle> { c.(gen := c.gen.(len := l)) }

  /** The four length counters, and their replacement. */
  datatype Lengths = Lengths(sq1: Length, sq2: Length, tri: Length, noi: Length)

  function GetLengths(c: Channels): Lengths {
    Lengths(c.sq1.gen.env.len, c.sq2.gen.env.len, c.tri.gen.len, c.noi.gen.env.len)
  }

  function SetLengths(c: Channels, l: Lengths): Channels {
    Channels(OnSquareLength(c.sq1, l.sq1), OnSquareLength(c.sq2, l.sq2), OnTriangleLength(c.tri, l.tri),
             OnNoiseLength(c.noi, l.noi), c.dmc)
  }

  function MapLengths(l: Lengths, f: Length -> Length): Lengths { Lengths(f(l.sq1), f(l.sq2), f(l.tri), f(l.noi)) }

  predicate AllSettled(l: Lengths) { Settled(l.sq1) && Settled(l.sq2) && Settled(l.tri) && Settled(l.noi) }

  function FrameTick(c: Channels, tick: FrameType): (d: Channels)
    ensures forall cycle :: At(c, cycle) ==> At(d, cycle)
    ensures d.dmc == c.dmc
  {
    match tick
    case NoTick => c
    case Quarter => TickQuarter(c)
    case Half =>
      var t := TickQuarter(c);
      var l := SetLengths(t, MapLengths(GetLengths(t), TickLength));
      l.(sq1 := TickSweep(l.sq1), sq2 := TickSweep(l.sq2))
  }

  function ReloadLengths(c: Channels): (d: Channels)
    ensures forall cycle :: At(c, cycle) ==> At(d, cycle)
    ensures d.dmc == c.dmc && AllSettled(GetLengths(d))
    ensures AllSettled(GetLengths(c)) ==> d == c
  {
    SetLengths(c, MapLengths(GetLengths(c), ReloadLength))
  }

  /** Drain all five channels to a common cycle. */
  function Drain(c: Channels, from: nat, target: nat): (d: Channels)
    requires At(c, from) && from <= target
    ensures At(d, target)
  {
    Channels(RunTo(c.sq1, SquareTick, target), RunTo(c.sq2, SquareTick, target), RunTo(c.tri, TriangleTick, target),
             RunTo(c.noi, NoiseTick, target), RunTo(c.dmc, DmcTick, target))
  }

  function PollDmc(c: Channels): Channels { c.(dmc := c.dmc.(gen := ProcessDmcClock(c.dmc.gen))) }

  function Rewind<G>(c: Channel<G>): Channel<G> { c.(timer := c.timer.(prev := 0, out := [])) }

  function RewindAll(c: Channels): (d: Channels)
    ensures At(d, 0)
  {
    Channels(Rewind(c.sq1), Rewind(c.sq2), Rewind(c.tri), Rewind(c.noi), Rewind(c.dmc))
  }

  // ---- the APU ----

  datatype AudioFrame = AudioFrame(cycles: nat, square1: seq<Delta>, square2: seq<Delta>, triangle: seq<Delta>,
                                   noise: seq<Delta>, dmc: seq<Delta>)

  function Collect(c: Channels, cycles: nat): AudioFrame {
    AudioFrame(cycles, c.sq1.timer.out, c.sq2.timer.out, c.tri.timer.out, c.noi.timer.out, c.dmc.timer.out)
  }

  /** NesApu. `frames` lists what each end of frame handed to the mixer. */
  datatype Apu = Apu(enabled: bool, needToRun: bool, prev: nat, cur: nat, ch: Channels, fc: FrameCounter,
                     frames: seq<AudioFrame>)

  predicate Valid(s: Apu) { s.prev <= s.cur < CYCLE_LENGTH && FrameOk(s.fc) && At(s.ch, s.prev) }

  /** One turn of the catch-up loop. */
  function RunOnce(s: Apu): (t: Apu)
    requires Valid(s) && s.prev < s.cur
    ensures Valid(t) && s.prev < t.prev && t.cur == s.cur
  {
    var r := RunFrame(s.fc, s.cur - s.prev);
    s.(fc := r.fc, prev := s.prev + r.ran,
       ch := Drain(ReloadLengths(FrameTick(s.ch, r.tick)), s.prev, s.prev + r.ran))
  }

  /** run(): catch up with the current cycle. */
  function Run(s: Apu): (t: Apu)
    requires Valid(s)
    ensures Valid(t) && t.prev == t.cur == s.cur
    decreases s.cur - s.prev
  {
    if s.prev < s.cur then Run(RunOnce(s)) else s
  }

  function Poll(s: Apu): Apu { s.(ch := PollDmc(s.ch)) }

  function Flush(s: Apu): Apu {
    s.(frames := s.frames + [Collect(s.ch, s.cur)], ch := RewindAll(s.ch), prev := 0, cur := 0)
  }

  /** end_frame(): a DMC clock, a catch-up, then the deltas go to the mixer and time restarts at 0. */
  function EndFrame(s: Apu): (t: Apu)
    requires Valid(s)
    ensures Valid(t) && t.prev == t.cur == 0
  {
    Flush(Run(Poll(s)))
  }

  predicate InFrame(s: Apu) { Valid(s) && s.cur < CYCLE_LENGTH - 1 }

  /** need_to_run() polls the DMC delays when the DMC's flag is up, and consumes the run request. */
  function PollIfFlagged(s: Apu): (t: Apu)
    ensures Valid(s) ==> Valid(t) && t.cur == s.cur
  {
    if s.ch.dmc.gen.needRun then Poll(s) else s
  }

  function ConsumeRequest(s: Apu): Apu { s.(needToRun := false) }

  /** What need_to_run() answers in a state that has been polled. */
  predicate RunDue(s: Apu)
    requires s.prev <= s.cur
  {
    s.ch.dmc.gen.needRun || s.needToRun
    || FrameNeedsRun(s.fc, s.cur - s.prev) || DmcIrqPending(s.ch.dmc, s.cur - s.prev)
  }

  /** process_cpu_clock(): catch up only when `need_to_run` says so. */
  function LazyClock(s: Apu): (t: Apu)
    requires InFrame(s)
    ensures InFrame(t)
  {
    if !s.enabled then s
    else
      var c := s.(cur := s.cur + 1);
      if c.cur == CYCLE_LENGTH - 1 then EndFrame(c)
      else
        var p := PollIfFlagged(c);
        if RunDue(p) then Run(ConsumeRequest(p)) else ConsumeRequest(p)
  }

  /** The reference: every clock steps the DMC delays and runs everything for one cycle. */
  function EagerClock(s: Apu): (t: Apu)
    requires InFrame(s)
    ensures InFrame(t)
  {
    if !s.enabled then s
    else
      var c := s.(cur := s.cur + 1);
      if c.cur == CYCLE_LENGTH - 1 then EndFrame(c) else Run(Poll(c))
  }

  // ---- bus accesses ----

  function EnableLengths(l: Lengths, value: u8): Lengths {
    Lengths(EnableLength(l.sq1, Bit(value, 0)), EnableLength(l.sq2, Bit(value, 1)),
            EnableLength(l.tri, Bit(value, 2)), EnableLength(l.noi, Bit(value, 3)))
  }

  function ClearDmcLine(c: Channels): Channels {
    c.(dmc := c.dmc.(gen := c.dmc.gen.(core := c.dmc.gen.core.(irqLine := false))))
  }

  /** A write to $4015. */
  function Enable(c: Channels, value: u8, oddCycle: bool): (d: Channels)
    ensures forall cycle :: At(c, cycle) ==> At(d, cycle)
  {
    var cleared := ClearDmcLine(c);
    var e := SetLengths(cleared, EnableLengths(GetLengths(cleared), value));
    e.(dmc := e.dmc.(gen := EnableDmc(e.dmc.gen, Bit(value, 4), oddCycle)))
  }

  predicate IsChannelRegister(addr: u16) { 0x4000 <= addr <= 0x4013 }

  function WriteChannel(c: Channels, addr: u16, value: u8): (d: Channels)
    requires IsChannelRegister(addr)
    ensures forall cycle :: At(c, cycle) ==> At(d, cycle)
  {
    var reg := addr % 4;
    if addr < 0x4004 then c.(sq1 := WriteSquare(c.sq1, reg, value))
    else if addr < 0x4008 then c.(sq2 := WriteSquare(c.sq2, reg, value))
    else if addr < 0x400C then c.(tri := WriteTriangle(c.tri, reg, value))
    else if addr < 0x4010 then c.(noi := WriteNoise(c.noi, reg, value))
    else c.(dmc := WriteDmc(c.dmc, reg, value))
  }

  /** initialize_length_counter always, and load_length_counter when enabled, request a run. */
  predicate RequestsRun(l: Lengths, addr: u16)
    requires IsChannelRegister(addr)
  {
    var reg := addr % 4;
    addr < 0x4010 && (reg == 0 || (reg == 3 && (if addr < 0x4004 then l.sq1 else if addr < 0x4008 then l.sq2
                                                else if addr < 0x400C then l.tri else l.noi).enabled))
  }

  /** write_ram: every write it handles is preceded by a catch-up. */
  function Write(s: Apu, addr: u16, value: u8, oddCycle: bool): (t: Apu)
    requires Valid(s)
    ensures Valid(t) && t.cur == s.cur && (t == s || t.prev == t.cur)
  {
    if addr == 0x4015 then var r := Run(s); r.(ch := Enable(r.ch, value, oddCycle))
    else if addr == 0x4017 then var r := Run(s); r.(fc := WriteFrame(r.fc, value, oddCycle))
    else if IsChannelRegister(addr) then
      var r := Run(s);
      r.(ch := WriteChannel(r.ch, addr, value), needToRun := r.needToRun || RequestsRun(GetLengths(r.ch), addr))
    else s
  }

  datatype ReadResult = Status(sq1: bool, sq2: bool, tri: bool, noi: bool, dmc: bool, frameIrq: bool, dmcIrq: bool)
                      | Levels(low: i8, high: i8) | Nothing

  function Observe(s: Apu, addr: u16): ReadResult {
    if addr == 0x4015 then
      var l := GetLengths(s.ch);
      Status(l.sq1.counter > 0, l.sq2.counter > 0, l.tri.counter > 0, l.noi.counter > 0, s.ch.dmc.gen.core.bytes > 0,
             s.fc.irqFlag, s.ch.dmc.gen.core.irqLine)
    else if addr == 0x4018 then Levels(s.ch.sq1.timer.last, s.ch.sq2.timer.last)
    else if addr == 0x4019 then Levels(s.ch.tri.timer.last, s.ch.noi.timer.last)
    else if addr == 0x401A then Levels(s.ch.dmc.timer.last, 0)
    else Nothing
  }

  /** read_ram: catch up, then look; $4015 also drops the frame interrupt line. */
  function Read(s: Apu, addr: u16): (t: (Apu, ReadResult))
    requires Valid(s)
    ensures Valid(t.0) && t.0.prev == t.0.cur == s.cur
  {
    var r := Run(s);
    (if addr == 0x4015 then r.(fc := r.fc.(irqLine := false)) else r, Observe(r, addr))
  }

  function RefillDmc(s: Apu, value: u8): Apu {
    s.(ch := s.ch.(dmc := s.ch.dmc.(gen := Refill(s.ch.dmc.gen, value))))
  }

  // ---- reset ----

  function ResetTimer(t: Timer): Timer { Timer(0, 0, 0, 0, t.out) }

  /** A soft reset disables the channel; the triangle keeps its length counter otherwise. */
  function ResetLength(l: Length, soft: bool, triangle: bool): Length {
    if soft && triangle then l.(enabled := false) else Length(false, false, false, 0, 0, 0)
  }

  function ResetEnvelope(e: Envelope, soft: bool): Envelope {
    Envelope(ResetLength(e.len, soft, false), false, 0, false, 0, 0)
  }

  function ResetGenerator(s: Square, soft: bool): Square {
    Square(ResetEnvelope(s.env, soft), s.first, 0, 0, false, 0, false, 0, false, 0, 0, 0)
  }

  function ResetSquare(c: Channel<Square>, soft: bool): Channel<Square> {
    Channel(ResetTimer(c.timer), UpdateTarget(ResetGenerator(c.gen, soft)))
  }

  function ResetTriangle(c: Channel<Triangle>, soft: bool): Channel<Triangle> {
    Channel(ResetTimer(c.timer), Triangle(ResetLength(c.gen.len, soft, true), 0, 0, false, false, 0))
  }

  function ResetNoise(c: Channel<Noise>, soft: bool): Channel<Noise> {
    Channel(ResetTimer(c.timer).(period := NOISE_PERIODS[0] - 1), Noise(ResetEnvelope(c.gen.env, soft), 1, false))
  }

  function ResetDpcm(d: Dpcm, soft: bool): Dpcm {
    Dpcm(if soft then d.sampleAddr else 0xC000, if soft then d.sampleLength else 1, 0, false, false, 0, 0,
         0, true, 0, 8, true, 0, 0, d.irqLine, d.calls)
  }

  function ResetDmc(c: Channel<Dmc>, soft: bool): Channel<Dmc> {
    Channel(ResetTimer(c.timer).(period := DMC_PERIODS[0] - 1, timer := DMC_PERIODS[0] - 1),
            Dmc(ResetDpcm(c.gen.core, soft), false))
  }

  function ResetFrame(f: FrameCounter, soft: bool): FrameCounter {
    var mode := if soft then f.mode else 0;
    FrameCounter(0, 0, mode, false, 0, if mode == 1 then 0x80 else 0, 3, false, f.irqLine)
  }

  function ResetChannels(c: Channels, soft: bool): Channels {
    Channels(ResetSquare(c.sq1, soft), ResetSquare(c.sq2, soft), ResetTriangle(c.tri, soft), ResetNoise(c.noi, soft),
             ResetDmc(c.dmc, soft))
  }

  /** reset(): the run request, the CPU's lines and what the mixer holds stay as they are. */
  function Reset(s: Apu, soft: bool): (t: Apu)
    ensures InFrame(t)
  {
    s.(enabled := true, prev := 0, cur := 0, ch := ResetChannels(s.ch, soft), fc := ResetFrame(s.fc, soft))
  }
}
