/** The APU's objects. Each method updates its fields as the source does and is proved to take the
    object's state to what the functions of ApuChannels and ApuModel say. */
module ApuDevices {
  import opened Types
  import opened ApuChannels
  import opened ApuModel

  /** The part of the CPU the APU talks to: two interrupt sources, DMA requests, and the cycle parity. */
  class CpuPort {
    var frameIrq: bool
    var dmcIrq: bool
    var calls: seq<DmcCall>
    var oddCycle: bool
  }

  /** `need_to_run_`, which the length counters set through their pointer to the APU. */
  class RunRequest {
    var needToRun: bool

    constructor ()
      ensures !needToRun
    {
      needToRun := false;
    }
  }

  class ApuTimer {
    var previousCycle: nat
    var timer: u16
    var period: u16
    var lastOutput: i8
    var out: seq<Delta>

    constructor ()
      ensures State() == Timer(0, 0, 0, 0, [])
    {
      previousCycle, timer, period, lastOutput, out := 0, 0, 0, 0, [];
    }

    method Reset()
      modifies this
      ensures State() == ResetTimer(old(State()))
    {
      previousCycle, timer, period, lastOutput := 0, 0, 0, 0;
    }

    function State(): Timer
      reads this
    {
      Timer(previousCycle, timer, period, lastOutput, out)
    }

    method AddOutput(output: i8)
      modifies this
      ensures State() == ApuChannels.AddOutput(old(State()), output)
    {
      if output != lastOutput {
        out := out + [Delta(previousCycle, output - lastOutput)];
        lastOutput := output;
      }
    }

    method Run(target: nat) returns (expired: bool)
      requires previousCycle <= target
      modifies this
      ensures expired == (target - old(previousCycle) > old(timer))
      ensures State() == if expired then Expire(old(State())) else Coast(old(State()), target)
    {
      var cyclesToRun := target - previousCycle;
      if cyclesToRun > timer {
        previousCycle := previousCycle + timer + 1;
        timer := period;
        return true;
      }
      timer := timer - cyclesToRun;
      previousCycle := target;
      return false;
    }

    method EndFrame()
      modifies this
      ensures State() == old(State()).(prev := 0, out := [])
    {
      previousCycle := 0;
      out := [];
    }
  }

  class ApuLengthCounter {
    const apu: RunRequest
    var newHaltValue: bool
    var enabled: bool
    var halt: bool
    var counter: u8
    var reloadValue: u8
    var previousValue: u8

    const isTriangle: bool

    constructor (apu: RunRequest, isTriangle: bool)
      ensures this.apu == apu && this.isTriangle == isTriangle
    {
      this.apu := apu;
      this.isTriangle := isTriangle;
      newHaltValue, enabled, halt, counter, reloadValue, previousValue := false, false, false, 0, 0, 0;
    }

    method Reset(soft: bool)
      modifies this
      ensures State() == ResetLength(old(State()), soft, isTriangle)
    {
      enabled := false;
      if !soft || !isTriangle {
        halt := false;
        counter := 0;
        newHaltValue := false;
        reloadValue := 0;
        previousValue := 0;
      }
    }

    function State(): Length
      reads this
    {
      Length(newHaltValue, enabled, halt, counter, reloadValue, previousValue)
    }

    method Initialize(haltFlag: bool)
      modifies this, apu
      ensures State() == InitLength(old(State()), haltFlag) && apu.needToRun
    {
      apu.needToRun := true;
      newHaltValue := haltFlag;
    }

    method Load(value: u5)
      modifies this, apu
      ensures State() == LoadLength(old(State()), value)
      ensures apu.needToRun == (old(apu.needToRun) || old(enabled))
    {
      if enabled {
        reloadValue := LENGTH_TABLE[value];
        previousValue := counter;
        apu.needToRun := true;
      }
    }

    method ReloadCounter()
      modifies this
      ensures State() == ReloadLength(old(State()))
    {
      if reloadValue != 0 {
        if counter == previousValue {
          counter := reloadValue;
        }
        reloadValue := 0;
      }
      halt := newHaltValue;
    }

    method Tick()
      modifies this
      ensures State() == TickLength(old(State()))
    {
      if counter > 0 && !halt {
        counter := counter - 1;
      }
    }

    method SetEnabled(on: bool)
      modifies this
      ensures State() == EnableLength(old(State()), on)
    {
      if !on {
        counter := 0;
      }
      enabled := on;
    }
  }

  class ApuEnvelope {
    const lengthCounter: ApuLengthCounter
    var constantVolume: bool
    var volume: u4
    var start: bool
    var divider: i8
    var counter: u4

    constructor (apu: RunRequest)
      ensures Valid() && fresh(lengthCounter) && lengthCounter.apu == apu
    {
      lengthCounter := new ApuLengthCounter(apu, false);
      constantVolume, volume, start, divider, counter := false, 0, false, 0, 0;
    }

    method Reset(soft: bool)
      requires Valid()
      modifies this, lengthCounter
      ensures Valid() && State() == ApuModel.ResetEnvelope(old(State()), soft)
    {
      lengthCounter.Reset(soft);
      constantVolume, volume, start, divider, counter := false, 0, false, 0, 0;
    }

    predicate Valid()
      reads this
    {
      0 <= divider < 16 && !lengthCounter.isTriangle
    }

    function State(): Envelope
      reads this, lengthCounter
      requires Valid()
    {
      Envelope(lengthCounter.State(), constantVolume, volume, start, divider, counter)
    }

    method Initialize(regValue: u8)
      requires Valid()
      modifies this, lengthCounter, lengthCounter.apu
      ensures Valid() && State() == InitEnvelope(old(State()), regValue) && lengthCounter.apu.needToRun
    {
      lengthCounter.Initialize(Bit(regValue, 5));
      constantVolume := Bit(regValue, 4);
      volume := regValue % 16;
    }

    method ResetEnvelope()
      requires Valid()
      modifies this
      ensures Valid() && State() == old(State()).(start := true)
    {
      start := true;
    }

    method Tick()
      requires Valid()
      modifies this
      ensures Valid() && State() == TickEnvelope(old(State()))
    {
      if !start {
        divider := divider - 1;
        if divider < 0 {
          divider := volume;
          if counter > 0 {
            counter := counter - 1;
          } else if lengthCounter.halt {
            counter := 15;
          }
        }
      } else {
        start := false;
        counter := 15;
        divider := volume;
      }
    }
  }

  class SquareChannel {
    const envelope: ApuEnvelope
    const timer: ApuTimer
    const isChannel1: bool
    var duty: u2
    var dutyPos: u3
    var sweepEnabled: bool
    var sweepPeriod: u8
    var sweepNegate: bool
    var sweepShift: u3
    var reloadSweep: bool
    var sweepDivider: u8
    var sweepTargetPeriod: u32
    var realPeriod: u11

    constructor (apu: RunRequest, isChannel1: bool, ghost others: set<object>)
      ensures Repr() !! others
      ensures Valid() && fresh(Repr()) && envelope.lengthCounter.apu == apu && timer.out == []
    {
      envelope := new ApuEnvelope(apu);
      timer := new ApuTimer();
      this.isChannel1 := isChannel1;
      duty, dutyPos, realPeriod, sweepEnabled, sweepPeriod, sweepNegate := 0, 0, 0, false, 0, false;
      sweepShift, reloadSweep, sweepDivider, sweepTargetPeriod := 0, false, 0, 0;
    }

    method Reset(soft: bool)
      requires Valid()
      modifies Repr()
      ensures Valid() && State() == ResetSquare(old(State()), soft)
    {
      hide UpdateTarget, ResetGenerator;
      ResetRegisters(soft);
      timer.Reset();
      UpdateTargetPeriod();
    }

    method ResetRegisters(soft: bool)
      requires Valid()
      modifies this, envelope, envelope.lengthCounter
      ensures Valid() && Gen() == ResetGenerator(old(Gen()), soft)
    {
      hide ApuModel.ResetEnvelope;
      envelope.Reset(soft);
      duty, dutyPos, realPeriod, sweepEnabled, sweepPeriod, sweepNegate := 0, 0, 0, false, 0, false;
      sweepShift, reloadSweep, sweepDivider, sweepTargetPeriod := 0, false, 0, 0;
    }

    function Repr(): set<object> { {this, envelope, envelope.lengthCounter, timer} }

    predicate Valid()
      reads Repr()
    {
      envelope.Valid()
    }

    function Gen(): Square
      reads Repr()
      requires Valid()
    {
      Square(envelope.State(), isChannel1, duty, dutyPos, sweepEnabled, sweepPeriod, sweepNegate, sweepShift,
             reloadSweep, sweepDivider, sweepTargetPeriod, realPeriod)
    }

    function State(): Channel<Square>
      reads Repr()
      requires Valid()
    {
      Channel(timer.State(), Gen())
    }

    method UpdateOutput()
      requires Valid()
      modifies timer
      ensures Gen() == old(Gen()) && timer.State() == ApuChannels.AddOutput(old(timer.State()), SquareLevel(Gen()))
    {
      if realPeriod < 8 || (!sweepNegate && sweepTargetPeriod > 0x7FF) {
        timer.AddOutput(0);
      } else {
        var volume := Volume(envelope.State());
        timer.AddOutput(if DUTY[duty][dutyPos] == 0 then 0 else volume);
      }
    }

    /** The body of the drain loop. */
    method AdvanceDuty()
      requires Valid()
      modifies this, timer
      ensures Valid() && (Gen(), Some(timer.lastOutput)) == SquareTick(old(Gen()))
      ensures timer.State() == ApuChannels.AddOutput(old(timer.State()), timer.lastOutput)
    {
      hide SquareLevel;
      dutyPos := (dutyPos - 1) % 8;
      UpdateOutput();
    }

    method Run(target: nat)
      requires Valid() && timer.previousCycle <= target
      modifies Repr()
      ensures Valid() && State() == RunTo(old(State()), SquareTick, target)
    {
      hide SquareTick, ApuChannels.AddOutput;
      while true
        invariant Valid() && timer.previousCycle <= target
        invariant RunTo(State(), SquareTick, target) == old(RunTo(State(), SquareTick, target))
        decreases target - timer.previousCycle
        modifies this, timer
      {
        ghost var before := State();
        var expired := timer.Run(target);
        if !expired {
          break;
        }
        AdvanceDuty();
        assert State() == TickOnce(before, SquareTick);
      }
    }

    method UpdateTargetPeriod()
      requires Valid()
      modifies this
      ensures Valid() && Gen() == UpdateTarget(old(Gen()))
    {
      var shiftResult: nat := realPeriod / [1, 2, 4, 8, 16, 32, 64, 128][sweepShift];
      assert shiftResult <= realPeriod;
      if sweepNegate {
        sweepTargetPeriod := realPeriod - shiftResult;
        if isChannel1 {
          sweepTargetPeriod := (sweepTargetPeriod - 1) % 0x1_0000_0000;
        }
      } else {
        sweepTargetPeriod := realPeriod + shiftResult;
      }
    }

    method SetPeriod(newPeriod: u11)
      requires Valid()
      modifies this, timer
      ensures Valid() && State() == SetSquarePeriod(old(State()), newPeriod)
    {
      realPeriod := newPeriod;
      timer.period := realPeriod * 2 + 1;
      UpdateTargetPeriod();
    }

    method InitializeSweep(regValue: u8)
      requires Valid()
      modifies this
      ensures Valid() && State() == WriteSquareRegister(old(State()), 1, regValue)
    {
      sweepEnabled := Bit(regValue, 7);
      sweepNegate := Bit(regValue, 3);
      sweepPeriod := regValue / 16 % 8 + 1;
      sweepShift := regValue % 8;
      UpdateTargetPeriod();
      reloadSweep := true;
    }

    /** The register switch of write_ram. */
    method WriteRegister(addr: u16, value: u8)
      requires Valid()
      modifies Repr(), envelope.lengthCounter.apu
      ensures Valid() && State() == WriteSquareRegister(old(State()), addr % 4, value)
      ensures var apu := envelope.lengthCounter.apu;
              apu.needToRun == (old(apu.needToRun) || addr % 4 == 0
                                || (addr % 4 == 3 && old(envelope.lengthCounter.enabled)))
    {
      hide SweepTarget, ApuChannels.AddOutput;
      match addr % 4 {
        case 0 =>
          envelope.Initialize(value);
          duty := value / 64;
        case 1 =>
          InitializeSweep(value);
        case 2 =>
          SetPeriod(realPeriod / 256 * 256 + value);
        case 3 =>
          envelope.lengthCounter.Load(value / 8);
          SetPeriod(realPeriod % 256 + value % 8 * 256);
          dutyPos := 0;
          envelope.ResetEnvelope();
      }
    }

    method WriteRam(addr: u16, value: u8)
      requires Valid()
      modifies Repr(), envelope.lengthCounter.apu
      ensures Valid() && State() == WriteSquare(old(State()), addr % 4, value)
      ensures var apu := envelope.lengthCounter.apu;
              apu.needToRun == (old(apu.needToRun) || addr % 4 == 0
                                || (addr % 4 == 3 && old(envelope.lengthCounter.enabled)))
    {
      WriteRegister(addr, value);
      UpdateOutput();
    }

    method TickSweep()
      requires Valid()
      modifies Repr()
      ensures Valid() && State() == ApuChannels.TickSweep(old(State()))
    {
      sweepDivider := (sweepDivider - 1) % 256;
      if sweepDivider == 0 {
        if sweepShift > 0 && sweepEnabled && realPeriod >= 8 && sweepTargetPeriod <= 0x7FF {
          SetPeriod(sweepTargetPeriod);
        }
        sweepDivider := sweepPeriod;
      }
      if reloadSweep {
        sweepDivider := sweepPeriod;
        reloadSweep := false;
      }
    }

    method TickEnvelope()
      requires Valid()
      modifies Repr()
      ensures Valid()
      ensures State()
           == old(State()).(gen := old(State()).gen.(env := ApuChannels.TickEnvelope(old(State()).gen.env)))
    {
      envelope.Tick();
    }

    method TickLengthCounter()
      requires Valid()
      modifies Repr()
      ensures Valid() && State() == OnSquareLength(old(State()), TickLength(old(State()).gen.env.len))
    {
      envelope.lengthCounter.Tick();
    }

    method ReloadLengthCounter()
      requires Valid()
      modifies Repr()
      ensures Valid() && State() == OnSquareLength(old(State()), ReloadLength(old(State()).gen.env.len))
    {
      envelope.lengthCounter.ReloadCounter();
    }

    method SetEnabled(enabled: bool)
      requires Valid()
      modifies Repr()
      ensures Valid() && State() == OnSquareLength(old(State()), EnableLength(old(State()).gen.env.len, enabled))
    {
      envelope.lengthCounter.SetEnabled(enabled);
    }

    method EndFrame()
      requires Valid()
      modifies Repr()
      ensures Valid() && State() == Rewind(old(State()))
    {
      timer.EndFrame();
    }
  }

  class TriangleChannel {
    const lengthCounter: ApuLengthCounter
    const timer: ApuTimer
    var linearCounter: u7
    var linearCounterReload: u7
    var linearReloadFlag: bool
    var linearControlFlag: bool
    var sequencePosition: u5

    constructor (apu: RunRequest, ghost others: set<object>)
      ensures Repr() !! others
      ensures fresh(Repr()) && lengthCounter.apu == apu && lengthCounter.isTriangle && timer.out == []
    {
      lengthCounter := new ApuLengthCounter(apu, true);
      timer := new ApuTimer();
      linearCounter, linearCounterReload, linearReloadFlag, linearControlFlag := 0, 0, false, false;
      sequencePosition := 0;
    }

    method Reset(soft: bool)
      requires lengthCounter.isTriangle
      modifies Repr()
      ensures State() == ResetTriangle(old(State()), soft)
    {
      timer.Reset();
      lengthCounter.Reset(soft);
      linearCounter, linearCounterReload, linearReloadFlag, linearControlFlag := 0, 0, false, false;
      sequencePosition := 0;
    }

    function Repr(): set<object> { {this, lengthCounter, timer} }

    function State(): Channel<Triangle>
      reads Repr()
    {
      Channel(timer.State(), Triangle(lengthCounter.State(), linearCounter, linearCounterReload, linearReloadFlag,
                                      linearControlFlag, sequencePosition))
    }

    /** The body of the drain loop. */
    method AdvanceSequence()
      modifies this, timer
      ensures var (t, output) := TriangleTick(old(State()).gen);
              State() == Channel(if output.Some? then ApuChannels.AddOutput(old(timer.State()), output.value)
                                 else old(timer.State()), t)
    {
      hide ApuChannels.AddOutput;
      if lengthCounter.counter > 0 && linearCounter > 0 {
        sequencePosition := (sequencePosition + 1) % 32;
        timer.AddOutput(SEQUENCE[sequencePosition]);
      }
    }

    method Run(target: nat)
      requires timer.previousCycle <= target
      modifies Repr()
      ensures State() == RunTo(old(State()), TriangleTick, target)
    {
      hide TriangleTick, ApuChannels.AddOutput;
      while true
        invariant timer.previousCycle <= target
        invariant RunTo(State(), TriangleTick, target) == old(RunTo(State(), TriangleTick, target))
        decreases target - timer.previousCycle
        modifies this, timer
      {
        ghost var before := State();
        var expired := timer.Run(target);
        if !expired {
          break;
        }
        AdvanceSequence();
        assert State() == TickOnce(before, TriangleTick);
      }
    }

    method WriteRam(addr: u16, value: u8)
      modifies Repr(), lengthCounter.apu
      ensures State() == WriteTriangle(old(State()), addr % 4, value)
      ensures var apu := lengthCounter.apu;
              apu.needToRun == (old(apu.needToRun) || addr % 4 == 0 || (addr % 4 == 3 && old(lengthCounter.enabled)))
    {
      match addr % 4
      case 0 =>
        linearControlFlag := Bit(value, 7);
        linearCounterReload := value % 128;
        lengthCounter.Initialize(linearControlFlag);
      case 1 =>
      case 2 =>
        timer.period := timer.period / 256 * 256 + value;
      case 3 =>
        lengthCounter.Load(value / 8);
        timer.period := timer.period % 256 + value % 8 * 256;
        linearReloadFlag := true;
    }

    method TickLinearCounter()
      modifies Repr()
      ensures State() == old(State()).(gen := TickLinear(old(State()).gen))
    {
      if linearReloadFlag {
        linearCounter := linearCounterReload;
      } else if linearCounter > 0 {
        linearCounter := linearCounter - 1;
      }
      if !linearControlFlag {
        linearReloadFlag := false;
      }
    }

    method TickLengthCounter()
      modifies Repr()
      ensures State() == OnTriangleLength(old(State()), TickLength(old(State()).gen.len))
    {
      lengthCounter.Tick();
    }

    method ReloadLengthCounter()
      modifies Repr()
      ensures State() == OnTriangleLength(old(State()), ReloadLength(old(State()).gen.len))
    {
      lengthCounter.ReloadCounter();
    }

    method SetEnabled(enabled: bool)
      modifies Repr()
      ensures State() == OnTriangleLength(old(State()), EnableLength(old(State()).gen.len, enabled))
    {
      lengthCounter.SetEnabled(enabled);
    }

    method EndFrame()
      modifies Repr()
      ensures State() == Rewind(old(State()))
    {
      timer.EndFrame();
    }
  }

  class NoiseChannel {
    const envelope: ApuEnvelope
    const timer: ApuTimer
    var shiftRegister: Lfsr
    var modeFlag: bool

    constructor (apu: RunRequest, ghost others: set<object>)
      ensures Repr() !! others
      ensures Valid() && fresh(Repr()) && envelope.lengthCounter.apu == apu && timer.out == []
    {
      envelope := new ApuEnvelope(apu);
      timer := new ApuTimer();
      shiftRegister, modeFlag := 1, false;
    }

    method Reset(soft: bool)
      requires Valid()
      modifies Repr()
      ensures Valid() && State() == ResetNoise(old(State()), soft)
    {
      envelope.Reset(soft);
      timer.Reset();
      timer.period := NOISE_PERIODS[0] - 1;
      shiftRegister, modeFlag := 1, false;
    }

    function Repr(): set<object> { {this, envelope, envelope.lengthCounter, timer} }

    predicate Valid()
      reads Repr()
    {
      envelope.Valid()
    }

    function State(): Channel<Noise>
      reads Repr()
      requires Valid()
    {
      Channel(timer.State(), Noise(envelope.State(), shiftRegister, modeFlag))
    }

    method ShiftNoise()
      requires Valid()
      modifies this`shiftRegister, timer
      ensures Valid() && envelope.State() == old(envelope.State())
      ensures timer.previousCycle == old(timer.previousCycle)
      ensures var (n, output) := NoiseTick(old(State()).gen);
              output.Some? && State() == Channel(ApuChannels.AddOutput(old(timer.State()), output.value), n)
    {
      hide ApuChannels.AddOutput;
      var feedback := (shiftRegister % 2 + shiftRegister / (if modeFlag then 64 else 2) % 2) % 2;
      shiftRegister := shiftRegister / 2 + feedback * 0x4000;
      if shiftRegister % 2 == 1 {
        timer.AddOutput(0);
      } else {
        var volume := Volume(envelope.State());
        timer.AddOutput(volume);
      }
    }

    method Run(target: nat)
      requires Valid() && timer.previousCycle <= target
      modifies Repr()
      ensures Valid() && State() == RunTo(old(State()), NoiseTick, target)
    {
      hide NoiseTick, ApuChannels.AddOutput;
      while true
        invariant Valid() && timer.previousCycle <= target && envelope.State() == old(envelope.State())
        invariant RunTo(State(), NoiseTick, target) == old(RunTo(State(), NoiseTick, target))
        modifies this, timer
        decreases target - timer.previousCycle
      {
        ghost var before := State();
        var expired := timer.Run(target);
        if !expired {
          break;
        }
        ShiftNoise();
        assert State() == TickOnce(before, NoiseTick);
      }
    }

    method WriteRam(addr: u16, value: u8)
      requires Valid()
      modifies Repr(), envelope.lengthCounter.apu
      ensures Valid() && State() == WriteNoise(old(State()), addr % 4, value)
      ensures var apu := envelope.lengthCounter.apu;
              apu.needToRun == (old(apu.needToRun) || addr % 4 == 0
                                || (addr % 4 == 3 && old(envelope.lengthCounter.enabled)))
    {
      match addr % 4
      case 0 =>
        envelope.Initialize(value);
      case 1 =>
      case 2 =>
        timer.period := NOISE_PERIODS[value % 16] - 1;
        modeFlag := Bit(value, 7);
      case 3 =>
        envelope.lengthCounter.Load(value / 8);
        envelope.ResetEnvelope();
    }

    method TickEnvelope()
      requires Valid()
      modifies Repr()
      ensures Valid()
      ensures State()
           == old(State()).(gen := old(State()).gen.(env := ApuChannels.TickEnvelope(old(State()).gen.env)))
    {
      envelope.Tick();
    }

    method TickLengthCounter()
      requires Valid()
      modifies Repr()
      ensures Valid() && State() == OnNoiseLength(old(State()), TickLength(old(State()).gen.env.len))
    {
      envelope.lengthCounter.Tick();
    }

    method ReloadLengthCounter()
      requires Valid()
      modifies Repr()
      ensures Valid() && State() == OnNoiseLength(old(State()), ReloadLength(old(State()).gen.env.len))
    {
      envelope.lengthCounter.ReloadCounter();
    }

    method SetEnabled(enabled: bool)
      requires Valid()
      modifies Repr()
      ensures Valid() && State() == OnNoiseLength(old(State()), EnableLength(old(State()).gen.env.len, enabled))
    {
      envelope.lengthCounter.SetEnabled(enabled);
    }

    method EndFrame()
      requires Valid()
      modifies Repr()
      ensures Valid() && State() == Rewind(old(State()))
    {
      timer.EndFrame();
    }
  }

  class DeltaModulationChannel {
    const timer: ApuTimer
    const cpu: CpuPort
    var sampleAddr: u16
    var sampleLength: SampleLength
    var outputLevel: u7
    var irqEnabled: bool
    var loopFlag: bool
    var currentAddr: u16
    var bytesRemaining: u12
    var readBuffer: u8
    var bufferEmpty: bool
    var shiftRegister: u8
    var bitsRemaining: Bits
    var silenceFlag: bool
    var needToRunFlag: bool
    var disableDelay: u2
    var transferStartDelay: u2

    constructor (cpu: CpuPort, ghost others: set<object>)
      ensures Repr() !! others
      ensures fresh(Repr()) && this.cpu == cpu && timer.out == []
    {
      timer := new ApuTimer();
      this.cpu := cpu;
      sampleAddr, sampleLength, outputLevel, irqEnabled, loopFlag, currentAddr := 0, 1, 0, false, false, 0;
      bytesRemaining, readBuffer, bufferEmpty, shiftRegister, bitsRemaining := 0, 0, true, 0, 8;
      silenceFlag, needToRunFlag, disableDelay, transferStartDelay := true, false, 0, 0;
    }

    method Reset(soft: bool)
      modifies Repr()
      ensures State() == ResetDmc(old(State()), soft)
    {
      hide ResetDpcm;
      ResetPlayback(soft);
      needToRunFlag := false;
      timer.Reset();
      timer.period := DMC_PERIODS[0] - 1;
      timer.timer := timer.period;
    }

    method ResetPlayback(soft: bool)
      modifies this
      ensures Core() == ResetDpcm(old(Core()), soft)
    {
      if !soft {
        sampleAddr := 0xC000;
        sampleLength := 1;
      }
      irqEnabled := false;
      loopFlag := false;
      currentAddr := 0;
      bytesRemaining := 0;
      transferStartDelay := 0;
      disableDelay := 0;
      ResetOutput();
    }

    method ResetOutput()
      modifies this
      ensures Core() == old(Core()).(level := 0, buffer := 0, empty := true, shifter := 0, bits := 8, silence := true)
    {
      outputLevel := 0;
      readBuffer := 0;
      bufferEmpty := true;
      shiftRegister := 0;
      bitsRemaining := 8;
      silenceFlag := true;
    }

    function Repr(): set<object> { {this, timer} }

    function Core(): Dpcm
      reads this, cpu`dmcIrq, cpu`calls
    {
      Dpcm(sampleAddr, sampleLength, outputLevel, irqEnabled, loopFlag, currentAddr, bytesRemaining, readBuffer,
           bufferEmpty, shiftRegister, bitsRemaining, silenceFlag, disableDelay, transferStartDelay, cpu.dmcIrq,
           cpu.calls)
    }

    function State(): Channel<Dmc>
      reads Repr(), cpu`dmcIrq, cpu`calls
    {
      Channel(timer.State(), Dmc(Core(), needToRunFlag))
    }

    method StartDmcTransfer()
      modifies cpu`calls
      ensures Core() == StartTransferIfNeeded(old(Core()))
    {
      if bufferEmpty && bytesRemaining > 0 {
        cpu.calls := cpu.calls + [StartTransfer];
      }
    }

    method InitSample()
      modifies this
      ensures Core() == ApuChannels.InitSample(old(Core())) && needToRunFlag
    {
      currentAddr := sampleAddr;
      bytesRemaining := sampleLength;
      needToRunFlag := needToRunFlag || bytesRemaining > 0;
    }

    method SetDmcReadBuffer(value: u8)
      modifies Repr(), cpu`dmcIrq, cpu`calls
      ensures State() == old(State()).(gen := Refill(old(State()).gen, value))
    {
      if bytesRemaining > 0 {
        readBuffer := value;
        bufferEmpty := false;
        currentAddr := (currentAddr + 1) % 0x10000;
        if currentAddr == 0 {
          currentAddr := 0x8000;
        }
        bytesRemaining := bytesRemaining - 1;
        if bytesRemaining == 0 {
          if loopFlag {
            InitSample();
          } else if irqEnabled {
            cpu.dmcIrq := true;
          }
        }
      }
    }

    /** The next sample bit moves the output level. */
    method ShiftOutput()
      modifies this
      ensures Core() == ShiftLevel(old(Core())) && needToRunFlag == old(needToRunFlag)
    {
      if !silenceFlag {
        var bit := shiftRegister % 2;
        shiftRegister := shiftRegister / 2;
        if bit == 1 {
          if outputLevel <= 125 {
            outputLevel := outputLevel + 2;
          }
        } else if outputLevel >= 2 {
          outputLevel := outputLevel - 2;
        }
      }
    }

    /** After eight bits the next byte is loaded, or the output goes silent. */
    method CountBit()
      modifies this, cpu`calls
      ensures Core() == ShiftBits(old(Core()))
      ensures needToRunFlag == (old(needToRunFlag) || TakesByte(old(Core())))
    {
      if bitsRemaining == 1 {
        bitsRemaining := 8;
        if bufferEmpty {
          silenceFlag := true;
        } else {
          silenceFlag := false;
          shiftRegister := readBuffer;
          bufferEmpty := true;
          needToRunFlag := true;
          if transferStartDelay == 0 {
            StartDmcTransfer();
          }
        }
      } else {
        bitsRemaining := bitsRemaining - 1;
      }
    }

    method Run(target: nat)
      requires timer.previousCycle <= target
      modifies Repr(), cpu`dmcIrq, cpu`calls
      ensures State() == RunTo(old(State()), DmcTick, target)
    {
      while true
        invariant timer.previousCycle <= target
        invariant RunTo(State(), DmcTick, target) == old(RunTo(State(), DmcTick, target))
        modifies this, timer, cpu`calls
        decreases target - timer.previousCycle
      {
        ghost var before := State();
        var expired := timer.Run(target);
        if !expired {
          break;
        }
        ShiftOutput();
        CountBit();
        timer.AddOutput(outputLevel);
        assert State() == TickOnce(before, DmcTick);
      }
    }

    method WriteRam(addr: u16, value: u8)
      modifies Repr(), cpu`dmcIrq
      ensures State() == WriteDmc(old(State()), addr % 4, value)
    {
      hide Bit, ApuChannels.AddOutput;
      match addr % 4
      case 0 =>
        irqEnabled := Bit(value, 7);
        loopFlag := Bit(value, 6);
        timer.period := DMC_PERIODS[value % 16] - 1;
        if !irqEnabled {
          cpu.dmcIrq := false;
        }
      case 1 =>
        outputLevel := value % 128;
        timer.AddOutput(outputLevel);
      case 2 =>
        sampleAddr := 0xC000 + value * 64;
      case 3 =>
        sampleLength := value * 16 + 1;
    }

    method SetEnabled(enabled: bool)
      modifies Repr()
      ensures State() == old(State()).(gen := EnableDmc(old(State()).gen, enabled, cpu.oddCycle))
    {
      if !enabled {
        if disableDelay == 0 {
          disableDelay := if !cpu.oddCycle then 2 else 3;
        }
        needToRunFlag := true;
      } else if bytesRemaining == 0 {
        InitSample();
        transferStartDelay := if !cpu.oddCycle then 2 else 3;
        needToRunFlag := true;
      }
    }

    method ProcessClock()
      modifies Repr(), cpu`dmcIrq, cpu`calls
      ensures State() == old(State()).(gen := ProcessDmcClock(old(State()).gen))
    {
      if disableDelay > 0 {
        disableDelay := disableDelay - 1;
        if disableDelay == 0 {
          bytesRemaining := 0;
          cpu.calls := cpu.calls + [StopTransfer];
        }
      }
      if transferStartDelay > 0 {
        transferStartDelay := transferStartDelay - 1;
        if transferStartDelay == 0 {
          StartDmcTransfer();
        }
      }
      needToRunFlag := disableDelay > 0 || transferStartDelay > 0 || bytesRemaining > 0;
    }

    method NeedToRun() returns (need: bool)
      modifies Repr(), cpu`dmcIrq, cpu`calls
      ensures State() == old(if State().gen.needRun then State().(gen := ProcessDmcClock(State().gen)) else State())
      ensures need == State().gen.needRun
    {
      if needToRunFlag {
        ProcessClock();
      }
      need := needToRunFlag;
    }

    method IrqPending(cyclesToRun: nat) returns (pending: bool)
      ensures pending == DmcIrqPending(State(), cyclesToRun)
    {
      if irqEnabled && bytesRemaining > 0 {
        var cyclesToEmpty := (bitsRemaining + (bytesRemaining - 1) * 8) * timer.period % 0x1_0000_0000;
        if cyclesToRun >= cyclesToEmpty {
          return true;
        }
      }
      return false;
    }

    method EndFrame()
      modifies Repr()
      ensures State() == Rewind(old(State()))
    {
      timer.EndFrame();
    }
  }

  class ApuFrameCounter {
    const cpu: CpuPort
    var previousCycle: int
    var currentStep: int
    var stepMode: StepMode
    var inhibitIrq: bool
    var blockFrameCounterTick: u8
    var newValue: int
    var writeDelayCounter: i8
    var irqFlag: bool

    constructor (cpu: CpuPort, ghost others: set<object>)
      ensures this !in others
      ensures this.cpu == cpu && Valid()
    {
      this.cpu := cpu;
      previousCycle, currentStep, stepMode, inhibitIrq, blockFrameCounterTick := 0, 0, 0, false, 0;
      newValue, writeDelayCounter, irqFlag := 0, 3, false;
    }

    method Reset(soft: bool)
      requires Valid()
      modifies this
      ensures Valid() && State() == ResetFrame(old(State()), soft)
    {
      previousCycle := 0;
      irqFlag := false;
      if !soft {
        stepMode := 0;
      }
      currentStep := 0;
      newValue := if stepMode != 0 then 0x80 else 0;
      writeDelayCounter := 3;
      inhibitIrq := false;
      blockFrameCounterTick := 0;
    }

    predicate Valid()
      reads this
    {
      0 <= currentStep < 6
    }

    function State(): FrameCounter
      reads this, cpu`frameIrq
      requires Valid()
    {
      FrameCounter(previousCycle, currentStep, stepMode, inhibitIrq, blockFrameCounterTick, newValue,
                   writeDelayCounter, irqFlag, cpu.frameIrq)
    }

    /** The sequencer part of run(cycles_to_run&): `left` is the budget that remains. */
    method Advance(cyclesToRun: nat) returns (cyclesRan: nat, left: nat, tick: FrameType)
      requires Valid() && FrameOk(State()) && cyclesToRun > 0
      modifies this, cpu`frameIrq
      ensures Valid() && left == cyclesToRun - cyclesRan
      ensures FrameRun(State(), cyclesRan, tick) == AdvanceFrame(old(State()), cyclesToRun)
    {
      tick, left := NoTick, cyclesToRun;
      var target := StepCycle(stepMode, currentStep);
      if previousCycle + cyclesToRun >= target {
        if stepMode == 0 && currentStep >= 3 {
          irqFlag := true;
          if !inhibitIrq {
            cpu.frameIrq := true;
          } else if currentStep == 5 {
            irqFlag := false;
          }
        }
        var stepType := StepType(currentStep);
        if stepType != NoTick && blockFrameCounterTick == 0 {
          tick := stepType;
          blockFrameCounterTick := 2;
        }
        var ran: int := if target < previousCycle then 0 else target - previousCycle;
        cyclesRan := ran;
        left := left - cyclesRan;
        currentStep := currentStep + 1;
        if currentStep == 6 {
          currentStep := 0;
          previousCycle := 0;
        } else {
          previousCycle := previousCycle + cyclesRan;
        }
      } else {
        cyclesRan := cyclesToRun;
        left := 0;
        previousCycle := previousCycle + cyclesRan;
      }
    }

    /** run(cycles_to_run&); the APU performs `tick` on return. */
    method Run(cyclesToRun: nat) returns (cyclesRan: nat, left: nat, tick: FrameType)
      requires Valid() && FrameOk(State()) && cyclesToRun > 0
      modifies this, cpu`frameIrq
      ensures Valid() && FrameRun(State(), cyclesRan, tick) == RunFrame(old(State()), cyclesToRun)
      ensures left == cyclesToRun - cyclesRan
    {
      hide AdvanceFrame;
      cyclesRan, left, tick := Advance(cyclesToRun);
      if newValue >= 0 {
        writeDelayCounter := writeDelayCounter - 1;
        if writeDelayCounter == 0 {
          stepMode := if Bit(newValue, 7) then 1 else 0;
          writeDelayCounter := -1;
          currentStep := 0;
          previousCycle := 0;
          newValue := -1;
          if stepMode == 1 && blockFrameCounterTick == 0 {
            tick := Half;
            blockFrameCounterTick := 2;
          }
        }
      }
      if blockFrameCounterTick > 0 {
        blockFrameCounterTick := blockFrameCounterTick - 1;
      }
    }

    method NeedToRun(cyclesToRun: nat) returns (need: bool)
      requires Valid()
      ensures need == FrameNeedsRun(State(), cyclesToRun)
    {
      need := newValue >= 0 || blockFrameCounterTick > 0
              || previousCycle + cyclesToRun >= StepCycle(stepMode, currentStep) - 1;
    }

    method WriteRam(value: u8)
      requires Valid()
      modifies this, cpu`frameIrq
      ensures Valid() && State() == WriteFrame(old(State()), value, old(cpu.oddCycle))
    {
      newValue := value;
      if cpu.oddCycle {
        writeDelayCounter := 4;
      } else {
        writeDelayCounter := 3;
      }
      inhibitIrq := Bit(value, 6);
      if inhibitIrq {
        cpu.frameIrq := false;
        irqFlag := false;
      }
    }
  }
}
