/** The APU object: the catch-up loop, the scheduler that decides when to run it, and the bus. */
module NesApuDevice {
  import opened Types
  import opened ApuChannels
  import opened ApuModel
  import opened ApuDevices

  class NesApu {
    const request: RunRequest
    const cpu: CpuPort
    const square1: SquareChannel
    const square2: SquareChannel
    const triangle: TriangleChannel
    const noise: NoiseChannel
    const dmc: DeltaModulationChannel
    const frameCounter: ApuFrameCounter
    var apuEnabled: bool
    var previousCycle: nat
    var currentCycle: nat
    /** What `play_audio_buffer` has been given, frame by frame. */
    var frames: seq<AudioFrame>

    constructor (cpu: CpuPort)
      ensures Valid() && this.cpu == cpu && fresh(request) && fresh(frameCounter) && fresh(square1.Repr())
      ensures fresh(square2.Repr()) && fresh(triangle.Repr()) && fresh(noise.Repr()) && fresh(dmc.Repr())
      ensures !request.needToRun && frames == [] && square1.timer.out == square2.timer.out == []
      ensures triangle.timer.out == noise.timer.out == dmc.timer.out == []
    {
      hide SquareChannel.State, TriangleChannel.State, NoiseChannel.State, DeltaModulationChannel.State,
           SquareChannel.Repr, TriangleChannel.Repr, NoiseChannel.Repr, DeltaModulationChannel.Repr;
      var run := new RunRequest();
      ghost var used := {run, cpu};
      var s1 := new SquareChannel(run, true, used);
      var s2 := new SquareChannel(run, false, used + s1.Repr());
      var t := new TriangleChannel(run, used + s1.Repr() + s2.Repr());
      var n := new NoiseChannel(run, used + s1.Repr() + s2.Repr() + t.Repr());
      var d := new DeltaModulationChannel(cpu, used + s1.Repr() + s2.Repr() + t.Repr() + n.Repr());
      var f := new ApuFrameCounter(cpu, used + s1.Repr() + s2.Repr() + t.Repr() + n.Repr() + d.Repr());
      request, this.cpu, square1, square2, triangle, noise, dmc, frameCounter := run, cpu, s1, s2, t, n, d, f;
      apuEnabled, previousCycle, currentCycle, frames := true, 0, 0, [];
      new;
      NotAChannelPart(this, s1, s2, t, n, d);
    }

    method ResetSquares(soft: bool)
      requires Valid()
      modifies square1.Repr(), square2.Repr()
      ensures Valid() && Ch() == old(Ch()).(sq1 := ResetSquare(old(Ch()).sq1, soft),
                                            sq2 := ResetSquare(old(Ch()).sq2, soft))
    {
      hide ResetSquare;
      square1.Reset(soft);
      square2.Reset(soft);
    }

    method ResetAllChannels(soft: bool)
      requires Valid()
      modifies ChannelRepr()
      ensures Valid() && State() == old(State()).(ch := ResetChannels(old(State()).ch, soft))
    {
      hide ResetSquare, ResetTriangle, ResetNoise, ResetDmc, ApuFrameCounter.State;
      ResetSquares(soft);
      triangle.Reset(soft);
      noise.Reset(soft);
      dmc.Reset(soft);
    }

    method ResetFrameCounter(soft: bool)
      requires Valid()
      modifies frameCounter
      ensures Valid() && State() == old(State()).(fc := ResetFrame(old(State()).fc, soft))
    {
      hide ResetFrame, Ch;
      frameCounter.Reset(soft);
    }

    method RestartClock()
      requires Valid()
      modifies this`currentCycle, this`previousCycle
      ensures Valid() && State() == old(State()).(cur := 0, prev := 0)
    {
      hide Ch, ApuFrameCounter.State;
      currentCycle := 0;
      previousCycle := 0;
    }

    method SetApuStatus(active: bool)
      requires Valid()
      modifies this`apuEnabled
      ensures Valid() && State() == old(State()).(enabled := active)
    {
      hide Ch, ApuFrameCounter.State;
      apuEnabled := active;
    }

    method Reset(soft: bool)
      requires Valid()
      modifies Repr()
      ensures Valid() && State() == ApuModel.Reset(old(State()), soft)
    {
      hide Valid, State, ResetChannels, ResetFrame;
      SetApuStatus(true);
      RestartClock();
      ResetAllChannels(soft);
      ResetFrameCounter(soft);
    }

    static lemma NotAChannelPart(a: NesApu, s1: SquareChannel, s2: SquareChannel, t: TriangleChannel,
                                 n: NoiseChannel, d: DeltaModulationChannel)
      ensures a !in s1.Repr() && a !in s2.Repr() && a !in t.Repr() && a !in n.Repr() && a !in d.Repr()
    {}

    function ChannelRepr(): set<object> {
      square1.Repr() + square2.Repr() + triangle.Repr() + noise.Repr() + dmc.Repr()
    }

    function Repr(): set<object> { {this, request, frameCounter} + ChannelRepr() }

    /** The channels share the run request and the CPU, and nothing else. */
    predicate Wired() {
      var shared := {request, cpu};
      && square1.Repr() !! shared
      && square2.Repr() !! shared + square1.Repr()
      && triangle.Repr() !! shared + square1.Repr() + square2.Repr()
      && noise.Repr() !! shared + square1.Repr() + square2.Repr() + triangle.Repr()
      && dmc.Repr() !! shared + square1.Repr() + square2.Repr() + triangle.Repr() + noise.Repr()
      && frameCounter !in ChannelRepr() && this !in ChannelRepr()
      && square1.envelope.lengthCounter.apu == square2.envelope.lengthCounter.apu == request
      && triangle.lengthCounter.apu == noise.envelope.lengthCounter.apu == request
      && dmc.cpu == frameCounter.cpu == cpu && triangle.lengthCounter.isTriangle
    }

    predicate ChannelsValid()
      reads ChannelRepr()
    {
      Wired() && square1.Valid() && square2.Valid() && noise.Valid()
    }

    predicate Valid()
      reads Repr()
    {
      Wired() && ChannelsValid() && frameCounter.Valid()
    }

    function Ch(): Channels
      reads ChannelRepr(), cpu`dmcIrq, cpu`calls
      requires ChannelsValid()
    {
      Channels(square1.State(), square2.State(), triangle.State(), noise.State(), dmc.State())
    }

    function State(): Apu
      reads Repr(), cpu
      requires Valid()
    {
      Apu(apuEnabled, request.needToRun, previousCycle, currentCycle, Ch(), frameCounter.State(), frames)
    }

    method ReloadLengthCounters()
      requires Valid()
      modifies ChannelRepr()
      ensures Valid() && Ch() == ReloadLengths(old(Ch()))
    {
      hide ReloadLength;
      square1.ReloadLengthCounter();
      square2.ReloadLengthCounter();
      noise.ReloadLengthCounter();
      triangle.ReloadLengthCounter();
    }

    method TickEnvelopes()
      requires Valid()
      modifies ChannelRepr()
      ensures Valid() && Ch() == TickQuarter(old(Ch()))
    {
      hide TickEnvelope, TickLinear;
      square1.TickEnvelope();
      square2.TickEnvelope();
      triangle.TickLinearCounter();
      noise.TickEnvelope();
    }

    method TickLengthCounters()
      requires Valid()
      modifies ChannelRepr()
      ensures Valid() && Ch() == SetLengths(old(Ch()), MapLengths(GetLengths(old(Ch())), TickLength))
    {
      hide TickLength;
      square1.TickLengthCounter();
      square2.TickLengthCounter();
      triangle.TickLengthCounter();
      noise.TickLengthCounter();
    }

    method FrameCounterTick(frameType: FrameType)
      requires Valid() && frameType != NoTick
      modifies ChannelRepr()
      ensures Valid() && Ch() == FrameTick(old(Ch()), frameType)
    {
      hide TickSweep, TickQuarter, TickLength, SetLengths, MapLengths, GetLengths;
      TickEnvelopes();
      if frameType == Half {
        TickLengthCounters();
        square1.TickSweep();
        square2.TickSweep();
      }
    }

    method RunSquares(target: nat)
      requires Valid() && square1.timer.previousCycle <= target && square2.timer.previousCycle <= target
      modifies square1.Repr(), square2.Repr()
      ensures Valid() && Ch() == old(Ch()).(sq1 := RunTo(old(Ch()).sq1, SquareTick, target),
                                            sq2 := RunTo(old(Ch()).sq2, SquareTick, target))
    {
      hide RunTo;
      square1.Run(target);
      square2.Run(target);
    }

    method RunChannels(target: nat)
      requires Valid() && At(Ch(), previousCycle) && previousCycle <= target
      modifies ChannelRepr(), cpu`dmcIrq, cpu`calls
      ensures Valid() && Ch() == Drain(old(Ch()), previousCycle, target)
    {
      hide RunTo;
      RunSquares(target);
      noise.Run(target);
      triangle.Run(target);
      dmc.Run(target);
    }

    /** The frame counter runs, ticks the channels, and deferred length counter changes take effect. */
    method Sequence(cyclesToRun: nat) returns (cyclesRan: nat, left: nat)
      requires Valid() && FrameOk(frameCounter.State()) && cyclesToRun > 0
      modifies ChannelRepr(), frameCounter, cpu`frameIrq
      ensures Valid() && left == cyclesToRun - cyclesRan
      ensures var r := RunFrame(old(frameCounter.State()), cyclesToRun);
              frameCounter.State() == r.fc && cyclesRan == r.ran
              && Ch() == ReloadLengths(FrameTick(old(Ch()), r.tick))
    {
      hide RunFrame, FrameTick, FrameOk, ReloadLengths;
      var tick;
      cyclesRan, left, tick := frameCounter.Run(cyclesToRun);
      if tick != NoTick {
        FrameCounterTick(tick);
      } else {
        NoTickIdentity(Ch());
      }
      ReloadLengthCounters();
    }

    static lemma NoTickIdentity(c: Channels)
      ensures FrameTick(c, NoTick) == c
    {}

    /** One turn of the catch-up loop. */
    method CatchUp(cyclesToRun: nat) returns (left: nat)
      requires Valid() && ApuModel.Valid(State()) && 0 < cyclesToRun == currentCycle - previousCycle
      modifies ChannelRepr(), this`previousCycle, frameCounter, cpu`frameIrq, cpu`dmcIrq, cpu`calls
      ensures Valid() && State() == RunOnce(old(State())) && left == currentCycle - previousCycle
    {
      hide RunFrame, FrameTick, ReloadLengths, Drain, At, FrameOk, Ch, ApuFrameCounter.State;
      var cyclesRan;
      cyclesRan, left := Sequence(cyclesToRun);
      RunChannels(previousCycle + cyclesRan);
      previousCycle := previousCycle + cyclesRan;
    }

    method Run()
      requires Valid() && ApuModel.Valid(State())
      modifies Repr(), cpu`frameIrq, cpu`dmcIrq, cpu`calls
      ensures Valid() && State() == ApuModel.Run(old(State()))
    {
      hide RunOnce, At, FrameOk;
      var cyclesToRun := currentCycle - previousCycle;
      while cyclesToRun > 0
        invariant Valid() && ApuModel.Valid(State()) && cyclesToRun == currentCycle - previousCycle
        invariant ApuModel.Run(State()) == old(ApuModel.Run(State()))
        decreases cyclesToRun
      {
        cyclesToRun := CatchUp(cyclesToRun);
      }
    }

    method EndFrame()
      requires Valid() && ApuModel.Valid(State())
      modifies Repr(), cpu`frameIrq, cpu`dmcIrq, cpu`calls
      ensures Valid() && State() == ApuModel.EndFrame(old(State()))
    {
      hide ApuModel.Run, ProcessDmcClock;
      dmc.ProcessClock();
      Run();
      FlushFrame();
    }

    method PlayAudioBuffer()
      requires Valid()
      modifies this`frames
      ensures Valid() && State() == old(State()).(frames := old(State()).frames + [Collect(Ch(), currentCycle)])
    {
      hide Ch, Collect, ApuFrameCounter.State;
      frames := frames + [Collect(Ch(), currentCycle)];
    }

    method RewindSquares()
      requires Valid()
      modifies square1.Repr(), square2.Repr()
      ensures Valid() && Ch() == old(Ch()).(sq1 := Rewind(old(Ch()).sq1), sq2 := Rewind(old(Ch()).sq2))
    {
      hide Rewind;
      square1.EndFrame();
      square2.EndFrame();
    }

    method RewindChannels()
      requires Valid()
      modifies ChannelRepr()
      ensures Valid() && State() == old(State()).(ch := RewindAll(old(State()).ch))
    {
      hide Rewind, ApuFrameCounter.State;
      RewindSquares();
      triangle.EndFrame();
      noise.EndFrame();
      dmc.EndFrame();
    }

    /** The rest of end_frame: every timer restarts, and what it has sent belongs to the mixer. */
    method FlushFrame()
      requires Valid()
      modifies Repr()
      ensures Valid() && State() == Flush(old(State()))
    {
      hide Valid, Collect, RewindAll;
      PlayAudioBuffer();
      RewindChannels();
      RestartClock();
    }

    method PollDmcIfFlagged() returns (need: bool)
      requires Valid()
      modifies dmc.Repr(), cpu`dmcIrq, cpu`calls
      ensures Valid() && State() == PollIfFlagged(old(State())) && need == State().ch.dmc.gen.needRun
      ensures request.needToRun == State().needToRun
    {
      hide ProcessDmcClock, ApuFrameCounter.State;
      need := dmc.NeedToRun();
    }

    method NeedToRun(cycle: nat) returns (need: bool)
      requires Valid() && ApuModel.Valid(State()) && previousCycle <= cycle == currentCycle
      modifies request, dmc.Repr(), cpu`dmcIrq, cpu`calls
      ensures Valid() && need == RunDue(PollIfFlagged(old(State())))
      ensures State() == ConsumeRequest(PollIfFlagged(old(State())))
    {
      hide PollIfFlagged, FrameNeedsRun, DmcIrqPending, ApuModel.Valid, Valid, State;
      need := PollDmcIfFlagged();
      if need || request.needToRun {
        TakeRequest();
        need := true;
      } else {
        need := TimeIsUp(cycle);
      }
    }

    method TakeRequest()
      requires Valid()
      modifies request
      ensures Valid() && State() == ConsumeRequest(old(State()))
    {
      request.needToRun := false;
    }

    method TimeIsUp(cycle: nat) returns (need: bool)
      requires Valid() && previousCycle <= cycle == currentCycle
      ensures Valid() && State() == old(State())
      ensures var s := State();
              need == (FrameNeedsRun(s.fc, s.cur - s.prev) || DmcIrqPending(s.ch.dmc, s.cur - s.prev))
    {
      hide FrameNeedsRun, DmcIrqPending;
      var cyclesToRun := cycle - previousCycle;
      need := frameCounter.NeedToRun(cyclesToRun);
      if !need {
        need := dmc.IrqPending(cyclesToRun);
      }
    }

    method AdvanceCycle()
      requires Valid()
      modifies this`currentCycle
      ensures Valid() && State() == old(State()).(cur := old(State()).cur + 1) && currentCycle == State().cur
      ensures previousCycle == State().prev
    {
      hide Ch, ApuFrameCounter.State;
      currentCycle := currentCycle + 1;
    }

    method EnabledClock()
      requires Valid() && InFrame(State()) && State().enabled
      modifies Repr(), cpu`frameIrq, cpu`dmcIrq, cpu`calls
      ensures Valid() && State() == LazyClock(old(State()))
    {
      hide Valid, State, ApuModel.Run, ApuModel.EndFrame, PollIfFlagged, RunDue, At, FrameOk;
      AdvanceCycle();
      if currentCycle == CYCLE_LENGTH - 1 {
        EndFrame();
      } else {
        var need := NeedToRun(currentCycle);
        if need {
          Run();
        }
      }
    }

    method ProcessCpuClock()
      requires Valid() && InFrame(State())
      modifies Repr(), cpu`frameIrq, cpu`dmcIrq, cpu`calls
      ensures Valid() && State() == LazyClock(old(State()))
    {
      if apuEnabled {
        hide LazyClock;
        EnabledClock();
      }
    }

    method EnableLengthCounters(value: u8)
      requires Valid()
      modifies ChannelRepr()
      ensures Valid() && Ch() == SetLengths(old(Ch()), EnableLengths(GetLengths(old(Ch())), value))
    {
      hide Bit, EnableLength;
      square1.SetEnabled(Bit(value, 0));
      square2.SetEnabled(Bit(value, 1));
      triangle.SetEnabled(Bit(value, 2));
      noise.SetEnabled(Bit(value, 3));
    }

    method ClearDmcIrq()
      requires Valid()
      modifies cpu`dmcIrq
      ensures Valid() && Ch() == ClearDmcLine(old(Ch()))
    {
      cpu.dmcIrq := false;
    }

    method EnableDmcChannel(on: bool)
      requires Valid()
      modifies dmc.Repr()
      ensures Valid()
      ensures Ch() == old(Ch()).(dmc := old(Ch()).dmc.(gen := EnableDmc(old(Ch()).dmc.gen, on, cpu.oddCycle)))
    {
      hide EnableDmc;
      dmc.SetEnabled(on);
    }

    method EnableChannels(value: u8)
      requires Valid()
      modifies ChannelRepr(), cpu`dmcIrq
      ensures Valid() && Ch() == Enable(old(Ch()), value, cpu.oddCycle)
    {
      hide Ch, Bit, SetLengths, EnableLengths, GetLengths, EnableDmc;
      ClearDmcIrq();
      EnableLengthCounters(value);
      EnableDmcChannel(Bit(value, 4));
    }

    method WriteChannelRegister(addr: u16, value: u8)
      requires Valid() && IsChannelRegister(addr)
      modifies ChannelRepr(), request, cpu`dmcIrq
      ensures Valid() && Ch() == WriteChannel(old(Ch()), addr, value)
      ensures request.needToRun == old(request.needToRun || RequestsRun(GetLengths(Ch()), addr))
    {
      hide WriteSquare, WriteTriangle, WriteNoise, WriteDmc;
      if addr <= 0x4003 {
        square1.WriteRam(addr, value);
      } else if addr <= 0x4007 {
        square2.WriteRam(addr, value);
      } else if addr <= 0x400B {
        triangle.WriteRam(addr, value);
      } else if addr <= 0x400F {
        noise.WriteRam(addr, value);
      } else {
        dmc.WriteRam(addr, value);
      }
    }

    method WriteRam(addr: u16, value: u8)
      requires Valid() && ApuModel.Valid(State())
      modifies Repr(), cpu`frameIrq, cpu`dmcIrq, cpu`calls
      ensures Valid() && State() == Write(old(State()), addr, value, old(cpu.oddCycle))
    {
      hide ApuModel.Run, Enable, WriteChannel, WriteFrame, Ch, At, FrameOk, ApuFrameCounter.State;
      if addr == 0x4015 {
        Run();
        EnableChannels(value);
      } else if addr == 0x4017 {
        Run();
        frameCounter.WriteRam(value);
      } else if 0x4000 <= addr <= 0x4013 {
        Run();
        WriteChannelRegister(addr, value);
      }
    }

    method Peek(addr: u16) returns (result: ReadResult)
      requires Valid()
      ensures Valid() && State() == old(State()) && result == Observe(State(), addr)
    {
      match addr
      case 0x4015 =>
        result := Status(square1.envelope.lengthCounter.counter > 0, square2.envelope.lengthCounter.counter > 0,
                         triangle.lengthCounter.counter > 0, noise.envelope.lengthCounter.counter > 0,
                         dmc.bytesRemaining > 0, frameCounter.irqFlag, cpu.dmcIrq);
      case 0x4018 =>
        result := Levels(square1.timer.lastOutput, square2.timer.lastOutput);
      case 0x4019 =>
        result := Levels(triangle.timer.lastOutput, noise.timer.lastOutput);
      case 0x401A =>
        result := Levels(dmc.timer.lastOutput, 0);
      case _ =>
        result := Nothing;
    }

    method ReadRam(addr: u16) returns (result: ReadResult)
      requires Valid() && ApuModel.Valid(State())
      modifies Repr(), cpu`frameIrq, cpu`dmcIrq, cpu`calls
      ensures Valid() && (State(), result) == Read(old(State()), addr)
    {
      hide ApuModel.Run, Observe, Ch;
      Run();
      result := Peek(addr);
      if addr == 0x4015 {
        cpu.frameIrq := false;
      }
    }

    method SetDmcReadBuffer(value: u8)
      requires Valid()
      modifies Repr(), cpu`frameIrq, cpu`dmcIrq, cpu`calls
      ensures Valid() && State() == RefillDmc(old(State()), value)
    {
      hide Refill;
      dmc.SetDmcReadBuffer(value);
    }
  }
}
