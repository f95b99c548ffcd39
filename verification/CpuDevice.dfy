/** The CPU's cycle clock and DMA engine as the source writes them (src/systems/nes/nes_cpu.cpp), driving the
    PPU of PpuDevice. Instructions are opaque: a sequence of read and write cycles. */
module CpuDevice {
  import opened Types
  import opened PpuModel
  import opened ClockModel
  import opened DmaModel
  import opened PpuDevice
  import OamDma

  function NextCount(count: u64): (next: u64)
    ensures next % 2 != count % 2
  {
    if count == 0xFFFF_FFFF_FFFF_FFFF then 0 else count + 1
  }

  class NesCpu {
    const ppu: NesPpu
    var masterClock: nat
    var cycleCount: u64
    var needHalt: bool
    var spriteDmaTransfer: bool
    var dmcDmaRunning: bool
    var abortDmcDma: bool
    var needDummyRead: bool
    var spriteDmaOffset: u8

    ghost predicate Valid()
      reads this, ppu, ppu.Repr
    {
      ppu.Valid() && PpuOk(ppu.State()) && this !in ppu.Repr
    }

    ghost function FlagState(): Flags
      reads this
    {
      Flags(needHalt, needDummyRead, dmcDmaRunning, abortDmcDma)
    }

    /** Between two cycles: the PPU is one dot's worth of clocks behind. */
    ghost predicate InStep()
      reads this, ppu
    {
      ppu.masterClock + PPU_DIVIDER == masterClock
    }

    constructor (ppu: NesPpu)
      requires ppu.Valid() && PpuOk(ppu.State())
      ensures Valid() && this.ppu == ppu
    {
      this.ppu := ppu;
      masterClock, cycleCount := 0, 0;
      needHalt, spriteDmaTransfer, dmcDmaRunning, abortDmcDma := false, false, false, false;
      needDummyRead, spriteDmaOffset := false, 0;
    }

    // ---- requests ----

    method RunDmaTransfer(offset: u8)
      modifies this`spriteDmaTransfer, this`spriteDmaOffset, this`needHalt
      ensures spriteDmaTransfer && spriteDmaOffset == offset && FlagState() == old(FlagState()).(halt := true)
    {
      spriteDmaTransfer := true;
      spriteDmaOffset := offset;
      needHalt := true;
    }

    method StartDmcTransfer()
      modifies this`dmcDmaRunning, this`needDummyRead, this`needHalt
      ensures FlagState() == Fire(old(FlagState()), Start)
    {
      dmcDmaRunning := true;
      needDummyRead := true;
      needHalt := true;
    }

    method StopDmcTransfer()
      modifies this`dmcDmaRunning, this`needDummyRead, this`needHalt, this`abortDmcDma
      ensures FlagState() == Fire(old(FlagState()), Stop)
    {
      if dmcDmaRunning {
        if needHalt {
          dmcDmaRunning := false;
          needDummyRead := false;
          needHalt := false;
        } else {
          abortDmcDma := true;
        }
      }
    }

    /** The APU's part of process_cpu_clock. */
    method ServeRequests(requests: seq<Request>)
      modifies this`dmcDmaRunning, this`needDummyRead, this`needHalt, this`abortDmcDma
      ensures FlagState() == FireAll(old(FlagState()), requests)
    {
      hide Fire, FlagState;
      var i := 0;
      while i < |requests|
        invariant i <= |requests|
        invariant FireAll(FlagState(), requests[i..]) == FireAll(old(FlagState()), requests)
      {
        match requests[i] {
          case Start => StartDmcTransfer();
          case Stop => StopDmcTransfer();
        }
        i := i + 1;
      }
    }

    // ---- cycles ----

    ghost function ClockState(): Clocks
      reads this, ppu
    {
      Clocks(masterClock, ppu.masterClock, 0)
    }

    method StartCpuCycle(forRead: bool, requests: seq<Request>, bus: Bus)
      requires Valid()
      modifies this`masterClock, this`cycleCount, this`dmcDmaRunning, this`needDummyRead, this`needHalt,
               this`abortDmcDma, ppu.Repr
      ensures Valid() && FlagState() == FireAll(old(FlagState()), requests)
      ensures cycleCount == NextCount(old(cycleCount))
      ensures var c := StartCycle(old(ClockState()), forRead);
              masterClock == c.cpu && ppu.masterClock == c.ppu
              && ppu.State() == Execs(old(ppu.State()), old(ppu.SettingsState()), bus, c.dots)
      ensures ppu.SettingsState() == old(ppu.SettingsState())
    {
      hide Execs, FireAll, PpuOk;
      masterClock := masterClock + if forRead then START_CLOCKS - 1 else START_CLOCKS + 1;
      cycleCount := NextCount(cycleCount);
      ppu.Run(masterClock - PPU_OFFSET, bus);
      ServeRequests(requests);
    }

    method EndCpuCycle(forRead: bool, bus: Bus)
      requires Valid()
      modifies this`masterClock, ppu.Repr
      ensures Valid()
      ensures var c := EndCycle(old(ClockState()), forRead);
              masterClock == c.cpu && ppu.masterClock == c.ppu
              && ppu.State() == Execs(old(ppu.State()), old(ppu.SettingsState()), bus, c.dots)
      ensures ppu.SettingsState() == old(ppu.SettingsState())
    {
      hide Execs, PpuOk;
      masterClock := masterClock + if forRead then END_CLOCKS + 1 else END_CLOCKS - 1;
      ppu.Run(masterClock - PPU_OFFSET, bus);
    }

    /** After the PPU's reset: nothing pending, and eight cycles that put the clocks in step. */
    method Reset(bus: Bus)
      requires Valid() && ppu.masterClock == 0
      modifies this, ppu.Repr
      ensures Valid() && InStep() && cycleCount == 7
      ensures !needHalt && !spriteDmaTransfer && !dmcDmaRunning && !abortDmcDma
      ensures ppu.State() == Execs(old(ppu.State()), old(ppu.SettingsState()), bus, 26)
      ensures ppu.SettingsState() == old(ppu.SettingsState())
    {
      hide Execs, PpuOk, DotsTo, EndCycle, StartCycle;
      spriteDmaTransfer, spriteDmaOffset, needHalt, dmcDmaRunning, abortDmcDma := false, 0, false, false, false;
      cycleCount := 0xFFFF_FFFF_FFFF_FFFF;
      masterClock := 12;
      ghost var p, st := ppu.State(), ppu.SettingsState();
      ghost var mix: seq<bool> := [];
      ExecsTwo(p, st, bus);
      var i := 0;
      while i < 8
        invariant 0 <= i <= 8 && |mix| == i
        invariant Valid() && !needHalt && !spriteDmaTransfer && !dmcDmaRunning && !abortDmcDma
        invariant cycleCount == if i == 0 then 0xFFFF_FFFF_FFFF_FFFF else i - 1
        invariant Cycles(mix) == Clocks(masterClock, ppu.masterClock, Cycles(mix).dots)
        invariant ppu.State() == Execs(p, st, bus, Cycles(mix).dots) && ppu.SettingsState() == st
      {
        DummyCycle(Cycles(mix), p, bus);
        assert (mix + [true])[..i] == mix;
        mix := mix + [true];
        i := i + 1;
      }
      Lockstep(mix);
    }

    /** A read cycle with nothing on the bus; `c` counts the dots since the PPU was in state `p`. */
    method DummyCycle(ghost c: Clocks, ghost p: Ppu, bus: Bus)
      requires Valid() && PpuOk(p) && c == Clocks(masterClock, ppu.masterClock, c.dots)
      requires ppu.State() == Execs(p, ppu.SettingsState(), bus, c.dots)
      modifies this`masterClock, this`cycleCount, this`dmcDmaRunning, this`needDummyRead, this`needHalt,
               this`abortDmcDma, ppu.Repr
      ensures Valid() && FlagState() == old(FlagState()) && cycleCount == NextCount(old(cycleCount))
      ensures var e := EndCycle(StartCycle(c, true), true);
              e == Clocks(masterClock, ppu.masterClock, e.dots)
              && ppu.State() == Execs(p, ppu.SettingsState(), bus, e.dots)
      ensures ppu.SettingsState() == old(ppu.SettingsState())
    {
      hide Execs, PpuOk, DotsTo;
      ghost var s, st := StartCycle(c, true), ppu.SettingsState();
      StartCpuCycle(true, [], bus);
      ExecsSum(p, st, bus, c.dots, s.dots - c.dots);
      EndCpuCycle(true, bus);
      ExecsSum(p, st, bus, s.dots, EndCycle(s, true).dots - s.dots);
    }

    /** A cycle in step: two dots before the bus access and one after. */
    method Cycle(requests: seq<Request>, access: Access, bus: Bus)
      requires Valid() && InStep()
      modifies this`masterClock, this`cycleCount, this`dmcDmaRunning, this`needDummyRead, this`needHalt,
               this`abortDmcDma, ppu.Repr
      ensures Valid() && InStep() && FlagState() == FireAll(old(FlagState()), requests)
      ensures cycleCount == NextCount(old(cycleCount)) && masterClock == old(masterClock) + 12
      ensures ppu.State() == OamDma.BusCycle(old(ppu.State()), access, old(ppu.SettingsState()), bus)
      ensures ppu.SettingsState() == old(ppu.SettingsState())
    {
      hide Exec, Execs, FireAll, PpuOk, WriteOam, DotsTo;
      ghost var c := ClockState();
      ghost var p, st := ppu.State(), ppu.SettingsState();
      CycleKeepsStep(c, true);
      StartCpuCycle(true, requests, bus);
      ExecsTwo(p, st, bus);
      if access.Write? { ppu.WriteOamData(access.value); }
      ghost var q := ppu.State();
      EndCpuCycle(true, bus);
      ExecsTwo(q, st, bus);
    }

    /** A cycle of an instruction. Its access may change the settings that the third dot sees; rendering goes on or off
        only at the end of that dot, so the next cycle may see others again. */
    method InstructionCycle(forRead: bool, third: Settings, next: Settings, bus: Bus)
      requires Valid() && InStep()
      modifies this, ppu.Repr
      ensures Valid() && InStep() && ppu.SettingsState() == next
      ensures ppu.State() == Execs(Execs(old(ppu.State()), old(ppu.SettingsState()), bus, 2), third, bus, 1)
    {
      hide Execs, FireAll, PpuOk, DotsTo, NesPpu.Valid, NesPpu.State;
      CycleKeepsStep(ClockState(), forRead);
      StartCpuCycle(forRead, [], bus);
      ppu.SetSettings(third);
      EndCpuCycle(forRead, bus);
      ppu.SetSettings(next);
    }

    // ---- DMA ----

    /** The chain every cycle of the loop begins with. */
    method ClearPending()
      modifies this`needHalt, this`needDummyRead, this`dmcDmaRunning, this`abortDmcDma
      ensures FlagState() == Clear(old(FlagState()))
    {
      if abortDmcDma {
        dmcDmaRunning := false;
        abortDmcDma := false;
        needDummyRead := false;
        needHalt := false;
      } else if needHalt {
        needHalt := false;
      } else if needDummyRead {
        needDummyRead := false;
      }
    }

    /** The DMA that the object's fields and the loop's local variables make up. */
    ghost function DmaState(counter: nat, addr: u8, value: u8, log: seq<Access>): Dma
      reads this
    {
      Dma(FlagState(), spriteDmaTransfer, spriteDmaOffset, counter, addr, value, cycleCount % 2 == 0, log)
    }

    /** The cycle before the loop. */
    method HaltCycle(w: World, bus: Bus)
      requires Valid() && InStep()
      modifies this`masterClock, this`cycleCount, this`needHalt, this`needDummyRead, this`dmcDmaRunning,
               this`abortDmcDma, ppu.Repr
      ensures Valid() && InStep() && masterClock == old(masterClock) + 12
      ensures DmaState(0, 0, 0, [Quiet])
           == Enter(old(FlagState()), spriteDmaTransfer, spriteDmaOffset, old(cycleCount) % 2 == 1, w)
      ensures ppu.State() == OamDma.BusCycle(old(ppu.State()), Quiet, old(ppu.SettingsState()), bus)
      ensures ppu.SettingsState() == old(ppu.SettingsState())
    {
      hide FireAll, OamDma.BusCycle, PpuOk, NesPpu.Valid, NesPpu.State;
      needHalt := false;
      Cycle(RequestsAt(w, 0), Quiet, bus);
      if abortDmcDma {
        dmcDmaRunning := false;
        abortDmcDma := false;
        if !spriteDmaTransfer { needDummyRead := false; }
      }
    }

    /** One iteration of the loop. */
    method DmaCycle(w: World, bus: Bus, counter: nat, addr: u8, value: u8, log: seq<Access>)
      returns (counter': nat, addr': u8, value': u8, access: Access)
      requires Valid() && InStep() && DmaOk(DmaState(counter, addr, value, log))
      modifies this`masterClock, this`cycleCount, this`needHalt, this`needDummyRead, this`dmcDmaRunning,
               this`abortDmcDma, this`spriteDmaTransfer, ppu.Repr
      ensures Valid() && InStep() && masterClock == old(masterClock) + 12
      ensures DmaState(counter', addr', value', log + [access])
          == DmaModel.Step(old(DmaState(counter, addr, value, log)), w)
      ensures ppu.State() == OamDma.BusCycle(old(ppu.State()), access, old(ppu.SettingsState()), bus)
      ensures ppu.SettingsState() == old(ppu.SettingsState())
    {
      hide Fire, FireAll, Clear, OamDma.BusCycle, PpuOk, NesPpu.Valid, NesPpu.State;
      counter', addr', value' := counter, addr, value;
      var n := |log|;
      var getCycle := cycleCount % 2 == 0;
      var fetch := getCycle && dmcDmaRunning && !needHalt && !needDummyRead;
      ClearPending();
      if fetch {
        value' := w.samples(n);
        access := Fetch(value');
        Cycle(RequestsAt(w, n), access, bus);
        dmcDmaRunning := false;
        abortDmcDma := false;
      } else if getCycle && spriteDmaTransfer {
        var address := spriteDmaOffset * 0x100 + addr;
        value' := w.sprites(n, address);
        access := Read(address, value');
        Cycle(RequestsAt(w, n), access, bus);
        addr' := (addr + 1) % 0x100;
        counter' := counter + 1;
      } else if !getCycle && spriteDmaTransfer && counter % 2 == 1 {
        access := Write(value);
        Cycle(RequestsAt(w, n), access, bus);
        counter' := counter + 1;
        if counter' == 0x200 { spriteDmaTransfer := false; }
      } else {
        access := Quiet;
        Cycle(RequestsAt(w, n), access, bus);
      }
    }

    /** process_pending_dma: nothing unless a halt is needed; otherwise the whole DMA, one PPU cycle per entry
        of the bus log it returns. */
    method ProcessPendingDma(w: World, bus: Bus) returns (log: seq<Access>)
      requires Valid() && InStep()
      modifies this`masterClock, this`cycleCount, this`needHalt, this`needDummyRead, this`dmcDmaRunning,
               this`abortDmcDma, this`spriteDmaTransfer, ppu.Repr
      ensures Valid() && InStep() && masterClock == old(masterClock) + 12 * |log|
      ensures ppu.State() == OamDma.BusCycles(old(ppu.State()), log, old(ppu.SettingsState()), bus)
      ensures if !old(needHalt) then log == [] && FlagState() == old(FlagState())
              else
                var even := old(cycleCount) % 2 == 1;
                var d := Loop(Enter(old(FlagState()), old(spriteDmaTransfer), spriteDmaOffset, even, w), w);
                log == d.log && FlagState() == d.f && !spriteDmaTransfer
    {
      hide OamDma.BusCycle, PpuOk, NesPpu.Valid, NesPpu.State, DmaModel.Step, Enter, Pending, Left;
      log := [];
      if !needHalt { return; }
      HaltCycle(w, bus);
      log := [Quiet];
      assert log[..0] == [];
      var counter: nat, addr: u8, value: u8 := 0, 0, 0;
      ghost var start := DmaState(counter, addr, value, log);
      ghost var d := start;
      while dmcDmaRunning || spriteDmaTransfer
        invariant Valid() && InStep() && masterClock == old(masterClock) + 12 * |log|
        invariant d == DmaState(counter, addr, value, log) && DmaOk(d) && d.counter <= 512
        invariant Loop(d, w) == Loop(start, w)
        invariant ppu.State() == OamDma.BusCycles(old(ppu.State()), log, old(ppu.SettingsState()), bus)
        invariant ppu.SettingsState() == old(ppu.SettingsState())
        decreases Left(d, w), 512 - d.counter, Pending(d.f), if d.even then 0 else 1
      {
        StepProgress(d, w);
        var access;
        counter, addr, value, access := DmaCycle(w, bus, counter, addr, value, log);
        assert (log + [access])[..|log|] == log;
        log := log + [access];
        d := DmaModel.Step(d, w);
      }
    }
  }
}
