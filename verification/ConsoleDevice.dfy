/** Running a frame (src/systems/nes/nes_console.cpp). */
module ConsoleDevice {
  import opened Types
  import opened PpuModel
  import opened FrameClock
  import opened PpuDevice
  import opened CpuDevice

  /** A bus cycle of an instruction: its kind, and the PPU's settings at its third dot and after it. */
  datatype BusCycle = BusCycle(forRead: bool, third: Settings, next: Settings)

  /** An instruction is some cycles, fewer than a frame has. */
  predicate Instruction(cycles: seq<BusCycle>) { 1 <= |cycles| && 3 * |cycles| < 89341 }

  class NesConsole {
    const cpu: NesCpu
    const ppu: NesPpu
    var lastCompletedPpuFrame: u32

    ghost predicate Valid()
      reads this, cpu, cpu.ppu, cpu.ppu.Repr
    {
      cpu.ppu == ppu && cpu.Valid() && cpu.InStep() && cpu != this as object && this !in ppu.Repr
    }

    constructor (cpu: NesCpu)
      requires cpu.Valid() && cpu.InStep()
      ensures Valid() && this.cpu == cpu
    {
      this.cpu, ppu := cpu, cpu.ppu;
      lastCompletedPpuFrame := 0;
    }

    /** cpu_->exec(); `skips` is what its dots saw. */
    method Exec(cycles: seq<BusCycle>, bus: Bus) returns (ghost skips: seq<bool>)
      requires Valid()
      modifies cpu, ppu.Repr
      ensures Valid() && |skips| == 3 * |cycles|
      ensures ppu.State().pos == Positions(old(ppu.State().pos), skips)
    {
      hide Execs, PpuOk, NesPpu.Valid, NesPpu.State, Positions, CycleSkips;
      skips := [];
      ghost var start := ppu.State().pos;
      NoDots(start);
      var i := 0;
      while i < |cycles|
        invariant i <= |cycles| && Valid() && |skips| == 3 * i
        invariant ppu.State().pos == Positions(start, skips)
      {
        ghost var p, st := ppu.State(), ppu.SettingsState();
        cpu.InstructionCycle(cycles[i].forRead, cycles[i].third, cycles[i].next, bus);
        CyclePositions(p, st, cycles[i].third, bus);
        PositionsSum(start, skips, CycleSkips(st, cycles[i].third));
        skips := skips + CycleSkips(st, cycles[i].third);
        i := i + 1;
      }
    }

    /** run_frame: instructions until the frame counter moves. It moves by exactly one, and the loop ends
        because every instruction brings the start of vertical blanking closer. */
    method RunFrame(program: nat -> seq<BusCycle>, bus: Bus) returns (n: nat)
      requires Valid() && forall i: nat :: Instruction(program(i))
      modifies this, cpu, ppu.Repr
      ensures Valid() && n > 0
      ensures var frame := old(ppu.State().pos.frame);
              ppu.State().pos.frame == (frame + 1) % 0x1_0000_0000
              && lastCompletedPpuFrame == if frame == 0xFFFF_FFFF then 0 else frame
    {
      hide PpuOk, NesPpu.Valid, Positions, Index, Instruction;
      n := 0;
      ghost var start := ppu.State().pos;
      var frame: int := ppu.frameCount;
      while frame == ppu.frameCount
        invariant Valid() && ppu.frameCount == ppu.State().pos.frame && (n == 0 ==> ppu.State().pos == start)
        invariant start.frame == frame
        invariant n > 0 ==> ppu.frameCount == frame || ppu.frameCount == (frame + 1) % 0x1_0000_0000
        decreases ppu.frameCount == frame, 89342 - Index(ppu.State().pos)
      {
        ghost var p := ppu.State().pos;
        assert Instruction(program(n));
        ghost var skips := Exec(program(n), bus);
        InstructionLength(program(n));
        Advance(p, skips);
        n := n + 1;
      }
      lastCompletedPpuFrame := if ppu.frameCount > 0 then ppu.frameCount - 1 else 0;
    }
  }

  lemma InstructionLength(cycles: seq<BusCycle>)
    requires Instruction(cycles)
    ensures 1 <= |cycles| && 3 * |cycles| < 89341
  {}

  lemma NoDots(p: Position)
    ensures Positions(p, []) == p
  {}
}
