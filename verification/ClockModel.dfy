/** The CPU's master clock pulling the PPU along (src/systems/nes/nes_cpu.cpp, src/systems/nes/nes_ppu.cpp). */
module ClockModel {
  const PPU_DIVIDER := 4
  const PPU_OFFSET := 1
  const START_CLOCKS := 6
  const END_CLOCKS := 6

  /** Dots executed by run(runTo) from PPU clock `clock`: always one, then while the next still fits. */
  function DotsTo(clock: nat, runTo: int): (n: nat)
    ensures n >= 1
    decreases if runTo > clock then runTo - clock else 0
  {
    1 + if clock + 2 * PPU_DIVIDER <= runTo then DotsTo(clock + PPU_DIVIDER, runTo) else 0
  }

  /** Exactly the dots that fit, but at least one. */
  lemma {:induction false} DotsToFit(clock: nat, runTo: int)
    ensures DotsTo(clock, runTo) == if runTo < clock + 2 * PPU_DIVIDER then 1 else (runTo - clock) / PPU_DIVIDER
    decreases if runTo > clock then runTo - clock else 0
  {
    if clock + 2 * PPU_DIVIDER <= runTo { DotsToFit(clock + PPU_DIVIDER, runTo); }
  }

  /** The two master clocks, and the dots run so far. */
  datatype Clocks = Clocks(cpu: nat, ppu: nat, dots: nat)

  function Pull(c: Clocks): Clocks {
    var n := DotsTo(c.ppu, c.cpu - PPU_OFFSET);
    c.(ppu := c.ppu + n * PPU_DIVIDER, dots := c.dots + n)
  }

  function StartCycle(c: Clocks, forRead: bool): Clocks {
    Pull(c.(cpu := c.cpu + if forRead then START_CLOCKS - 1 else START_CLOCKS + 1))
  }

  function EndCycle(c: Clocks, forRead: bool): Clocks {
    Pull(c.(cpu := c.cpu + if forRead then END_CLOCKS + 1 else END_CLOCKS - 1))
  }

  /** The PPU is four master clocks behind: the state between two CPU cycles. */
  predicate InStep(c: Clocks) { c.ppu + PPU_DIVIDER == c.cpu }

  /** Every cycle runs two dots before the bus access and one after it, read or write. */
  lemma CycleKeepsStep(c: Clocks, forRead: bool)
    requires InStep(c)
    ensures var s := StartCycle(c, forRead); var e := EndCycle(s, forRead);
            s.dots == c.dots + 2 && e.dots == c.dots + 3 && e.cpu == c.cpu + 12 && InStep(e)
  {
    hide DotsTo;
    DotsToFit(c.ppu, StartCycle(c, forRead).cpu - PPU_OFFSET);
    DotsToFit(StartCycle(c, forRead).ppu, EndCycle(StartCycle(c, forRead), forRead).cpu - PPU_OFFSET);
  }

  const RESET := Clocks(12, 0, 0)

  /** CPU cycles from reset, by whether each is a read. */
  function Cycles(mix: seq<bool>): Clocks
    decreases |mix|
  {
    if mix == [] then RESET
    else var last := mix[|mix| - 1]; EndCycle(StartCycle(Cycles(mix[..|mix| - 1]), last), last)
  }

  /** After n >= 1 cycles from reset, in any mix of reads and writes, the PPU is four master clocks behind the
      CPU and exactly 3n + 2 dots have run. */
  lemma {:induction false} Lockstep(mix: seq<bool>)
    requires mix != []
    ensures InStep(Cycles(mix)) && Cycles(mix) == Clocks(12 + 12 * |mix|, 8 + 12 * |mix|, 3 * |mix| + 2)
    decreases |mix|
  {
    hide DotsTo;
    var before, last := mix[..|mix| - 1], mix[|mix| - 1];
    if before == [] {
      DotsToFit(0, StartCycle(RESET, last).cpu - PPU_OFFSET);
      DotsToFit(StartCycle(RESET, last).ppu, EndCycle(StartCycle(RESET, last), last).cpu - PPU_OFFSET);
    } else {
      Lockstep(before);
      CycleKeepsStep(Cycles(before), last);
    }
  }
}
