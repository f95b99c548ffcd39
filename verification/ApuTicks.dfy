/** How often the sequencer ticks in n cycles, in numbers. */
module ApuTicks {
  import opened ApuBatches
  import opened ApuModel
  import opened Types

  function Halves(ticks: seq<FrameType>): (n: nat)
    ensures n <= |ticks|
  {
    if ticks == [] then 0 else (if ticks[0] == Half then 1 else 0) + Halves(ticks[1..])
  }

  /** Half frames up to cycle x of a sequence: the four-step one has them at 14913 and 29829 of every 29830 cycles, the
      five-step one at 14913 and 37281 of every 37282. */
  function HalvesBy(mode: StepMode, x: nat): nat {
    var period := if mode == 0 then 29830 else 37282;
    var at := x % period;
    2 * (x / period) + (if at >= 14913 then 1 else 0) + if at >= period - 1 then 1 else 0
  }

  /** Quarter frames, of which every half frame is one. */
  function QuartersBy(mode: StepMode, x: nat): nat {
    var at := x % if mode == 0 then 29830 else 37282;
    HalvesBy(mode, x) + 2 * (x / if mode == 0 then 29830 else 37282)
    + (if at >= 7457 then 1 else 0) + if at >= 22371 then 1 else 0
  }

  /** The kind of tick that cycle `at` of a sequence has. */
  function TickAt(mode: StepMode, at: int): FrameType {
    if at == 14913 || at == (if mode == 0 then 29829 else 37281) then Half
    else if at == 7457 || at == 22371 then Quarter else NoTick
  }

  lemma StepNumbers(f: FrameCounter)
    requires Orderly(f)
    ensures 0 <= f.pos < (if f.mode == 0 then 29830 else 37282) && Gap(f) >= 1
    ensures FrameOk(f) && f.block <= 1 && (f.newValue >= 0 ==> 1 <= f.delay <= 4 && f.newValue < 256)
    ensures if Gap(f) == 1 then TickAt(f.mode, f.pos + 1) == StepType(f.step) && NextStep(f) == f.pos + 1
                                && (f.step == 5 <==> f.pos == if f.mode == 0 then 29829 else 37281)
            else TickAt(f.mode, f.pos + 1) == NoTick && f.pos != if f.mode == 0 then 29829 else 37281
  {}

  lemma AdvanceIgnoresWrite(f: FrameCounter)
    requires Orderly(f)
    ensures FrameOk(f.(newValue := -1))
    ensures var r := AdvanceFrame(f.(newValue := -1), 1);
            AdvanceFrame(f, 1) == r.(fc := r.fc.(newValue := f.newValue)) && r.fc.delay == f.delay
  {
    hide StepType, StepCycle;
  }

  lemma PendingAsSteady(f: FrameCounter)
    requires Orderly(f) && f.newValue >= 0 && f.delay > 1
    ensures var r := RunFrame(f.(newValue := -1), 1);
            RunFrame(f, 1) == r.(fc := r.fc.(newValue := f.newValue, delay := f.delay - 1))
  {
    hide AdvanceFrame, Orderly;
    AdvanceIgnoresWrite(f);
  }

  /** One cycle of a sequencer to which no write is delivered. */
  lemma OneCycle(f: FrameCounter)
    requires Orderly(f) && (f.newValue >= 0 ==> f.delay > 1)
    ensures var r := RunFrame(f, 1);
            && r.tick == TickAt(f.mode, f.pos + 1) && (r.fc.block == 1 <==> r.tick != NoTick) && r.fc.mode == f.mode
            && r.fc.pos == (if f.pos == (if f.mode == 0 then 29829 else 37281) then 0 else f.pos + 1)
            && r.fc.newValue == f.newValue && r.fc.delay == if f.newValue >= 0 then f.delay - 1 else f.delay
  {
    hide RunFrame, StepCycle, TickAt;
    var g := if f.newValue >= 0 then f.(newValue := -1) else f;
    StepNumbers(f);
    if Gap(g) == 1 { StepTaken(g, 1); } else { Coasted(g, 1); }
    if f.newValue >= 0 { PendingAsSteady(f); }
  }

  lemma HalvesStep(mode: StepMode, pos: nat)
    requires pos < if mode == 0 then 29830 else 37282
    ensures var last := if mode == 0 then 29829 else 37281;
            HalvesBy(mode, pos + 1) == HalvesBy(mode, pos) + (if pos + 1 == 14913 || pos + 1 == last then 1 else 0)
  {}

  lemma ByStep(mode: StepMode, pos: nat)
    requires pos < if mode == 0 then 29830 else 37282
    ensures var last := if mode == 0 then 29829 else 37281;
            && HalvesBy(mode, pos + 1)
               == HalvesBy(mode, pos) + (if pos + 1 == 14913 || pos + 1 == last then 1 else 0)
            && QuartersBy(mode, pos + 1)
               == QuartersBy(mode, pos)
                  + (if pos + 1 == 7457 || pos + 1 == 14913 || pos + 1 == 22371 || pos + 1 == last then 1 else 0)
  {
    HalvesStep(mode, pos);
    hide HalvesBy;
  }

  lemma ByRound(mode: StepMode, x: nat)
    ensures var period := if mode == 0 then 29830 else 37282;
            && HalvesBy(mode, x + period) == HalvesBy(mode, x) + 2
            && QuartersBy(mode, x + period) == QuartersBy(mode, x) + 4
  {}

  lemma HalvesCons(tick: FrameType, ticks: seq<FrameType>)
    ensures Halves(Ticked(tick) + ticks) == Halves(ticks) + if tick == Half then 1 else 0
  {
    if tick == NoTick { assert Ticked(tick) + ticks == ticks; } else { assert (Ticked(tick) + ticks)[1..] == ticks; }
  }

  /** Without a $4017 write pending. */
  lemma {:induction false} SteadyTicks(f: FrameCounter, n: nat)
    requires Orderly(f) && f.newValue < 0
    ensures Halves(Singly(f, n).1) == HalvesBy(f.mode, f.pos + n) - HalvesBy(f.mode, f.pos)
    ensures |Singly(f, n).1| == QuartersBy(f.mode, f.pos + n) - QuartersBy(f.mode, f.pos)
    decreases n
  {
    hide RunFrame, HalvesBy, QuartersBy, StepCycle, StepType, Orderly;
    StepNumbers(f);
    if n > 0 {
      var r := RunFrame(f, 1);
      RunFrameOrderly(f, 1);
      OneCycle(f);
      ByStep(f.mode, f.pos);
      ByRound(f.mode, n - 1);
      ByRound(f.mode, 0);
      SteadyTicks(r.fc, n - 1);
      HalvesCons(r.tick, Singly(r.fc, n - 1).1);
    }
  }

  // ---- with a $4017 write pending ----

  /** The cycle in which the write is delivered. It ticks at once if it selects the five-step sequence, unless this
      cycle or the one before has ticked. */
  lemma DeliveryCycle(f: FrameCounter)
    requires Orderly(f) && f.newValue >= 0 && f.delay == 1
    ensures var r, mode := RunFrame(f, 1), f.newValue / 128 % 2;
            && r.tick == (if TickAt(f.mode, f.pos + 1) != NoTick then TickAt(f.mode, f.pos + 1)
                          else if mode == 1 && f.block == 0 then Half else NoTick)
            && r.fc.mode == mode && r.fc.pos == 0 && r.fc.newValue < 0
  {
    hide AdvanceFrame, StepCycle, StepType, TickAt;
    StepNumbers(f);
    AdvanceTicks(f);
  }

  lemma AdvanceTicks(f: FrameCounter)
    requires Orderly(f)
    ensures var r := AdvanceFrame(f, 1);
            && r.tick == TickAt(f.mode, f.pos + 1) && r.fc.newValue == f.newValue && r.fc.delay == f.delay
            && r.fc.block == if r.tick != NoTick then 2 else f.block
  {
    hide StepCycle, StepType, TickAt;
    StepNumbers(f);
  }

  /** Whether the delivery ticks on its own account. */
  predicate DeliveryTicks(f: FrameCounter) {
    && f.newValue >= 0 && f.newValue / 128 % 2 == 1 && TickAt(f.mode, f.pos + f.delay) == NoTick
    && if f.delay == 1 then f.block == 0 else TickAt(f.mode, f.pos + f.delay - 1) == NoTick
  }

  /** Half frames and all ticks in the next n cycles: up to the delivery of a pending write as the old sequence has
      them, one for the delivery perhaps, and from then on as the new sequence has them from its beginning. */
  function HalvesIn(f: FrameCounter, n: nat): int
    requires Orderly(f)
  {
    StepNumbers(f);
    if f.newValue < 0 || n < f.delay then HalvesBy(f.mode, f.pos + n) - HalvesBy(f.mode, f.pos)
    else HalvesBy(f.mode, f.pos + f.delay) - HalvesBy(f.mode, f.pos) + (if DeliveryTicks(f) then 1 else 0)
         + HalvesBy(f.newValue / 128 % 2, n - f.delay)
  }

  function TicksIn(f: FrameCounter, n: nat): int
    requires Orderly(f)
  {
    StepNumbers(f);
    if f.newValue < 0 || n < f.delay then QuartersBy(f.mode, f.pos + n) - QuartersBy(f.mode, f.pos)
    else QuartersBy(f.mode, f.pos + f.delay) - QuartersBy(f.mode, f.pos) + (if DeliveryTicks(f) then 1 else 0)
         + QuartersBy(f.newValue / 128 % 2, n - f.delay)
  }

  /** In every sequencer that a run reaches. */
  lemma {:induction false} TicksDue(f: FrameCounter, n: nat)
    requires Orderly(f)
    ensures Halves(Singly(f, n).1) == HalvesIn(f, n) && |Singly(f, n).1| == TicksIn(f, n)
    decreases n
  {
    hide RunFrame, HalvesBy, QuartersBy, StepCycle, StepType, Orderly, Gap, Ticking, TickAt;
    StepNumbers(f);
    if f.newValue < 0 {
      SteadyTicks(f, n);
    } else if n > 0 {
      var r := RunFrame(f, 1);
      RunFrameOrderly(f, 1);
      HalvesCons(r.tick, Singly(r.fc, n - 1).1);
      TicksDue(r.fc, n - 1);
      NextTicks(f, n);
    }
  }

  lemma NextTicks(f: FrameCounter, n: nat)
    requires Orderly(f) && Orderly(RunFrame(f, 1).fc) && f.newValue >= 0 && n > 0
    ensures var r := RunFrame(f, 1);
            && HalvesIn(f, n) == HalvesIn(r.fc, n - 1) + (if r.tick == Half then 1 else 0)
            && TicksIn(f, n) == TicksIn(r.fc, n - 1) + (if r.tick != NoTick then 1 else 0)
  {
    hide RunFrame, HalvesBy, QuartersBy, StepCycle, StepType, Orderly, Gap, Ticking;
    StepNumbers(f);
    ByStep(f.mode, f.pos);
    ByRound(f.mode, 0);
    ByStart(f.mode);
    ByStart(f.newValue / 128 % 2);
    if f.delay == 1 {
      DeliveryCycle(f);
    } else {
      OneCycle(f);
      StepNumbers(RunFrame(f, 1).fc);
      ByRound(f.mode, n - 1);
      ByRound(f.mode, f.delay - 1);
    }
  }

  lemma ByStart(mode: StepMode)
    ensures HalvesBy(mode, 0) == QuartersBy(mode, 0) == 0
  {}

  // ---- $4017 and interrupts ----

  /** What a write to $4017 leaves to be delivered, three cycles later or four after an odd cycle; bit 6 inhibits the
      interrupt at once. */
  lemma FrameWritten(f: FrameCounter, value: u8, odd: bool)
    ensures var g, inhibit := WriteFrame(f, value, odd), value / 64 % 2 == 1;
            g == f.(newValue := value, delay := if odd then 4 else 3, inhibit := inhibit,
                    irqLine := !inhibit && f.irqLine, irqFlag := !inhibit && f.irqFlag)
  {}

  /** One cycle's effect on the frame interrupt: the last three cycles of the four-step sequence raise the line unless
      inhibited. The flag goes up with it; inhibited, it goes up too, but is down again at the end of the sequence. */
  lemma IrqCycle(f: FrameCounter)
    requires Orderly(f) && f.newValue < 0
    ensures var r, at := RunFrame(f, 1).fc, f.pos + 1;
            && r.irqLine == (f.irqLine || (f.mode == 0 && at >= 29828 && !f.inhibit)) && r.inhibit == f.inhibit
            && r.irqFlag == if f.mode == 0 && at >= 29828 then !f.inhibit || at < 29830 else f.irqFlag
  {
    hide RunFrame;
    if Gap(f) == 1 { StepTaken(f, 1); } else { Coasted(f, 1); }
  }

  /** The line after n cycles without a $4017 write. */
  lemma {:induction false} IrqRaised(f: FrameCounter, n: nat)
    requires Orderly(f) && f.newValue < 0
    ensures var g := Singly(f, n).0;
            && g.irqLine == (f.irqLine || (f.mode == 0 && !f.inhibit && n > 0 && f.pos + n >= 29828))
            && (!f.inhibit ==> g.irqFlag == (f.irqFlag || (f.mode == 0 && n > 0 && f.pos + n >= 29828)))
    decreases n
  {
    hide RunFrame, StepCycle, StepType, Orderly;
    StepNumbers(f);
    if n > 0 {
      RunFrameOrderly(f, 1);
      OneCycle(f);
      IrqCycle(f);
      IrqRaised(RunFrame(f, 1).fc, n - 1);
    }
  }
}
