/** When catching up in one batch is the same as catching up cycle by cycle, for the sequencer alone. */
module ApuBatches {
  import ApuLogs
  import opened ApuModel
  import opened Arithmetic
  import LazyApu
  import opened Types

  function Ticked(t: FrameType): seq<FrameType> { if t == NoTick then [] else [t] }

  /** The sequencer runs n cycles, each call consuming as much as it can. */
  function Batch(f: FrameCounter, n: nat): (r: (FrameCounter, seq<FrameType>))
    requires FrameOk(f)
    decreases n
  {
    if n == 0 then (f, [])
    else var s := RunFrame(f, n); var (g, ticks) := Batch(s.fc, n - s.ran); (g, Ticked(s.tick) + ticks)
  }

  /** The same, a call for every cycle. */
  function Singly(f: FrameCounter, n: nat): (r: (FrameCounter, seq<FrameType>))
    requires FrameOk(f)
    ensures FrameOk(r.0)
    decreases n
  {
    if n == 0 then (f, [])
    else var s := RunFrame(f, 1); var (g, ticks) := Singly(s.fc, n - 1); (g, Ticked(s.tick) + ticks)
  }

  function Gap(f: FrameCounter): int { NextStep(f) - f.pos }

  predicate Ticking(f: FrameCounter) { StepType(f.step) != NoTick }

  /** No $4017 write is pending, and a blocked ticking step is not due at once. */
  predicate Steady(f: FrameCounter) {
    FrameOk(f) && f.newValue < 0 && f.block <= 1 && (f.block == 1 ==> Gap(f) >= 2 || !Ticking(f))
  }

  /** The sequencer after its next step, whether that ticked or not. */
  function AfterStep(f: FrameCounter, ticked: bool): (g: FrameCounter)
    requires Steady(f)
    ensures Steady(g)
  {
    var irq := f.mode == 0 && f.step >= 3;
    f.(irqFlag := if irq then !(f.inhibit && f.step == 5) else f.irqFlag, irqLine := f.irqLine || (irq && !f.inhibit),
       step := (f.step + 1) % 6, pos := if f.step == 5 then 0 else NextStep(f),
       block := if ticked && Ticking(f) then 1 else 0)
  }

  lemma StepTaken(f: FrameCounter, n: nat)
    requires Steady(f) && n >= Gap(f)
    ensures var ticked := f.block == 0;
            RunFrame(f, n) == FrameRun(AfterStep(f, ticked), Gap(f), if ticked then StepType(f.step) else NoTick)
  {}

  lemma Coasted(f: FrameCounter, n: nat)
    requires Steady(f) && 0 < n < Gap(f)
    ensures RunFrame(f, n) == FrameRun(f.(pos := f.pos + n, block := 0), n, NoTick)
  {}

  /** A batch of n cycles reaches a ticking step in a call that is still blocked by the call before. */
  predicate Loses(f: FrameCounter, n: nat)
    requires Steady(f)
    decreases n
  {
    n >= Gap(f) && ((f.block == 1 && Ticking(f)) || Loses(AfterStep(f, f.block == 0), n - Gap(f)))
  }

  /** Ticking steps reached within n cycles. */
  function Due(f: FrameCounter, n: nat): nat
    requires Steady(f)
    decreases n
  {
    if n < Gap(f) then 0 else (if Ticking(f) then 1 else 0) + Due(AfterStep(f, true), n - Gap(f))
  }

  lemma {:induction false} DueIgnoresBlock(f: FrameCounter, g: FrameCounter, n: nat)
    requires Steady(f) && Steady(g) && f == g.(block := f.block)
    ensures Due(f, n) == Due(g, n)
  {}

  /** Short of the next step nothing happens but time, and the blocker expires. */
  lemma {:induction false} SinglyCoasts(f: FrameCounter, m: nat, n: nat)
    requires Steady(f) && m < Gap(f) && m <= n
    ensures var g := f.(pos := f.pos + m, block := if m > 0 then 0 else f.block);
            Steady(g) && Singly(f, n) == Singly(g, n - m)
    decreases m
  {
    hide RunFrame, StepCycle;
    if m > 0 {
      Coasted(f, 1);
      var g := f.(pos := f.pos + 1, block := 0);
      assert Ticked(NoTick) + Singly(g, n - 1).1 == Singly(g, n - 1).1;
      SinglyCoasts(g, m - 1, n - 1);
    }
  }

  /** Cycle by cycle the blocker has always expired when a step comes. */
  lemma SinglySteps(f: FrameCounter, n: nat)
    requires Steady(f) && n >= Gap(f)
    ensures var (g, ticks) := Singly(AfterStep(f, true), n - Gap(f));
            Singly(f, n) == (g, Ticked(StepType(f.step)) + ticks)
  {
    hide RunFrame, StepCycle;
    SinglyCoasts(f, Gap(f) - 1, n);
    var last := f.(pos := NextStep(f) - 1, block := if Gap(f) > 1 then 0 else f.block);
    StepTaken(last, 1);
    assert AfterStep(last, last.block == 0) == AfterStep(f, true);
  }

  lemma {:induction false} SinglyTicksAll(f: FrameCounter, n: nat)
    requires Steady(f)
    ensures |Singly(f, n).1| == Due(f, n)
    decreases n
  {
    hide RunFrame, StepCycle, AfterStep;
    if n < Gap(f) {
      SinglyCoasts(f, n, n);
    } else {
      SinglySteps(f, n);
      SinglyTicksAll(AfterStep(f, true), n - Gap(f));
    }
  }

  lemma {:induction false} BatchTicksFewer(f: FrameCounter, n: nat)
    requires Steady(f)
    ensures if Loses(f, n) then |Batch(f, n).1| < Due(f, n) else |Batch(f, n).1| == Due(f, n)
    decreases n
  {
    hide RunFrame, StepCycle;
    if n >= Gap(f) {
      StepTaken(f, n);
      BatchTicksFewer(AfterStep(f, f.block == 0), n - Gap(f));
      DueIgnoresBlock(AfterStep(f, f.block == 0), AfterStep(f, true), n - Gap(f));
    } else if n > 0 {
      Coasted(f, n);
    }
  }

  lemma {:induction false} BatchIsSingly(f: FrameCounter, n: nat)
    requires Steady(f) && !Loses(f, n)
    ensures Batch(f, n) == Singly(f, n)
    decreases n
  {
    hide RunFrame, StepCycle;
    if n < Gap(f) {
      SinglyCoasts(f, n, n);
      if n > 0 { Coasted(f, n); }
    } else {
      StepTaken(f, n);
      SinglySteps(f, n);
      assert AfterStep(f, f.block == 0) == AfterStep(f, true);
      BatchIsSingly(AfterStep(f, true), n - Gap(f));
    }
  }

  /** The length from which on a batch loses a tick: it has to reach a ticking step in the call after one that ticked.
      Steps 0, 1 and 2 tick in a row; steps 3 and 5 are silent and let the blocker expire. */
  function LossAt(f: FrameCounter): int {
    if f.block == 1 && Ticking(f) then Gap(f)
    else if f.step == 0 then StepCycle(f.mode, 1) - f.pos
    else if f.step == 1 then StepCycle(f.mode, 2) - f.pos
    else StepCycle(f.mode, 5) - f.pos + StepCycle(f.mode, 1)
  }

  lemma {:induction false} LosesFrom(f: FrameCounter, n: nat)
    requires Steady(f)
    ensures Loses(f, n) <==> n >= LossAt(f)
    decreases n
  {
    if n >= Gap(f) { LosesFrom(AfterStep(f, f.block == 0), n - Gap(f)); }
  }

  /** A batch comes to the same as single cycles, in ticks and state, if and only if it is shorter than `LossAt`. */
  lemma BatchExactlyWhen(f: FrameCounter, n: nat)
    requires Steady(f)
    ensures Batch(f, n) == Singly(f, n) <==> n < LossAt(f)
  {
    hide RunFrame, StepCycle, AfterStep, Loses, Due, LossAt;
    SinglyTicksAll(f, n);
    BatchTicksFewer(f, n);
    LosesFrom(f, n);
    if !Loses(f, n) { BatchIsSingly(f, n); }
  }

  /** Under `need_to_run` no batch gets that far, even with one more cycle. */
  lemma GuardedNeverLoses(f: FrameCounter, n: nat)
    requires FrameOk(f) && !FrameNeedsRun(f, n)
    ensures Steady(f) && n + 1 < LossAt(f) && Batch(f, n + 1) == Singly(f, n + 1)
  {
    BatchExactlyWhen(f, n + 1);
  }

  lemma StepsAhead(f: FrameCounter)
    requires FrameOk(f) && f.newValue < 0 && f.block == 0 && f.pos == 7456 && f.step == 0
    ensures Steady(f) && LossAt(f) == 7457 && Gap(f) == 1 && Ticking(f)
    ensures var g := AfterStep(f, true); Gap(g) == 7456 && Ticking(g) && Gap(AfterStep(g, true)) == 7458
  {}

  /** One cycle before the first quarter frame, a batch of 7457 cycles reaches the half frame at 14913 too and loses
      it. The lazy APU would have such a batch if it did not ask `need_to_run`. */
  lemma SecondStepLost(f: FrameCounter)
    requires FrameOk(f) && f.newValue < 0 && f.block == 0 && f.pos == 7456 && f.step == 0
    ensures Steady(f) && |Batch(f, 7457).1| < |Singly(f, 7457).1| == 2
  {
    StepsAhead(f);
    hide RunFrame, StepCycle, AfterStep, Loses, Gap, LossAt, Ticking, Steady, Batch, Singly;
    LosesFrom(f, 7457);
    SinglyTicksAll(f, 7457);
    BatchTicksFewer(f, 7457);
    var g := AfterStep(f, true);
    assert Due(AfterStep(g, true), 0) == 0;
    assert Due(g, 7456) == 1;
  }

  // ---- with a $4017 write pending ----

  /** A delayed write, counted down once per call. */
  predicate Pending(f: FrameCounter) {
    FrameOk(f) && f.newValue >= 0 && f.block <= 1 && (f.step > 0 ==> f.pos >= StepCycle(f.mode, f.step - 1))
  }

  function NewMode(f: FrameCounter): StepMode
    requires Pending(f)
  {
    if Bit(f.newValue, 7) then 1 else 0
  }

  function Period(mode: StepMode): nat { StepCycle(mode, 5) }

  /** Cycles in a row, from the next one on, on which the sequencer takes a step. Steps 3, 4 and 5 of mode 0, and
      steps 4 and 5 of mode 1, are neighbours. */
  function StepsInARow(f: FrameCounter): nat {
    if Gap(f) != 1 then 0 else if f.mode == 0 && f.step == 3 then 3 else if f.step == 4 then 2 else 1
  }

  lemma PendingAdvance(f: FrameCounter, n: nat)
    requires Pending(f) && n > 0
    ensures var r := AdvanceFrame(f, n);
            && r.ran == (if n >= Gap(f) then Gap(f) else n) <= 7458 && FrameOk(r.fc)
            && r.fc.newValue == f.newValue && r.fc.delay == f.delay && 0 <= r.fc.block <= 2
            && (r.fc.step > 0 ==> r.fc.pos >= StepCycle(r.fc.mode, r.fc.step - 1))
  {}

  /** One call while a write is pending: it is still pending, or it has restarted the sequence. */
  lemma PendingCall(f: FrameCounter, n: nat)
    requires Pending(f) && n > 0
    ensures var r := RunFrame(f, n);
            && r.ran == (if n >= Gap(f) then Gap(f) else n) <= 7458
            && if f.delay > 1 then Pending(r.fc) && r.fc.delay == f.delay - 1 && r.fc.newValue == f.newValue
               else Steady(r.fc) && r.fc.pos == 0 && r.fc.step == 0 && r.fc.mode == NewMode(f)
  {
    hide AdvanceFrame, Bit;
    PendingAdvance(f, n);
  }

  lemma StepFollows(f: FrameCounter, n: nat)
    requires Pending(f) && Gap(f) == 1 && n > 0
    ensures RunFrame(f, n) == RunFrame(f, 1)
    ensures f.delay > 1 ==> StepsInARow(RunFrame(f, 1).fc) == StepsInARow(f) - 1
  {}

  // Without a write the position goes round the sequence.
  lemma SteadyCall(f: FrameCounter, n: nat)
    requires FrameOk(f) && f.newValue < 0 && n > 0
    ensures var r := RunFrame(f, n);
            && 0 <= f.pos && f.pos + r.ran <= Period(f.mode) && r.fc.newValue < 0 && r.fc.mode == f.mode
            && r.fc.pos == if f.pos + r.ran == Period(f.mode) then 0 else f.pos + r.ran
  {}

  lemma GoRound(pos: nat, ran: nat, n: nat, period: nat)
    requires 0 < period && pos + ran <= period && ran <= n
    ensures ((if pos + ran == period then 0 else pos + ran) + n - ran) % period == (pos + n) % period
  {
    if pos + ran == period { ModDrop(n - ran, period); }
  }

  lemma ModDrop(x: nat, period: nat)
    requires 0 < period
    ensures (x + period) % period == x % period
  {
    var q := x / period;
    assert (q + 1) * period == q * period + period;
    DivideUnique(x + period, period, q + 1, x % period);
  }

  lemma {:induction false} SteadyBatch(f: FrameCounter, n: nat)
    requires FrameOk(f) && f.newValue < 0
    ensures var b := Batch(f, n).0; b.newValue < 0 && b.pos == (f.pos + n) % Period(f.mode)
    decreases n
  {
    PositionInPeriod(f);
    hide RunFrame, StepCycle, Period;
    if n > 0 {
      var r := RunFrame(f, n);
      SteadyCall(f, n);
      GoRound(f.pos, r.ran, n, Period(f.mode));
      SteadyBatch(r.fc, n - r.ran);
    }
  }

  lemma {:induction false} SteadySingly(f: FrameCounter, n: nat)
    requires FrameOk(f) && f.newValue < 0
    ensures var c := Singly(f, n).0; c.newValue < 0 && c.pos == (f.pos + n) % Period(f.mode)
    decreases n
  {
    PositionInPeriod(f);
    hide RunFrame, StepCycle, Period;
    if n > 0 {
      var q := RunFrame(f, 1);
      SteadyCall(f, 1);
      GoRound(f.pos, q.ran, n, Period(f.mode));
      SteadySingly(q.fc, n - 1);
    }
  }

  lemma PositionInPeriod(f: FrameCounter)
    requires FrameOk(f)
    ensures Period(f.mode) > 0 && f.pos % Period(f.mode) == f.pos
  {}

  /** The position n cycles after a restart. */
  function Place(mode: StepMode, n: nat): nat { n % Period(mode) }

  /** Cycle by cycle the write arrives on time: the delay is a number of cycles. */
  lemma {:induction false} SinglyOnTime(f: FrameCounter, n: nat)
    requires Pending(f)
    ensures var c := Singly(f, n).0;
            if n < f.delay then c.newValue >= 0 && c.delay == f.delay - n
            else c.newValue < 0 && c.pos == Place(NewMode(f), n - f.delay)
    decreases n
  {
    hide RunFrame, StepCycle;
    if n > 0 {
      PendingCall(f, 1);
      var g := RunFrame(f, 1).fc;
      if f.delay > 1 { SinglyOnTime(g, n - 1); } else { SteadySingly(g, n - 1); }
    }
  }

  /** The cycle in which a batch delivers the write: the delay is a number of calls. */
  function DeliveredAt(f: FrameCounter, n: nat): nat
    requires Pending(f)
    decreases n
  {
    if n == 0 then f.delay
    else
      PendingCall(f, n);
      var r := RunFrame(f, n);
      if f.delay > 1 then r.ran + DeliveredAt(r.fc, n - r.ran) else r.ran
  }

  lemma {:induction false} BatchLate(f: FrameCounter, n: nat)
    requires Pending(f)
    ensures var b, t := Batch(f, n).0, DeliveredAt(f, n);
            && f.delay <= t <= f.delay + 7457 * f.delay && (Gap(f) >= 2 && n >= 2 ==> t > f.delay)
            && if n < t then
                 b.newValue >= 0 && b.delay >= f.delay - n && (Gap(f) >= 2 && n >= 2 ==> b.delay > f.delay - n)
               else b.newValue < 0 && b.pos == Place(NewMode(f), n - t)
    decreases n
  {
    hide RunFrame, StepCycle;
    if n > 0 {
      PendingCall(f, n);
      var r := RunFrame(f, n);
      if f.delay > 1 { BatchLate(r.fc, n - r.ran); } else { SteadyBatch(r.fc, n - r.ran); }
    }
  }

  lemma ApartInPeriod(n: nat, early: nat, late: nat, mode: StepMode)
    requires early < late <= n && late < early + Period(mode)
    ensures Place(mode, n - early) != Place(mode, n - late)
  {
    hide Period;
    var period := Period(mode);
    var x, k, q, r := n - early, late - early, (n - late) / period, (n - late) % period;
    assert x == q * period + (r + k);
    if r + k < period { DivideUnique(x, period, q, r + k); }
    else {
      assert (q + 1) * period == q * period + period;
      DivideUnique(x, period, q + 1, r + k - period);
    }
  }

  lemma PeriodLong(f: FrameCounter)
    requires Pending(f)
    ensures 7457 * f.delay < Period(NewMode(f))
  {}

  /** Both have restarted, but not in the same cycle. */
  lemma RestartsApart(f: FrameCounter, n: nat)
    requires Pending(f) && Gap(f) >= 2 && n >= 2 && n >= DeliveredAt(f, n)
    ensures Batch(f, n).0.pos != Singly(f, n).0.pos
  {
    hide RunFrame, Period, Place, NewMode, Gap, Batch, Singly, DeliveredAt, StepCycle;
    PeriodLong(f);
    SinglyOnTime(f, n);
    BatchLate(f, n);
    ApartInPeriod(n, f.delay, DeliveredAt(f, n), NewMode(f));
  }

  /** Unless every cycle up to the delivery falls on a step, two cycles in one call are one too many. */
  lemma LateIsDifferent(f: FrameCounter, n: nat)
    requires Pending(f) && Gap(f) >= 2 && n >= 2
    ensures Batch(f, n) != Singly(f, n)
  {
    hide RunFrame, Period, Place, NewMode, Pending, Gap, Batch, Singly, DeliveredAt;
    if n >= DeliveredAt(f, n) {
      RestartsApart(f, n);
    } else {
      SinglyOnTime(f, n);
      BatchLate(f, n);
    }
  }

  lemma SameTail(head: seq<FrameType>, a: seq<FrameType>, b: seq<FrameType>)
    ensures head + a == head + b <==> a == b
  {
    if head + a == head + b { assert (head + a)[|head|..] == a && (head + b)[|head|..] == b; }
  }

  /** Whether the call that delivers the write ticks, when all calls up to it have been one-cycle steps. */
  predicate TicksAtDelivery(f: FrameCounter)
    requires Pending(f)
  {
    match f.delay
    case 1 => f.block == 0 && (Ticking(f) || NewMode(f) == 1)
    case 2 => f.step == 3 || (f.block == 1 && NewMode(f) == 1)
    case _ => false
  }

  /** The length from which on the restarted sequence loses a tick: its first step when the delivery ticked, else its
      second. */
  function LossAfterDelivery(f: FrameCounter): nat
    requires Pending(f)
  {
    if TicksAtDelivery(f) then StepCycle(NewMode(f), 0) else StepCycle(NewMode(f), 1)
  }

  /** One such call before the delivery leaves the question as it was. */
  lemma DeliveryLater(f: FrameCounter)
    requires Pending(f) && f.delay <= StepsInARow(f) && f.delay > 1
    ensures var g := RunFrame(f, 1).fc;
            && Pending(g) && g.delay == f.delay - 1 && g.delay <= StepsInARow(g) && NewMode(g) == NewMode(f)
            && (TicksAtDelivery(g) <==> TicksAtDelivery(f))
  {
    hide Bit;
  }

  lemma StepBlocks(f: FrameCounter)
    requires Pending(f) && Gap(f) == 1
    ensures var g := AdvanceFrame(f, 1).fc;
            && g.block == (if f.block == 0 && Ticking(f) then 2 else f.block)
            && g.newValue == f.newValue && g.delay == f.delay
  {}

  lemma DeliveryBlocks(f: FrameCounter)
    requires Pending(f) && f.delay <= StepsInARow(f) && f.delay == 1
    ensures RunFrame(f, 1).fc.block == if TicksAtDelivery(f) then 1 else 0
  {
    hide AdvanceFrame, Bit, Gap, Ticking, FrameOk;
    StepBlocks(f);
  }

  lemma Delivery(f: FrameCounter)
    requires Pending(f) && f.delay <= StepsInARow(f) && f.delay == 1
    ensures Steady(RunFrame(f, 1).fc) && LossAt(RunFrame(f, 1).fc) == LossAfterDelivery(f)
  {
    hide RunFrame, NewMode, TicksAtDelivery;
    PendingCall(f, 1);
    DeliveryBlocks(f);
  }

  /** With a write pending, batches and single cycles agree as long as each cycle falls on a step, for one cycle more,
      and, if the write has been delivered by then, for as long as the restarted sequence allows. */
  lemma {:induction false} PendingExactlyWhen(f: FrameCounter, n: nat)
    requires Pending(f)
    ensures Batch(f, n) == Singly(f, n) <==>
      if f.delay <= StepsInARow(f) then n < f.delay + LossAfterDelivery(f) else n <= StepsInARow(f) + 1
    decreases n
  {
    hide RunFrame, StepCycle, Steady, LossAt, TicksAtDelivery;
    if n > 0 && Gap(f) == 1 {
      var g, tick := RunFrame(f, 1).fc, RunFrame(f, 1).tick;
      PendingCall(f, 1);
      StepFollows(f, n);
      SameTail(Ticked(tick), Batch(g, n - 1).1, Singly(g, n - 1).1);
      if f.delay > 1 {
        if f.delay <= StepsInARow(f) { DeliveryLater(f); }
        PendingExactlyWhen(g, n - 1);
      } else {
        Delivery(f);
        BatchExactlyWhen(g, n - 1);
      }
    } else if n >= 2 {
      LateIsDifferent(f, n);
    }
  }

  // ---- every sequencer of the program is covered ----

  /** The position lies after the last step taken, a blocker of at most 1 is left, and no blocked ticking step is due at
      once. */
  predicate Orderly(f: FrameCounter) {
    && FrameOk(f) && f.block <= 1 && (f.block == 1 ==> Gap(f) >= 2 || !Ticking(f))
    && (f.step > 0 ==> f.pos >= StepCycle(f.mode, f.step - 1))
  }

  lemma OrderlyCovered(f: FrameCounter)
    requires Orderly(f)
    ensures Steady(f) || Pending(f)
  {}

  lemma ResetOrderly(f: FrameCounter, soft: bool)
    ensures Orderly(ResetFrame(f, soft))
  {}

  lemma AfterStepOrderly(f: FrameCounter, ticked: bool)
    requires Steady(f)
    ensures Orderly(AfterStep(f, ticked))
  {}

  lemma CoastOrderly(f: FrameCounter, n: nat)
    requires Steady(f) && Orderly(f) && 0 < n < Gap(f)
    ensures Orderly(f.(pos := f.pos + n, block := 0))
  {}

  /** After a step that ticks the next ticking step is far away. */
  lemma TickedSteps(f: FrameCounter, cycles: nat)
    requires Orderly(f) && cycles > 0
    ensures var g := AdvanceFrame(f, cycles).fc;
            0 <= g.block <= 2 && (g.block == 2 ==> Gap(g) >= 2 || !Ticking(g))
    ensures Gap(f.(step := 0, pos := 0, mode := 0)) == Gap(f.(step := 0, pos := 0, mode := 1)) == 7457
  {}

  lemma RunFrameOrderly(f: FrameCounter, cycles: nat)
    requires Orderly(f) && cycles > 0
    ensures Orderly(RunFrame(f, cycles).fc)
  {
    if f.newValue >= 0 {
      hide AdvanceFrame, Bit, StepType, StepCycle;
      PendingCall(f, cycles);
      TickedSteps(f, cycles);
    } else {
      hide RunFrame, AfterStep, StepCycle;
      if cycles >= Gap(f) {
        StepTaken(f, cycles);
        AfterStepOrderly(f, f.block == 0);
      } else {
        Coasted(f, cycles);
        CoastOrderly(f, cycles);
      }
    }
  }

  lemma WriteFrameOrderly(f: FrameCounter, value: u8, odd: bool)
    requires Orderly(f)
    ensures Orderly(WriteFrame(f, value, odd))
  {
    hide Bit;
  }

  lemma {:induction false} RunOrderly(s: Apu)
    requires Valid(s) && Orderly(s.fc)
    ensures Orderly(Run(s).fc)
    decreases s.cur - s.prev
  {
    hide Orderly, RunFrame, FrameTick, ReloadLengths, Drain;
    if s.prev < s.cur {
      RunFrameOrderly(s.fc, s.cur - s.prev);
      RunOrderly(RunOnce(s));
    }
  }

  lemma LineIrrelevant(f: FrameCounter)
    requires Orderly(f)
    ensures Orderly(f.(irqLine := false))
  {}

  lemma StepOrderly(s: Apu, op: LazyApu.Op, lazy: bool)
    requires InFrame(s) && Orderly(s.fc)
    ensures Orderly(LazyApu.Step(s, op, lazy).0.fc)
  {
    hide Run, RunDue, WriteFrame, WriteChannel, Enable, Orderly;
    var c := LazyApu.Later(s);
    match op
    case Clock =>
      if s.enabled {
        RunOrderly(ConsumeRequest(PollIfFlagged(c)));
        RunOrderly(Poll(c));
      }
    case WriteOp(_, value, odd) =>
      RunOrderly(s);
      WriteFrameOrderly(Run(s).fc, value, odd);
    case ReadOp(_) =>
      RunOrderly(s);
      LineIrrelevant(Run(s).fc);
    case RefillOp(_) =>
    case EndFrameOp => RunOrderly(Poll(s));
    case SetStatus(_) =>
  }

  lemma ResetKeepsOrderly(s: Apu, soft: bool)
    ensures Orderly(Reset(s, soft).fc)
  {
    ResetOrderly(s.fc, soft);
  }

  lemma {:induction false} EventsOrderly(s: Apu, events: seq<ApuLogs.Event>, lazy: bool)
    requires InFrame(s) && Orderly(s.fc)
    ensures Orderly(ApuLogs.RunEvents(s, events, lazy).fc)
    decreases events
  {
    hide Orderly, LazyApu.Step, Reset, InFrame;
    if events != [] {
      match events[0] {
        case Operate(op) => StepOrderly(s, op, lazy);
        case ResetEvent(soft) => ResetKeepsOrderly(s, soft);
      }
      EventsOrderly(ApuLogs.Happen(s, events[0], lazy), events[1..], lazy);
    }
  }

  /** Every sequencer that a run of the console reaches, resets included, is of one of the two kinds that the theorems
      above are about. */
  lemma EveryRunCovered(before: Apu, soft: bool, events: seq<ApuLogs.Event>, lazy: bool)
    ensures var f := ApuLogs.RunEvents(Reset(before, soft), events, lazy).fc;
            Orderly(f) && (Steady(f) || Pending(f))
  {
    ResetKeepsOrderly(before, soft);
    EventsOrderly(Reset(before, soft), events, lazy);
    OrderlyCovered(ApuLogs.RunEvents(Reset(before, soft), events, lazy).fc);
  }
}
