/** The VRC mappers' IRQ unit (src/systems/nes/mappers/vrc_irq.cpp): a prescaler that divides by 341/3. */
module VrcIrqUnit {
  import opened Arithmetic
  import opened Types

  datatype Vrc = Vrc(reload: u8, counter: u8, prescaler: i16, enabled: bool, enabledAfterAck: bool, cycleMode: bool)

  /** process_cpu_clock: the new state, and whether an IRQ is raised. */
  function Clock(v: Vrc): (Vrc, bool) {
    if !v.enabled then (v, false)
    else
      var p := Wrap16(v.prescaler - 3);
      if !v.cycleMode && p > 0 then (v.(prescaler := p), false)
      else
        var w := v.(prescaler := Wrap16(p + 341));
        if v.counter == 0xFF then (w.(counter := v.reload), true) else (w.(counter := v.counter + 1), false)
  }

  function Control(v: Vrc, value: u8): Vrc {
    var w := v.(enabledAfterAck := Bit(value, 0), enabled := Bit(value, 1), cycleMode := Bit(value, 2));
    if w.enabled then w.(counter := v.reload, prescaler := 341) else w
  }

  function Acknowledge(v: Vrc): Vrc { v.(enabled := v.enabledAfterAck) }

  class VrcIrq {
    var reloadValue: u8
    var counter: u8
    var prescalerCounter: i16
    var enabled: bool
    var enabledAfterAck: bool
    var cycleMode: bool
    var irqSource: bool

    ghost function State(): Vrc
      reads this
    {
      Vrc(reloadValue, counter, prescalerCounter, enabled, enabledAfterAck, cycleMode)
    }

    constructor ()
      ensures State() == Vrc(0, 0, 0, false, false, false) && !irqSource
    {
      reloadValue, counter, prescalerCounter := 0, 0, 0;
      enabled, enabledAfterAck, cycleMode, irqSource := false, false, false, false;
    }

    method ProcessCpuClock()
      modifies this
      ensures State() == Clock(old(State())).0 && irqSource == (old(irqSource) || Clock(old(State())).1)
    {
      if !enabled { return; }
      prescalerCounter := Wrap16(prescalerCounter - 3);
      if cycleMode || prescalerCounter <= 0 {
        if counter == 0xFF {
          counter := reloadValue;
          irqSource := true;
        } else {
          counter := counter + 1;
        }
        prescalerCounter := Wrap16(prescalerCounter + 341);
      }
    }

    method SetReloadValueNibble(value: u8, highBits: bool)
      modifies this
      ensures State() == old(State()).(reload := if highBits then value % 16 * 16 + old(reloadValue) % 16
                                                 else old(reloadValue) / 16 * 16 + value % 16)
      ensures irqSource == old(irqSource)
    {
      reloadValue := if highBits then reloadValue % 16 + value % 16 * 16
          else reloadValue - reloadValue % 16 + value % 16;
    }

    method SetControlValue(value: u8)
      modifies this
      ensures State() == Control(old(State()), value) && !irqSource
    {
      hide Bit;
      enabledAfterAck := Bit(value, 0);
      enabled := Bit(value, 1);
      cycleMode := Bit(value, 2);
      if enabled {
        counter := reloadValue;
        prescalerCounter := 341;
      }
      irqSource := false;
    }

    method AcknowledgeIrq()
      modifies this
      ensures State() == Acknowledge(old(State())) && !irqSource
    {
      enabled := enabledAfterAck;
      irqSource := false;
    }
  }

  // ---- runs ----

  datatype Op = CpuClock | Ack

  /** The state after some clocks and acknowledgements, and how many IRQs were raised. */
  function Run(v: Vrc, ops: seq<Op>): (Vrc, nat)
    decreases |ops|
  {
    if ops == [] then (v, 0)
    else
      var (w, n) := Run(v, ops[..|ops| - 1]);
      match ops[|ops| - 1]
      case Ack => (Acknowledge(w), n)
      case CpuClock => var (x, irq) := Clock(w); (x, if irq then n + 1 else n)
  }

  function Clocks(ops: seq<Op>): nat
    decreases |ops|
  {
    if ops == [] then 0 else Clocks(ops[..|ops| - 1]) + if ops[|ops| - 1] == CpuClock then 1 else 0
  }

  /** Times the counter has been clocked after n CPU clocks. */
  function Ticks(n: nat, cycleMode: bool): nat { if cycleMode then n else 3 * n / 341 }

  /** The state n clocks after an enabling control write: the counter runs through latch .. 255 over and over. */
  ghost predicate Exact(v: Vrc, start: Vrc, n: nat, irqs: nat) {
    var period, ticks := 256 - start.reload, Ticks(n, start.cycleMode);
    && v == start.(counter := v.counter, prescaler := v.prescaler)
    && (!start.cycleMode ==> v.prescaler == 341 - 3 * n % 341)
    && v.counter == start.reload + ticks % period && irqs == ticks / period
  }

  lemma ClockKeepsExact(v: Vrc, start: Vrc, n: nat, irqs: nat)
    requires Exact(v, start, n, irqs) && start.enabled
    ensures var (w, irq) := Clock(v); Exact(w, start, n + 1, if irq then irqs + 1 else irqs)
  {
    NextQuotient(Ticks(n, start.cycleMode), 256 - start.reload);
    if !start.cycleMode { ScanlineClock(v, n); }
  }

  /** In scanline mode the counter is clocked exactly when 3n passes a multiple of 341. */
  lemma ScanlineClock(v: Vrc, n: nat)
    requires v.enabled && !v.cycleMode && v.prescaler == 341 - 3 * n % 341
    ensures var (w, irq) := Clock(v); var ticked := 3 * (n + 1) / 341 == 3 * n / 341 + 1;
            && w.prescaler == 341 - 3 * (n + 1) % 341 && (!ticked ==> 3 * (n + 1) / 341 == 3 * n / 341)
            && irq == (ticked && v.counter == 0xFF)
            && w.counter == if !ticked then v.counter else if v.counter == 0xFF then v.reload else v.counter + 1
  {
    Thirds(n);
  }

  lemma Thirds(n: nat)
    ensures var rest := 3 * n % 341;
            if rest + 3 >= 341 then 3 * (n + 1) / 341 == 3 * n / 341 + 1 && 3 * (n + 1) % 341 == rest + 3 - 341
            else 3 * (n + 1) / 341 == 3 * n / 341 && 3 * (n + 1) % 341 == rest + 3
  {}

  /** The IRQ timer does not drift: n clocks after an enabling control write, however acknowledgements fall
      between them, the prescaler is at 341 - (3n mod 341), the counter has been clocked floor(3n / 341) times (n
      times in cycle mode), and one IRQ was raised for every 256 - latch of those. Acknowledging must not
      disable the unit, which the control write's bit 0 says. */
  lemma {:induction false} NoDrift(v: Vrc, value: u8, ops: seq<Op>)
    requires value / 2 % 2 == 1 && (value % 2 == 1 || Ack !in ops)
    ensures var start := Control(v, value); var (w, irqs) := Run(start, ops);
            && start.reload == v.reload && start.cycleMode == (value / 4 % 2 == 1)
            && Exact(w, start, Clocks(ops), irqs)
    decreases |ops|
  {
    hide Clock, Exact;
    var start := Control(v, value);
    if ops == [] {
      StartIsExact(start);
    } else {
      var before := ops[..|ops| - 1];
      NoDrift(v, value, before);
      var (w, irqs) := Run(start, before);
      if ops[|ops| - 1] == CpuClock {
        ClockKeepsExact(w, start, Clocks(before), irqs);
      } else {
        AckKeeps(w, start, Clocks(before), irqs);
      }
    }
  }

  lemma AckKeeps(v: Vrc, start: Vrc, n: nat, irqs: nat)
    requires Exact(v, start, n, irqs) && start.enabled && start.enabledAfterAck
    ensures Acknowledge(v) == v
  {}

  lemma StartIsExact(start: Vrc)
    requires start.counter == start.reload && start.prescaler == 341
    ensures Exact(start, start, 0, 0)
  {
    DivideUnique(0, 256 - start.reload, 0, 0);
  }

  /** An acknowledgement with bit 0 clear stops the unit: nothing changes until the next control write. */
  lemma {:induction false} StoppedStays(v: Vrc, ops: seq<Op>)
    requires !v.enabled && !v.enabledAfterAck
    ensures Run(v, ops) == (v, 0)
    decreases |ops|
  {
    if ops != [] { StoppedStays(v, ops[..|ops| - 1]); }
  }

  lemma {:induction false} RunAppend(v: Vrc, a: seq<Op>, b: seq<Op>)
    ensures var (w, m) := Run(v, a); var (x, n) := Run(w, b); Run(v, a + b) == (x, m + n)
    decreases |b|
  {
    if b == [] {
      assert a + b == a;
    } else {
      RunAppend(v, a, b[..|b| - 1]);
      assert (a + b)[..|a + b| - 1] == a + b[..|b| - 1];
    }
  }

  /** After a control write with bit 1 set and bit 0 clear, the first acknowledgement ends it: the counter stands where
      it was and no further IRQ comes, whatever clocks and acknowledgements follow. */
  lemma FirstAckStops(v: Vrc, value: u8, before: seq<Op>, after: seq<Op>)
    requires value % 2 == 0
    ensures var start := Control(v, value); var (w, irqs) := Run(start, before);
            Run(start, before + [Ack] + after) == (w.(enabled := false), irqs)
  {
    hide Clock;
    var start := Control(v, value);
    ControlBits(v, value);
    ModesStay(start, before);
    RunAppend(start, before, [Ack]);
    RunAppend(start, before + [Ack], after);
    var (w, irqs) := Run(start, before);
    assert Run(w, [Ack]) == (Acknowledge(w), Run(w, [Ack][..0]).1);
    assert Run(w, []) == (w, 0) && [Ack][..0] == [];
    StoppedStays(w.(enabled := false), after);
  }

  lemma ControlBits(v: Vrc, value: u8)
    ensures var w := Control(v, value);
            && w.enabledAfterAck == (value % 2 == 1) && w.enabled == (value / 2 % 2 == 1)
            && w.cycleMode == (value / 4 % 2 == 1) && w.reload == v.reload
            && (w.enabled ==> w.counter == v.reload && w.prescaler == 341)
            && (!w.enabled ==> w.counter == v.counter && w.prescaler == v.prescaler)
  {}

  lemma {:induction false} ModesStay(v: Vrc, ops: seq<Op>)
    ensures var (w, n) := Run(v, ops);
            w.enabledAfterAck == v.enabledAfterAck && w.cycleMode == v.cycleMode && w.reload == v.reload
    decreases |ops|
  {
    if ops != [] { ModesStay(v, ops[..|ops| - 1]); }
  }

  /** After a control write with bit 1 clear nothing happens before an acknowledgement, which starts the unit if bit 0
      was set. */
  lemma {:induction false} OffUntilAck(v: Vrc, value: u8, clocks: seq<Op>)
    requires value / 2 % 2 == 0 && Ack !in clocks
    ensures var start := Control(v, value);
            Run(start, clocks) == (start, 0) && Acknowledge(start).enabled == (value % 2 == 1)
    decreases |clocks|
  {
    ControlBits(v, value);
    if clocks != [] { OffUntilAck(v, value, clocks[..|clocks| - 1]); }
  }
}
