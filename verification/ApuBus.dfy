/** The APU at a reset, and what reads and writes of $4015 do to the interrupt lines, field by field. */
module ApuBus {
  import opened Types
  import opened ApuChannels
  import opened ApuModel

  // ---- reset ----

  predicate Silent(t: Timer, period: u16, timer: u16) {
    t.prev == 0 && t.timer == timer && t.period == period && t.last == 0
  }

  const OFF := Length(false, false, false, 0, 0, 0)
  const AT_REST := Envelope(OFF, false, 0, false, 0, 0)

  /** A reset square channel: no register value, sweep setting, duty position or note is left. */
  predicate SquareOff(c: Channel<Square>) {
    && Silent(c.timer, 0, 0) && c.gen.env == AT_REST && c.gen.duty == c.gen.dutyPos == 0
    && !c.gen.sweepOn && !c.gen.negate && !c.gen.reloadSweep
    && c.gen.sweepPeriod == c.gen.shift == c.gen.divider == c.gen.target == c.gen.period == 0
  }

  /** The delta channel plays nothing, has an empty buffer, and keeps the sample's place only if told to. */
  predicate SampleOff(c: Channel<Dmc>, address: u16, length: SampleLength) {
    var d := c.gen.core;
    && Silent(c.timer, 427, 427) && !c.gen.needRun && d.level == 0 && !d.irqOn && !d.loop && d.bytes == 0
    && d.empty && d.silence && d.bits == 8 && d.buffer == d.shifter == d.addr == d.disableDelay == d.startDelay == 0
    && d.sampleAddr == address && d.sampleLength == length
  }

  /** A reset from any state. A power-on forgets everything except the two interrupt lines at the CPU, the run request
      and what was sent to the mixer; a soft reset also keeps the length counter of the triangle, which it disables,
      the place of the sample and the step mode, for which it schedules a write of $4017 three calls on. */
  lemma ResetState(s: Apu, soft: bool)
    ensures var t := Reset(s, soft); var d := s.ch.dmc.gen.core; var f := s.fc;
            && t.enabled && t.prev == t.cur == 0 && t.needToRun == s.needToRun && t.frames == s.frames
            && SquareOff(t.ch.sq1) && SquareOff(t.ch.sq2)
            && t.ch.sq1.gen.first == s.ch.sq1.gen.first && t.ch.sq2.gen.first == s.ch.sq2.gen.first
            && Silent(t.ch.tri.timer, 0, 0)
            && t.ch.tri.gen == Triangle(if soft then s.ch.tri.gen.len.(enabled := false) else OFF,
                                        0, 0, false, false, 0)
            && Silent(t.ch.noi.timer, 3, 0) && t.ch.noi.gen == Noise(AT_REST, 1, false)
            && SampleOff(t.ch.dmc, if soft then d.sampleAddr else 0xC000, if soft then d.sampleLength else 1)
            && t.ch.dmc.gen.core.irqLine == d.irqLine && t.ch.dmc.gen.core.calls == d.calls
            && t.fc == (if soft && f.mode == 1 then FrameCounter(0, 0, 1, false, 0, 0x80, 3, false, f.irqLine)
                        else FrameCounter(0, 0, 0, false, 0, 0, 3, false, f.irqLine))
  {
    MutedTarget(ResetGenerator(s.ch.sq1.gen, soft));
    MutedTarget(ResetGenerator(s.ch.sq2.gen, soft));
  }

  /** With period and shift at 0 the sweep target is 0, in either channel. */
  lemma MutedTarget(q: Square)
    requires q.period == q.target == 0 && q.shift == 0 && !q.negate
    ensures UpdateTarget(q) == q
  {}

  /** So every channel of a power-on reads as silent, and no line is raised that was not raised before. */
  lemma PowerOnReads(s: Apu)
    ensures Observe(Reset(s, false), 0x4015)
         == Status(false, false, false, false, false, false, s.ch.dmc.gen.core.irqLine)
    ensures Observe(Reset(s, false), 0x4018) == Observe(Reset(s, false), 0x4019) == Observe(Reset(s, false), 0x401A)
         == Levels(0, 0)
  {
    ResetState(s, false);
  }

  // ---- $4015 ----

  /** A read lowers the frame counter's line at the CPU and nothing else: bit 6 of the next read is unchanged, as the
      flag behind it stays. */
  lemma StatusRead(s: Apu)
    requires Valid(s)
    ensures var (t, r) := Read(s, 0x4015);
            && !t.fc.irqLine && t == Run(s).(fc := Run(s).fc.(irqLine := false))
            && Read(t, 0x4015).1 == r
  {
    hide Observe;
    var t := Read(s, 0x4015).0;
    assert Run(t) == t;
    ObserveIgnoresLine(Run(s));
  }

  lemma ObserveIgnoresLine(s: Apu)
    ensures Observe(s.(fc := s.fc.(irqLine := false)), 0x4015) == Observe(s, 0x4015)
  {}

  /** Any other read leaves the APU as the catch-up does. */
  lemma OtherReads(s: Apu, addr: u16)
    requires Valid(s) && addr != 0x4015
    ensures Read(s, addr).0 == Run(s)
  {
    hide Run, Observe;
  }

  /** What the five levels read as. */
  lemma LevelReads(s: Apu)
    requires Valid(s)
    ensures var c := Run(s).ch;
            && Read(s, 0x4018).1 == Levels(c.sq1.timer.last, c.sq2.timer.last)
            && Read(s, 0x4019).1 == Levels(c.tri.timer.last, c.noi.timer.last)
            && Read(s, 0x401A).1 == Levels(c.dmc.timer.last, 0)
  {
    hide Run;
  }

  /** A write of $4015 lowers the line of the delta channel whatever is written, and not that of the frame counter. */
  lemma StatusWrite(s: Apu, value: u8, oddCycle: bool)
    requires Valid(s)
    ensures var t := Write(s, 0x4015, value, oddCycle);
            !t.ch.dmc.gen.core.irqLine && t.fc == Run(s).fc
  {
    hide Run;
  }
}
