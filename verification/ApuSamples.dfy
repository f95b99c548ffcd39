/** What the delta modulation channel plays and fetches, in numbers. */
module ApuSamples {
  import opened ApuChannels
  import opened ApuWaves
  import opened Types

  // ---- playing a byte ----

  /** A byte without its k low bits. */
  function Rest(byte: u8, k: nat): u8 { if k == 0 then byte else Rest(byte, k - 1) / 2 }

  /** The level after the k low bits of a byte: up by 2 for a one and down by 2 for a zero, unless that leaves 0 to
      127. */
  function Walk(level: u7, byte: u8, k: nat): u7 {
    if k == 0 then level
    else
      var before := Walk(level, byte, k - 1);
      if Rest(byte, k - 1) % 2 == 1 then (if before + 2 <= 127 then before + 2 else before)
      else if before - 2 >= 0 then before - 2 else before
  }

  /** A byte that is being played: after k of its bits, least significant first. */
  lemma {:induction false} ByteWalks(d: Dmc, k: nat)
    requires !d.core.silence && d.core.bits == 8 && k < 8
    ensures var e := Generated(d, DmcTick, k).core;
            e == d.core.(shifter := Rest(d.core.shifter, k), bits := 8 - k,
                         level := Walk(d.core.level, d.core.shifter, k))
    ensures Generated(d, DmcTick, k).needRun == d.needRun
    decreases k
  {
    if k > 0 {
      hide Walk;
      ByteWalks(d, k - 1);
      GeneratedNext(d, DmcTick, k - 1);
      WalkNext(d.core.level, d.core.shifter, k);
    }
  }

  lemma WalkNext(level: u7, byte: u8, k: nat)
    requires k > 0
    ensures var before := Walk(level, byte, k - 1);
            Walk(level, byte, k)
            == if Rest(byte, k - 1) % 2 == 1 then (if before <= 125 then before + 2 else before)
               else if before >= 2 then before - 2 else before
  {}

  /** The output at each of its eight expiries, and what follows: the buffered byte, for whose place the next one is
      requested, or silence. */
  lemma BytePlays(d: Dmc, k: nat)
    requires !d.core.silence && d.core.bits == 8 && k < 8
    ensures DmcTick(Generated(d, DmcTick, k)).1 == Some(Walk(d.core.level, d.core.shifter, k + 1))
    ensures var c, e := d.core, Generated(d, DmcTick, 8).core;
            && e.level == Walk(c.level, c.shifter, 8) && e.bits == 8 && e.bytes == c.bytes && e.addr == c.addr
            && e.silence == c.empty && (!c.empty ==> e.shifter == c.buffer && e.empty)
            && e.calls == if !c.empty && c.startDelay == 0 && c.bytes > 0 then c.calls + [StartTransfer] else c.calls
  {
    hide Generated, Walk;
    ByteWalks(d, k);
    ByteWalks(d, 7);
    GeneratedNext(d, DmcTick, 7);
    WalkNext(d.core.level, d.core.shifter, k + 1);
    WalkNext(d.core.level, d.core.shifter, 8);
  }

  /** In silence the level stays, and a byte in the buffer is taken up when the eight bits are over. */
  lemma {:induction false} SilencePlays(d: Dmc, k: nat)
    requires d.core.silence && k <= d.core.bits
    ensures var c, e := d.core, Generated(d, DmcTick, k).core;
            && e.level == c.level
            && if k < c.bits then e == c.(bits := c.bits - k)
               else e.bits == 8 && e.silence == c.empty && (!c.empty ==> e.shifter == c.buffer && e.empty)
    decreases k
  {
    if k > 0 {
      hide DmcTick;
      SilencePlays(d, k - 1);
      GeneratedNext(d, DmcTick, k - 1);
      SilentTick(Generated(d, DmcTick, k - 1));
    }
  }

  lemma SilentTick(d: Dmc)
    requires d.core.silence
    ensures var c, e := d.core, DmcTick(d).0.core;
            && e.level == c.level
            && if c.bits > 1 then e == c.(bits := c.bits - 1)
               else e.bits == 8 && e.silence == c.empty && (!c.empty ==> e.shifter == c.buffer && e.empty)
  {}

  // ---- switching on and off ----

  function Clocked(d: Dmc, n: nat): Dmc { if n == 0 then d else ProcessDmcClock(Clocked(d, n - 1)) }

  predicate Undelayed(d: Dpcm) { d.disableDelay == 0 && d.startDelay == 0 }

  /** A write to $4015 with bit 4 set, with no sample playing: the sample starts over at once, and the first byte is
      requested two clocks later, or three after an odd cycle. */
  lemma {:induction false} SwitchedOn(d: Dmc, odd: bool, n: nat)
    requires Undelayed(d.core) && d.core.bytes == 0 && d.core.empty && n <= 4
    ensures var c, e := d.core, Clocked(EnableDmc(d, true, odd), n).core;
            && e.addr == c.sampleAddr && e.bytes == c.sampleLength
            && e.calls == c.calls + if n >= (if odd then 3 else 2) then [StartTransfer] else []
    decreases n
  {
    SwitchingOn(d, odd, n);
  }

  lemma {:induction false} SwitchingOn(d: Dmc, odd: bool, n: nat)
    requires Undelayed(d.core) && d.core.bytes == 0 && d.core.empty
    ensures var c, e, wait := d.core, Clocked(EnableDmc(d, true, odd), n).core, if odd then 3 else 2;
            e == c.(addr := c.sampleAddr, bytes := c.sampleLength, startDelay := if n < wait then wait - n else 0,
                    calls := c.calls + if n < wait then [] else [StartTransfer])
  {
    if n == 0 { assert d.core.calls + [] == d.core.calls; } else { SwitchingOn(d, odd, n - 1); }
  }

  /** With bit 4 clear: the sample ends, and the transfer is stopped, two clocks later, or three after an odd cycle. */
  lemma {:induction false} SwitchedOff(d: Dmc, odd: bool, n: nat)
    requires Undelayed(d.core)
    ensures var c, e, wait := d.core, Clocked(EnableDmc(d, false, odd), n).core, if odd then 3 else 2;
            e == c.(disableDelay := if n < wait then wait - n else 0, bytes := if n < wait then c.bytes else 0,
                    calls := c.calls + if n < wait then [] else [StopTransfer])
  {
    if n == 0 { assert d.core.calls + [] == d.core.calls; } else { SwitchedOff(d, odd, n - 1); }
  }

  // ---- fetching a sample ----

  function Refills(d: Dmc, values: seq<u8>): Dmc
    decreases |values|
  {
    if values == [] then d else Refill(Refills(d, values[..|values| - 1]), values[|values| - 1])
  }

  /** Bytes come from consecutive addresses, $8000 following $FFFF. After the last one the sample is over, with an
      interrupt if that is enabled, or starts again. */
  lemma {:induction false} SampleFetched(d: Dmc, values: seq<u8>)
    requires 0 < |values| <= d.core.bytes
    ensures var c, e, n := d.core, Refills(d, values).core, |values|;
            && e.buffer == values[n - 1] && !e.empty
            && (n < c.bytes ==> e.bytes == c.bytes - n && e.irqLine == c.irqLine && e.calls == c.calls
                                && e.addr == if c.addr + n > 0xFFFF then c.addr + n - 0x8000 else c.addr + n)
            && (n == c.bytes ==>
                  && e.bytes == (if c.loop then c.sampleLength else 0) && (c.loop ==> e.addr == c.sampleAddr)
                  && e.irqLine == (c.irqLine || (!c.loop && c.irqOn)))
            && e.loop == c.loop && e.irqOn == c.irqOn && e.sampleAddr == c.sampleAddr
            && e.sampleLength == c.sampleLength
    decreases |values|
  {
    if |values| > 1 { SampleFetched(d, values[..|values| - 1]); } else { assert values[..0] == []; }
  }

  /** What the registers $4010 to $4013 mean. */
  lemma SampleRegisters(c: Channel<Dmc>, rate: u8, level: u8, start: u8, length: u8)
    ensures var d := WriteDmc(WriteDmc(WriteDmc(WriteDmc(c, 0, rate), 1, level), 2, start), 3, length);
            var e := d.gen.core;
            && e.irqOn == (rate / 128 == 1) && e.loop == (rate / 64 % 2 == 1) && e.level == d.timer.last == level % 128
            && d.timer.period == [427, 379, 339, 319, 285, 253, 225, 213, 189, 159, 141, 127, 105, 83, 71,
                                  53][rate % 16]
            && e.sampleAddr == 0xC000 + 64 * start && e.sampleLength == 16 * length + 1
            && (rate < 128 ==> !e.irqLine)
  {}
}
