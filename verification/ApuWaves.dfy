/** What the channels' generators put out, expiry after expiry, in numbers. */
module ApuWaves {
  import opened ApuChannels
  import opened Arithmetic
  import opened Types

  /** A generator one expiry on is the same whether that expiry comes first or last. */
  lemma {:induction false} GeneratedNext<G>(gen: G, tick: Ticker<G>, n: nat)
    ensures Generated(gen, tick, n + 1) == tick(Generated(gen, tick, n)).0
  {
    if n > 0 { GeneratedNext(tick(gen).0, tick, n - 1); }
  }

  // ---- square ----

  /** The four waveforms, by steps since the duty position was 0: high for one, two or four steps of eight, or the
      second one upside down. */
  predicate High(duty: u2, steps: int) {
    var step := steps % 8;
    if duty == 0 then step == 1 else if duty == 1 then 1 <= step <= 2 else if duty == 2 then 1 <= step <= 4
    else !(1 <= step <= 2)
  }

  /** The output at expiry n + 1: 0 while the channel is muted by its period or the sweep's target, while the waveform
      is low and once the note is over; else the volume, constant or the envelope's. */
  lemma SquareWave(s: Square, n: nat)
    ensures SquareTick(Generated(s, SquareTick, n)).1
         == Some(if s.period < 8 || (!s.negate && s.target > 0x7FF) || s.env.len.counter == 0
                    || !High(s.duty, n + 1 - s.dutyPos) then 0
                 else if s.env.constant then s.env.volume else s.env.counter)
  {
    hide Generated, High;
    SquareSteps(s, n);
    SquareOutput(Generated(s, SquareTick, n));
    HighAgain(s.duty, 1 - (s.dutyPos - n) % 8, n + 1 - s.dutyPos);
  }

  lemma {:induction false} SquareSteps(s: Square, n: nat)
    ensures Generated(s, SquareTick, n) == s.(dutyPos := (s.dutyPos - n) % 8)
  {
    if n > 0 {
      SquareSteps(s, n - 1);
      GeneratedNext(s, SquareTick, n - 1);
      SquareStep(Generated(s, SquareTick, n - 1));
      Back(s.dutyPos - (n - 1));
      hide SquareTick;
    }
  }

  lemma SquareStep(s: Square)
    ensures SquareTick(s).0 == s.(dutyPos := (s.dutyPos - 1) % 8)
  {}

  lemma SquareOutput(s: Square)
    ensures SquareTick(s).1
         == Some(if s.period < 8 || (!s.negate && s.target > 0x7FF) || s.env.len.counter == 0
                    || !High(s.duty, 1 - s.dutyPos) then 0
                 else if s.env.constant then s.env.volume else s.env.counter)
  {}

  lemma HighAgain(duty: u2, a: int, b: int)
    requires (b - a) % 8 == 0
    ensures High(duty, a) == High(duty, b)
  {
    assert a % 8 == b % 8;
  }

  /** Four register writes in the usual order set up the channel, and its timer expires every 2 * period + 2 cycles. */
  lemma SquareRegisters(c: Channel<Square>, a: u8, b: u8, low: u8, high: u8)
    ensures var d := WriteSquare(WriteSquare(WriteSquare(WriteSquare(c, 0, a), 1, b), 2, low), 3, high);
            var s, period := d.gen, high % 8 * 256 + low;
            && s.duty == a / 64 && s.env.len.newHalt == (a / 32 % 2 == 1) && s.env.constant == (a / 16 % 2 == 1)
            && s.env.volume == a % 16 && s.env.start && s.dutyPos == 0
            && s.sweepOn == (b / 128 == 1) && s.sweepPeriod == b / 16 % 8 + 1 && s.negate == (b / 8 % 2 == 1)
            && s.shift == b % 8 && s.reloadSweep
            && s.period == period && d.timer.period == 2 * period + 1
  {
    hide WriteSquare;
    SquareRegister0(c, a);
    SquareRegister1(WriteSquare(c, 0, a), b);
    SquareRegister2(WriteSquare(WriteSquare(c, 0, a), 1, b), low);
    SquareRegister3(WriteSquare(WriteSquare(WriteSquare(c, 0, a), 1, b), 2, low), high);
  }

  lemma SquareRegister0(c: Channel<Square>, value: u8)
    ensures var s := c.gen;
            WriteSquare(c, 0, value).gen
            == s.(env := s.env.(len := s.env.len.(newHalt := value / 32 % 2 == 1), constant := value / 16 % 2 == 1,
                                volume := value % 16), duty := value / 64)
  {
    hide SquareLevel, AddOutput;
  }

  lemma SquareRegister1(c: Channel<Square>, value: u8)
    ensures var t := WriteSquare(c, 1, value).gen;
            t == c.gen.(sweepOn := value / 128 == 1, negate := value / 8 % 2 == 1, reloadSweep := true,
                        sweepPeriod := value / 16 % 8 + 1, shift := value % 8, target := t.target)
  {
    hide SquareLevel, SweepTarget, AddOutput;
  }

  lemma SquareRegister2(c: Channel<Square>, value: u8)
    ensures var d := WriteSquare(c, 2, value);
            && d.gen == c.gen.(period := c.gen.period / 256 * 256 + value, target := d.gen.target)
            && d.timer.period == 2 * d.gen.period + 1
  {
    hide SquareLevel, SweepTarget;
  }

  lemma SquareRegister3(c: Channel<Square>, value: u8)
    ensures var d := WriteSquare(c, 3, value); var l := d.gen.env.len;
            && d.gen == c.gen.(env := c.gen.env.(len := l, start := true), dutyPos := 0,
                               period := c.gen.period % 256 + value % 8 * 256, target := d.gen.target)
            && l.newHalt == c.gen.env.len.newHalt && d.timer.period == 2 * d.gen.period + 1
  {
    hide SquareLevel, SweepTarget;
  }

  /** Every register write is heard at once: the channel's output becomes what its new setting gives at the step the
      waveform stands at, and the mixer is sent the difference, at the cycle the channel has reached. */
  lemma WriteIsHeard(c: Channel<Square>, reg: u2, value: u8)
    ensures var d := WriteSquare(c, reg, value); var s := d.gen;
            var level: int := if s.period < 8 || (!s.negate && s.target > 0x7FF) || s.env.len.counter == 0
                                 || !High(s.duty, 0 - s.dutyPos) then 0
                              else if s.env.constant then s.env.volume else s.env.counter;
            && d.timer.last == level && d.timer.prev == c.timer.prev
            && d.timer.out == if level == c.timer.last then c.timer.out
                              else c.timer.out + [Delta(c.timer.prev, level - c.timer.last)]
  {
    hide SquareLevel, SweepTarget, WriteSquareRegister, High;
    RegisterKeepsLog(c, reg, value);
    SquareNow(WriteSquareRegister(c, reg, value).gen);
  }

  lemma RegisterKeepsLog(c: Channel<Square>, reg: u2, value: u8)
    ensures var t := WriteSquareRegister(c, reg, value).timer;
            t.prev == c.timer.prev && t.last == c.timer.last && t.out == c.timer.out
  {
    hide SweepTarget, LoadLength;
  }

  lemma SquareNow(s: Square)
    ensures SquareLevel(s)
         == if s.period < 8 || (!s.negate && s.target > 0x7FF) || s.env.len.counter == 0 || !High(s.duty, 0 - s.dutyPos)
            then 0
            else if s.env.constant then s.env.volume else s.env.counter
  {}

  // ---- triangle ----

  /** The wave at place x, if both counters let it move. */
  function Moved(t: Triangle, x: nat): Triangle {
    if t.len.counter > 0 && t.linear > 0 then t.(position := x % 32) else t
  }

  lemma {:induction false} TriangleSteps(t: Triangle, n: nat)
    ensures Generated(t, TriangleTick, n) == Moved(t, t.position + n)
  {
    MovedNowhere(t);
    hide TriangleTick, Moved;
    if n > 0 {
      TriangleSteps(t, n - 1);
      GeneratedNext(t, TriangleTick, n - 1);
      MovedOnce(t, t.position + (n - 1));
    }
  }

  lemma MovedNowhere(t: Triangle)
    ensures Moved(t, t.position) == t
  {}

  lemma MovedOnce(t: Triangle, x: nat)
    ensures TriangleTick(Moved(t, x)).0 == Moved(t, x + 1)
  {
    Forward(x);
    TriangleStep(Moved(t, x));
    hide TriangleTick;
  }

  lemma TriangleStep(t: Triangle)
    ensures TriangleTick(t).0
         == if t.len.counter > 0 && t.linear > 0 then t.(position := (t.position + 1) % 32) else t
  {}

  lemma Forward(x: nat)
    ensures (x % 32 + 1) % 32 == (x + 1) % 32
  {
    NextQuotient(x, 32);
  }

  lemma Back(x: int)
    ensures (x % 8 - 1) % 8 == (x - 1) % 8
  {}

  /** The output at expiry n + 1 goes down from 15 to 0 and up again; without both counters the wave stands still. */
  lemma TriangleWave(t: Triangle, n: nat)
    ensures var p := (t.position + n + 1) % 32;
            TriangleTick(Generated(t, TriangleTick, n)).1
            == if t.len.counter > 0 && t.linear > 0 then Some(if p < 16 then 15 - p else p - 16) else None
  {
    hide Generated, TriangleTick;
    TriangleSteps(t, n);
    TriangleOutput(Moved(t, t.position + n));
    Forward(t.position + n);
  }

  lemma TriangleOutput(t: Triangle)
    ensures var p := (t.position + 1) % 32;
            TriangleTick(t).1
            == if t.len.counter > 0 && t.linear > 0 then Some(if p < 16 then 15 - p else p - 16) else None
  {}

  /** Three register writes set up the channel, whose timer then expires every period + 1 cycles. */
  lemma TriangleRegisters(c: Channel<Triangle>, a: u8, low: u8, high: u8)
    ensures var d := WriteTriangle(WriteTriangle(WriteTriangle(c, 0, a), 2, low), 3, high);
            && d.gen == c.gen.(control := a / 128 == 1, linearReload := a % 128, reloadFlag := true, len := d.gen.len)
            && d.gen.len.newHalt == (a / 128 == 1) && d.timer == c.timer.(period := high % 8 * 256 + low)
  {}

  // ---- noise ----

  function Shifts(s: Lfsr, mode: bool, n: nat): Lfsr { if n == 0 then s else LfsrStep(Shifts(s, mode, n - 1), mode) }

  /** The bit that decides expiry n. */
  function NoiseBit(s: Lfsr, mode: bool, n: nat): int { Shifts(s, mode, n) % 2 }

  function Tap(x: nat, k: nat): int { if k == 0 then x % 2 else Tap(x / 2, k - 1) }

  function Pow2(k: nat): nat { if k == 0 then 1 else 2 * Pow2(k - 1) }

  lemma {:induction false} TapAdd(x: nat, bit: nat, j: nat, k: nat)
    requires k <= j && bit < 2 && (k == j ==> x < Pow2(j))
    ensures Tap(x + bit * Pow2(j), k) == if k < j then Tap(x, k) else bit
    decreases k
  {
    if k > 0 {
      assert bit * Pow2(j) == 2 * (bit * Pow2(j - 1));
      TapAdd(x / 2, bit, j - 1, k - 1);
    } else if j > 0 {
      assert bit * Pow2(j) == 2 * (bit * Pow2(j - 1));
    }
  }

  lemma TapSix(x: nat)
    ensures Tap(x, 6) == x / 64 % 2
  {
    assert x / 2 / 2 == x / 4 && x / 4 / 2 == x / 8 && x / 8 / 2 == x / 16 && x / 16 / 2 == x / 32;
    assert x / 32 / 2 == x / 64;
    assert Tap(x, 6) == Tap(x / 2, 5) && Tap(x / 2, 5) == Tap(x / 4, 4) && Tap(x / 4, 4) == Tap(x / 8, 3);
    assert Tap(x / 8, 3) == Tap(x / 16, 2) && Tap(x / 16, 2) == Tap(x / 32, 1) && Tap(x / 32, 1) == Tap(x / 64, 0);
  }

  lemma TapNext(s: Lfsr, mode: bool, k: nat)
    requires k < 15
    ensures Tap(LfsrStep(s, mode), k)
         == if k < 14 then Tap(s, k + 1) else (Tap(s, 0) + Tap(s, if mode then 6 else 1)) % 2
  {
    var bit := (s % 2 + s / (if mode then 64 else 2) % 2) % 2;
    assert Pow2(14) == 64 * Pow2(8) && Pow2(8) == 64 * Pow2(2) && Pow2(2) == 4;
    TapAdd(s / 2, bit, 14, k);
    assert Tap(s, 1) == s / 2 % 2;
    TapSix(s);
  }

  lemma TapZero(s: Lfsr, mode: bool, n: nat)
    ensures Tap(Shifts(s, mode, n), 0) == NoiseBit(s, mode, n)
  {}

  /** Bit k of the register is the bit that decides k expiries later. */
  lemma {:induction false} TapLater(s: Lfsr, mode: bool, n: nat, k: nat)
    requires k < 15
    ensures Tap(Shifts(s, mode, n), k) == NoiseBit(s, mode, n + k)
    decreases k
  {
    hide LfsrStep, Tap, NoiseBit;
    if k > 0 {
      TapNext(Shifts(s, mode, n), mode, k - 1);
      TapLater(s, mode, n + 1, k - 1);
    } else {
      TapZero(s, mode, n);
    }
  }

  /** Every bit is the sum of the one 15 before it and the one 14 before it, or 9 before it in the short mode. */
  lemma NoiseRecurrence(s: Lfsr, mode: bool, n: nat)
    ensures NoiseBit(s, mode, n + 15)
         == (NoiseBit(s, mode, n) + NoiseBit(s, mode, n + if mode then 6 else 1)) % 2
  {
    hide LfsrStep, Tap, NoiseBit;
    var r := Shifts(s, mode, n);
    TapLater(s, mode, n + 1, 14);
    TapNext(r, mode, 14);
    TapLater(s, mode, n, 0);
    TapLater(s, mode, n, if mode then 6 else 1);
  }

  /** The output at expiry n + 1. */
  lemma {:induction false} NoiseWave(m: Noise, n: nat)
    ensures Generated(m, NoiseTick, n) == m.(lfsr := Shifts(m.lfsr, m.mode, n))
    ensures NoiseTick(Generated(m, NoiseTick, n)).1
         == Some(if NoiseBit(m.lfsr, m.mode, n + 1) == 1 || m.env.len.counter == 0 then 0
                 else if m.env.constant then m.env.volume else m.env.counter)
  {
    hide LfsrStep;
    if n > 0 {
      NoiseWave(m, n - 1);
      GeneratedNext(m, NoiseTick, n - 1);
    }
  }

  /** Two register writes: volume and halt flag, then period and mode. */
  lemma NoiseRegisters(c: Channel<Noise>, a: u8, b: u8)
    ensures var d := WriteNoise(WriteNoise(c, 0, a), 2, b); var e := d.gen.env;
            && d.gen == c.gen.(env := e, mode := b / 128 == 1)
            && e == c.gen.env.(len := e.len, constant := a / 16 % 2 == 1, volume := a % 16)
            && e.len.newHalt == (a / 32 % 2 == 1)
            && d.timer == c.timer.(period := [3, 7, 15, 31, 63, 95, 127, 159, 201, 253, 379, 507, 761, 1015, 2033,
                                              4067][b % 16])
  {
  }
}
