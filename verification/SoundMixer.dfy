/** NesSoundMixer: deltas are parked in one cell per channel and cycle and played back in time
    order at the end of the frame. 16-bit wrap-around is explicit. */
module SoundMixer {
  import opened Types
  import opened ApuChannels

  const CHANNELS := 11

  /** Wrapping early or late makes no difference. */
  lemma WrapSum(x: int, y: int)
    ensures Wrap16(Wrap16(x) + y) == Wrap16(x + y)
  {}

  function RowSum(row: seq<int>): int {
    if row == [] then 0 else RowSum(row[..|row| - 1]) + row[|row| - 1]
  }

  lemma {:induction false} RowSumUpdate(row: seq<int>, t: nat, v: int)
    requires t < |row|
    ensures RowSum(row[t := v]) == RowSum(row) - row[t] + v
  {
    var last := |row| - 1;
    if t < last {
      RowSumUpdate(row[..last], t, v);
      assert row[t := v][..last] == row[..last][t := v];
    } else {
      assert row[t := v][..last] == row[..last];
    }
  }

  /** A cell that moves by `delta` in 16 bits moves a level plus its row by as much. */
  lemma CellMoves(level: int, row: seq<int>, t: nat, delta: int)
    requires t < |row|
    ensures Wrap16(level + RowSum(row[t := Wrap16(row[t] + delta)])) == Wrap16(Wrap16(level + RowSum(row)) + delta)
  {
    hide RowSum;
    RowSumUpdate(row, t, Wrap16(row[t] + delta));
  }

  lemma {:induction false} RowSumZero(row: seq<int>)
    requires forall t :: 0 <= t < |row| ==> row[t] == 0
    ensures RowSum(row) == 0
  {
    if row != [] { RowSumZero(row[..|row| - 1]); }
  }

  /** The sum of the cells up to and including time t. */
  function SumTo(row: seq<int>, t: int): int
    requires -1 <= t < |row|
  {
    RowSum(row[..t + 1])
  }

  /** Skipping cells that are zero changes nothing. */
  lemma {:induction false} SumToSkips(row: seq<int>, from: int, t: int)
    requires -1 <= from < t < |row|
    requires forall u :: from < u < t ==> row[u] == 0
    ensures SumTo(row, t) == SumTo(row, from) + row[t]
    decreases t - from
  {
    assert row[..t + 1][..t] == row[..t];
    if from < t - 1 { SumToSkips(row, from, t - 1); }
  }

  lemma {:induction false} SumToEnd(row: seq<int>, from: int)
    requires -1 <= from < |row|
    requires forall u :: from < u < |row| ==> row[u] == 0
    ensures SumTo(row, from) == RowSum(row)
    decreases |row| - from
  {
    assert row[..|row|] == row;
    if from < |row| - 1 {
      SumToEnd(row, from + 1);
      assert row[..from + 2][..from + 1] == row[..from + 1];
    }
  }

  // ---- std::sort followed by std::unique and erase ----

  predicate Increasing(s: seq<nat>) { forall i, j :: 0 <= i < j < |s| ==> s[i] < s[j] }

  function Insert(s: seq<nat>, t: nat): (r: seq<nat>)
    requires Increasing(s)
    ensures Increasing(r) && forall u :: u in r <==> u in s || u == t
    decreases s
  {
    if s == [] || t < s[0] then [t] + s
    else if t == s[0] then s
    else
      var rest := Insert(s[1..], t);
      assert forall u :: u in rest ==> s[0] < u;
      assert s == [s[0]] + s[1..];
      IncreasingCons(s[0], rest);
      [s[0]] + rest
  }

  lemma IncreasingCons(x: nat, rest: seq<nat>)
    requires Increasing(rest) && forall u :: u in rest ==> x < u
    ensures Increasing([x] + rest)
  {
    assert forall j :: 0 <= j < |rest| ==> rest[j] in rest;
  }

  function SortUnique(s: seq<nat>): (r: seq<nat>)
    ensures Increasing(r) && forall u :: u in r <==> u in s
  {
    if s == [] then [] else
      assert forall u :: u in s <==> u == s[0] || u in s[1..];
      Insert(SortUnique(s[1..]), s[0])
  }

  datatype BlipDelta = BlipDelta(time: nat, delta: int)

  function BlipSum(out: seq<BlipDelta>): int {
    if out == [] then 0 else BlipSum(out[..|out| - 1]) + out[|out| - 1].delta
  }

  /** The level of every channel after all deltas up to time t. */
  function LevelsAt(base: seq<int>, rows: seq<seq<int>>, t: int): (levels: seq<int>)
    requires |base| == |rows| && forall ch :: 0 <= ch < |rows| ==> -1 <= t < |rows[ch]|
    ensures |levels| == |base|
  {
    seq(|base|, ch requires 0 <= ch < |base| => Wrap16(base[ch] + SumTo(rows[ch], t)))
  }

  predicate Frame(base: seq<int>, rows: seq<seq<int>>, stamps: seq<nat>) {
    && |base| == |rows| == CHANNELS && Increasing(stamps)
    && (forall i :: 0 <= i < |stamps| ==> stamps[i] < CYCLE_LENGTH)
    && (forall ch :: 0 <= ch < CHANNELS ==> |rows[ch]| == CYCLE_LENGTH && -0x8000 <= base[ch] < 0x8000)
    && (forall ch, t :: 0 <= ch < CHANNELS && 0 <= t < CYCLE_LENGTH && t !in stamps ==> rows[ch][t] == 0)
  }

  /** The levels after the first n timestamps. */
  function LevelsAfter(base: seq<int>, rows: seq<seq<int>>, stamps: seq<nat>, n: nat): (levels: seq<int>)
    requires Frame(base, rows, stamps) && n <= |stamps|
    ensures |levels| == CHANNELS
  {
    if n == 0 then base else LevelsAt(base, rows, stamps[n - 1])
  }

  /** From one timestamp to the next each channel moves by exactly its cell at that timestamp. */
  lemma LevelsStep(base: seq<int>, rows: seq<seq<int>>, stamps: seq<nat>, n: nat)
    requires Frame(base, rows, stamps) && n < |stamps|
    ensures forall ch :: 0 <= ch < CHANNELS ==>
      LevelsAfter(base, rows, stamps, n + 1)[ch]
      == Wrap16(LevelsAfter(base, rows, stamps, n)[ch] + rows[ch][stamps[n]])
  {
    hide Wrap16, SumTo, LevelsAfter;
    forall ch | 0 <= ch < CHANNELS
      ensures LevelsAfter(base, rows, stamps, n + 1)[ch]
           == Wrap16(LevelsAfter(base, rows, stamps, n)[ch] + rows[ch][stamps[n]])
    {
      ChannelStep(base, rows, stamps, n, ch);
    }
  }

  lemma ChannelStep(base: seq<int>, rows: seq<seq<int>>, stamps: seq<nat>, n: nat, ch: nat)
    requires Frame(base, rows, stamps) && n < |stamps| && ch < CHANNELS
    ensures LevelsAfter(base, rows, stamps, n + 1)[ch]
         == Wrap16(LevelsAfter(base, rows, stamps, n)[ch] + rows[ch][stamps[n]])
  {
    hide Wrap16, SumTo;
    var from := if n == 0 then -1 else stamps[n - 1];
    forall u | from < u < stamps[n]
      ensures rows[ch][u] == 0
    {
      BetweenStamps(stamps, n, u);
    }
    SumToSkips(rows[ch], from, stamps[n]);
    WrapSum(base[ch] + SumTo(rows[ch], from), rows[ch][stamps[n]]);
    if n == 0 { NothingSummed(rows[ch], base[ch]); }
  }

  lemma NothingSummed(row: seq<int>, level: int)
    requires -0x8000 <= level < 0x8000
    ensures Wrap16(level + SumTo(row, -1)) == level
  {}

  lemma BetweenStamps(stamps: seq<nat>, n: nat, u: int)
    requires Increasing(stamps) && n <= |stamps| && (n > 0 ==> stamps[n - 1] < u) && (n < |stamps| ==> u < stamps[n])
    ensures u !in stamps
  {
    forall i | 0 <= i < |stamps|
      ensures stamps[i] != u
    {
      if i < n { assert stamps[i] <= stamps[n - 1]; } else { assert stamps[n] <= stamps[i]; }
    }
  }

  /** After the last timestamp every channel has played everything. */
  lemma LevelsEnd(base: seq<int>, rows: seq<seq<int>>, stamps: seq<nat>)
    requires Frame(base, rows, stamps)
    ensures forall ch :: 0 <= ch < CHANNELS ==>
      LevelsAfter(base, rows, stamps, |stamps|)[ch] == Wrap16(base[ch] + RowSum(rows[ch]))
  {
    var n := |stamps|;
    forall ch | 0 <= ch < CHANNELS
      ensures LevelsAfter(base, rows, stamps, n)[ch] == Wrap16(base[ch] + RowSum(rows[ch]))
    {
      var from := if n == 0 then -1 else stamps[n - 1];
      forall u | from < u < CYCLE_LENGTH
        ensures rows[ch][u] == 0
      {
        BetweenStamps(stamps, n, u);
      }
      SumToEnd(rows[ch], from);
    }
  }

  /** What the band-limited buffer hears: at each timestamp the output moves to four times the volume
      of the channel levels at that time. */
  function Playback(base: seq<int>, rows: seq<seq<int>>, stamps: seq<nat>, volume: seq<int> -> i16, start: int,
                    n: nat): seq<BlipDelta>
    requires Frame(base, rows, stamps) && n <= |stamps|
  {
    if n == 0 then []
    else
      var before := OutputAfter(base, rows, stamps, volume, start, n - 1);
      var after := OutputAfter(base, rows, stamps, volume, start, n);
      Playback(base, rows, stamps, volume, start, n - 1)
      + if after != before then [BlipDelta(stamps[n - 1], after - before)] else []
  }

  function OutputAfter(base: seq<int>, rows: seq<seq<int>>, stamps: seq<nat>, volume: seq<int> -> i16, start: int,
                       n: nat): int
    requires Frame(base, rows, stamps) && n <= |stamps|
  {
    if n == 0 then start else volume(LevelsAfter(base, rows, stamps, n)) * 4
  }

  lemma BlipSumAppend(a: seq<BlipDelta>, b: BlipDelta)
    ensures BlipSum(a + [b]) == BlipSum(a) + b.delta
  {
    assert (a + [b])[..|a|] == a;
  }

  /** The output changes add up to the change of the output. */
  lemma {:induction false} PlaybackTelescopes(base: seq<int>, rows: seq<seq<int>>, stamps: seq<nat>,
                                              volume: seq<int> -> i16, start: int, n: nat)
    requires Frame(base, rows, stamps) && n <= |stamps|
    ensures start + BlipSum(Playback(base, rows, stamps, volume, start, n))
         == OutputAfter(base, rows, stamps, volume, start, n)
  {
    if n > 0 {
      PlaybackTelescopes(base, rows, stamps, volume, start, n - 1);
      var head := Playback(base, rows, stamps, volume, start, n - 1);
      var before := OutputAfter(base, rows, stamps, volume, start, n - 1);
      var after := OutputAfter(base, rows, stamps, volume, start, n);
      if after != before { BlipSumAppend(head, BlipDelta(stamps[n - 1], after - before)); }
      else { assert head + [] == head; }
    }
  }

  /** Later timestamps only add deltas behind, and every delta is at one of its timestamps. */
  lemma {:induction false} PlaybackGrows(base: seq<int>, rows: seq<seq<int>>, stamps: seq<nat>,
                                         volume: seq<int> -> i16, start: int, m: nat, n: nat)
    requires Frame(base, rows, stamps) && m <= n <= |stamps|
    ensures var heard, all := Playback(base, rows, stamps, volume, start, m),
                              Playback(base, rows, stamps, volume, start, n);
            && |heard| <= |all| && all[..|heard|] == heard
            && forall i :: |heard| <= i < |all| ==> exists j :: m <= j < n && all[i].time == stamps[j]
  {
    hide OutputAfter;
    if m < n {
      PlaybackGrows(base, rows, stamps, volume, start, m, n - 1);
      var heard, before, all := Playback(base, rows, stamps, volume, start, m),
          Playback(base, rows, stamps, volume, start, n - 1), Playback(base, rows, stamps, volume, start, n);
      assert all[..|before|] == before;
      assert all[..|heard|] == before[..|heard|];
      forall i | |heard| <= i < |all|
        ensures exists j :: m <= j < n && all[i].time == stamps[j]
      {
        if i < |before| {
          assert all[i] == before[i];
        } else {
          assert all[i].time == stamps[n - 1];
        }
      }
    }
  }

  /** At any time t of the frame, after the first n timestamps, the deltas heard so far have moved the output to four
      times the volume of the levels that all cells up to t add up to; every other delta comes later. */
  lemma HeardAt(base: seq<int>, rows: seq<seq<int>>, stamps: seq<nat>, volume: seq<int> -> i16, start: int, n: nat,
                t: nat)
    requires Frame(base, rows, stamps) && 0 < n <= |stamps| && t < CYCLE_LENGTH
    requires stamps[n - 1] <= t && (n < |stamps| ==> t < stamps[n])
    ensures var all := Playback(base, rows, stamps, volume, start, |stamps|);
            exists k :: 0 <= k <= |all| && (forall i :: 0 <= i < |all| ==> (all[i].time <= t <==> i < k))
                        && start + BlipSum(all[..k]) == 4 * volume(LevelsAt(base, rows, t))
  {
    hide Playback, SumTo, Wrap16;
    var heard, all := Playback(base, rows, stamps, volume, start, n),
        Playback(base, rows, stamps, volume, start, |stamps|);
    PlaybackTelescopes(base, rows, stamps, volume, start, n);
    PlaybackGrows(base, rows, stamps, volume, start, n, |stamps|);
    NothingHeard(base, rows, stamps, volume, start);
    PlaybackGrows(base, rows, stamps, volume, start, 0, n);
    LevelsHold(base, rows, stamps, n, t);
    var k := |heard|;
    forall i | 0 <= i < |all|
      ensures all[i].time <= t <==> i < k
    {
      if i < k {
        assert all[i] == all[..k][i] == heard[i];
        var j :| 0 <= j < n && heard[i].time == stamps[j];
        assert stamps[j] <= stamps[n - 1];
      } else {
        var j :| n <= j < |stamps| && all[i].time == stamps[j];
        assert stamps[n] <= stamps[j];
      }
    }
    assert all[..k] == heard;
  }

  lemma NothingHeard(base: seq<int>, rows: seq<seq<int>>, stamps: seq<nat>, volume: seq<int> -> i16, start: int)
    requires Frame(base, rows, stamps)
    ensures Playback(base, rows, stamps, volume, start, 0) == []
  {}

  /** Between two timestamps the levels hold. */
  lemma LevelsHold(base: seq<int>, rows: seq<seq<int>>, stamps: seq<nat>, n: nat, t: nat)
    requires Frame(base, rows, stamps) && 0 < n <= |stamps| && t < CYCLE_LENGTH
    requires stamps[n - 1] <= t && (n < |stamps| ==> t < stamps[n])
    ensures LevelsAfter(base, rows, stamps, n) == LevelsAt(base, rows, t)
  {
    hide Wrap16;
    forall ch | 0 <= ch < CHANNELS
      ensures SumTo(rows[ch], stamps[n - 1]) == SumTo(rows[ch], t)
    {
      forall u | stamps[n - 1] < u <= t
        ensures rows[ch][u] == 0
      {
        BetweenStamps(stamps, n, u);
      }
      SumToHolds(rows[ch], stamps[n - 1], t);
    }
  }

  lemma SumToHolds(row: seq<int>, from: nat, t: nat)
    requires from <= t < |row| && forall u :: from < u <= t ==> row[u] == 0
    ensures SumTo(row, t) == SumTo(row, from)
  {
    if from < t { SumToSkips(row, from, t); }
  }

  class NesSoundMixer {
    /** get_output_volume as a function of the channel levels. */
    const volume: seq<int> -> i16
    var timestamps: seq<nat>
    const channelOutput: array2<int>
    const currentOutput: array<i16>
    var previousOutputLeft: int
    var initialized: bool
    /** The calls to blip_add_delta. */
    var blip: seq<BlipDelta>

    constructor (volume: seq<int> -> i16)
      ensures Valid() && fresh(channelOutput) && fresh(currentOutput) && !initialized && blip == []
      ensures forall ch: nat :: ch < CHANNELS ==> currentOutput[ch] == Balance(ch) == 0
    {
      this.volume := volume;
      channelOutput := new int[CHANNELS, CYCLE_LENGTH]((i, j) => 0);
      currentOutput := new i16[CHANNELS](i => 0);
      timestamps, previousOutputLeft, initialized, blip := [], 0, false, [];
      new;
      forall ch: nat | ch < CHANNELS
        ensures Balance(ch) == 0
      {
        RowSumZero(Row(ch));
      }
    }

    function Row(ch: nat): (row: seq<int>)
      reads channelOutput
      requires channelOutput.Length0 == CHANNELS && channelOutput.Length1 == CYCLE_LENGTH && ch < CHANNELS
    {
      seq(CYCLE_LENGTH, t requires 0 <= t < CYCLE_LENGTH reads channelOutput => channelOutput[ch, t])
    }

    predicate Shape() {
      channelOutput.Length0 == CHANNELS && channelOutput.Length1 == CYCLE_LENGTH && currentOutput.Length == CHANNELS
    }

    /** Every pending cell is listed in `timestamps_`, and every timestamp is inside the frame. */
    ghost predicate Valid()
      reads this, channelOutput, currentOutput
    {
      && Shape()
      && (forall t :: t in timestamps ==> t < CYCLE_LENGTH)
      && (forall ch, t :: 0 <= ch < CHANNELS && 0 <= t < CYCLE_LENGTH && channelOutput[ch, t] != 0 ==> t in timestamps)
    }

    /** A channel's level once everything pending has been played. */
    function Balance(ch: nat): int
      reads channelOutput, currentOutput
      requires Shape() && ch < CHANNELS
    {
      Wrap16(currentOutput[ch] + RowSum(Row(ch)))
    }

    method AddDelta(channel: nat, time: nat, delta: i16)
      requires Valid() && channel < CHANNELS && time < CYCLE_LENGTH
      modifies this`timestamps, channelOutput
      ensures Valid()
      ensures forall ch: nat :: ch < CHANNELS ==>
        Balance(ch) == if ch == channel then Wrap16(old(Balance(ch)) + delta) else old(Balance(ch))
    {
      if delta != 0 {
        hide RowSum, Wrap16;
        timestamps := timestamps + [time];
        channelOutput[channel, time] := Wrap16(channelOutput[channel, time] + delta);
        forall ch: nat | ch < CHANNELS
          ensures Balance(ch) == if ch == channel then Wrap16(old(Balance(ch)) + delta) else old(Balance(ch))
        {
          if ch == channel {
            var row := old(Row(ch));
            assert Row(ch) == row[time := Wrap16(row[time] + delta)];
            CellMoves(currentOutput[ch], row, time, delta);
          } else {
            assert Row(ch) == old(Row(ch));
          }
        }
      }
    }

    function Rows(): (rows: seq<seq<int>>)
      reads channelOutput
      requires Shape()
      ensures |rows| == CHANNELS && forall ch: nat :: ch < CHANNELS ==> rows[ch] == Row(ch)
    {
      seq(CHANNELS, ch requires 0 <= ch < CHANNELS && Shape() reads channelOutput => Row(ch))
    }

    function Base(): (base: seq<int>)
      reads currentOutput
    {
      currentOutput[..]
    }

    method ApplyStamp(stamp: nat)
      requires Shape() && stamp < CYCLE_LENGTH
      modifies currentOutput
      ensures forall j :: 0 <= j < CHANNELS ==>
        currentOutput[j] == Wrap16(old(currentOutput[j]) + channelOutput[j, stamp])
    {
      for j := 0 to CHANNELS
        invariant forall k :: 0 <= k < j ==> currentOutput[k] == Wrap16(old(currentOutput[k]) + channelOutput[k, stamp])
        invariant forall k :: j <= k < CHANNELS ==> currentOutput[k] == old(currentOutput[k])
      {
        currentOutput[j] := Wrap16(currentOutput[j] + channelOutput[j, stamp]);
      }
    }

    method ClearPending()
      requires Shape()
      modifies this`timestamps, channelOutput
      ensures timestamps == []
      ensures forall ch, t :: 0 <= ch < CHANNELS && 0 <= t < CYCLE_LENGTH ==> channelOutput[ch, t] == 0
    {
      timestamps := [];
      forall ch, t | 0 <= ch < CHANNELS && 0 <= t < CYCLE_LENGTH {
        channelOutput[ch, t] := 0;
      }
    }

    /** Every timestamp is a valid frame entry and every other cell is zero. */
    ghost predicate InFrame()
      reads this, channelOutput, currentOutput
    {
      Valid() && Increasing(timestamps)
    }

    lemma ValidFrame()
      requires InFrame()
      ensures Frame(Base(), Rows(), timestamps)
    {
      forall i | 0 <= i < |timestamps|
        ensures timestamps[i] < CYCLE_LENGTH
      {
        assert timestamps[i] in timestamps;
      }
    }

    lemma SortedIsValid(stamps: seq<nat>)
      requires Valid() && stamps == SortUnique(timestamps)
      ensures (forall t :: t in stamps ==> t < CYCLE_LENGTH)
      ensures forall ch, t :: 0 <= ch < CHANNELS && 0 <= t < CYCLE_LENGTH && channelOutput[ch, t] != 0 ==> t in stamps
    {}

    method Advance(ghost base: seq<int>, ghost rows: seq<seq<int>>, i: nat)
      requires Shape() && Frame(base, rows, timestamps) && i < |timestamps|
      requires Rows() == rows && Base() == LevelsAfter(base, rows, timestamps, i)
      modifies currentOutput
      ensures Rows() == rows && Base() == LevelsAfter(base, rows, timestamps, i + 1)
    {
      LevelsStep(base, rows, timestamps, i);
      ApplyStamp(timestamps[i]);
    }

    /** The first frame with output: the channels advance, but nothing is heard. */
    method PlaySilently()
      requires InFrame()
      modifies currentOutput
      ensures Frame(old(Base()), old(Rows()), timestamps)
      ensures Base() == LevelsAfter(old(Base()), old(Rows()), timestamps, |timestamps|)
    {
      ValidFrame();
      ghost var base, rows := Base(), Rows();
      for i := 0 to |timestamps|
        invariant Rows() == rows && Base() == LevelsAfter(base, rows, timestamps, i)
      {
        Advance(base, rows, i);
      }
    }

    /** Every other frame: the channels advance and each change of the output is heard. */
    method Play()
      requires InFrame()
      modifies currentOutput, this`previousOutputLeft, this`blip
      ensures Frame(old(Base()), old(Rows()), timestamps)
      ensures Base() == LevelsAfter(old(Base()), old(Rows()), timestamps, |timestamps|)
      ensures previousOutputLeft
           == OutputAfter(old(Base()), old(Rows()), timestamps, volume, old(previousOutputLeft), |timestamps|)
      ensures blip == old(blip)
           + Playback(old(Base()), old(Rows()), timestamps, volume, old(previousOutputLeft), |timestamps|)
    {
      ValidFrame();
      hide Frame, LevelsAfter, InFrame, Valid;
      ghost var base, rows, start := Base(), Rows(), previousOutputLeft;
      for i := 0 to |timestamps|
        invariant Rows() == rows && Base() == LevelsAfter(base, rows, timestamps, i)
        invariant previousOutputLeft == OutputAfter(base, rows, timestamps, volume, start, i)
        invariant blip == old(blip) + Playback(base, rows, timestamps, volume, start, i)
      {
        Advance(base, rows, i);
        Hear(base, rows, start, i, old(blip));
      }
    }

    /** The change of the output after timestamp i. */
    method Hear(ghost base: seq<int>, ghost rows: seq<seq<int>>, ghost start: int, i: nat, ghost heard: seq<BlipDelta>)
      requires Shape() && Frame(base, rows, timestamps) && i < |timestamps|
      requires Base() == LevelsAfter(base, rows, timestamps, i + 1)
      requires previousOutputLeft == OutputAfter(base, rows, timestamps, volume, start, i)
      requires blip == heard + Playback(base, rows, timestamps, volume, start, i)
      modifies this`previousOutputLeft, this`blip
      ensures previousOutputLeft == OutputAfter(base, rows, timestamps, volume, start, i + 1)
      ensures blip == heard + Playback(base, rows, timestamps, volume, start, i + 1)
    {
      hide Frame, LevelsAfter;
      var output := volume(Base()) * 4;
      var delta := output - previousOutputLeft;
      if delta != 0 {
        blip := blip + [BlipDelta(timestamps[i], delta)];
      }
      previousOutputLeft := output;
    }

    /** end_frame: afterwards nothing is pending, every channel is at its balance, and the output heard is
        the playback of the channel levels; the first frame with output only sets the starting point. */
    method EndFrame()
      requires Valid()
      modifies this, channelOutput, currentOutput
      ensures Valid() && timestamps == []
      ensures forall ch: nat :: ch < CHANNELS ==> currentOutput[ch] == Balance(ch) == old(Balance(ch))
      ensures initialized == (old(initialized) || old(timestamps) != [])
      ensures previousOutputLeft == if old(timestamps) == [] then old(previousOutputLeft) else volume(Base()) * 4
      ensures var stamps := SortUnique(old(timestamps));
              Frame(old(Base()), old(Rows()), stamps)
              && blip == old(blip) + if old(initialized)
                 then Playback(old(Base()), old(Rows()), stamps, volume, old(previousOutputLeft), |stamps|) else []
    {
      hide Playback, LevelsAt, Wrap16;
      if timestamps == [] {
        assert blip == old(blip) + [];
        NothingPlayed(old(Base()), old(Rows()), volume, previousOutputLeft);
        ZeroRows();
        return;
      }
      SortedIsValid(SortUnique(timestamps));
      timestamps := SortUnique(timestamps);
      if !initialized {
        PlaySilently();
        previousOutputLeft := volume(Base()) * 4;
        initialized := true;
      } else {
        Play();
      }
      LevelsEnd(old(Base()), old(Rows()), timestamps);
      assert forall ch: nat :: ch < CHANNELS ==> Base()[ch] == old(Balance(ch));
      ClearPending();
      ZeroRows();
    }

    lemma NothingPlayed(base: seq<int>, rows: seq<seq<int>>, volume: seq<int> -> i16, start: int)
      requires Frame(base, rows, [])
      ensures Playback(base, rows, [], volume, start, 0) == []
    {}

    lemma ZeroRows()
      requires Shape() && forall ch, t :: 0 <= ch < CHANNELS && 0 <= t < CYCLE_LENGTH ==> channelOutput[ch, t] == 0
      ensures forall ch: nat :: ch < CHANNELS ==> Balance(ch) == currentOutput[ch]
    {
      forall ch: nat | ch < CHANNELS
        ensures Balance(ch) == currentOutput[ch]
      {
        RowSumZero(Row(ch));
      }
    }
  }
}
