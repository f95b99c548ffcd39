/** What the mixer is told over a whole run. */
module ApuLogs {
  import opened Types
  import opened ApuChannels
  import opened ApuModel
  import opened LazyApu

  type ChannelIndex = k: int | 0 <= k < 5

  function TimerOf(c: Channels, k: ChannelIndex): Timer {
    match k
    case 0 => c.sq1.timer
    case 1 => c.sq2.timer
    case 2 => c.tri.timer
    case 3 => c.noi.timer
    case 4 => c.dmc.timer
  }

  function SentIn(f: AudioFrame, k: ChannelIndex): seq<Delta> {
    match k
    case 0 => f.square1
    case 1 => f.square2
    case 2 => f.triangle
    case 3 => f.noise
    case 4 => f.dmc
  }

  /** Everything channel k has sent in completed frames. */
  function SentBefore(frames: seq<AudioFrame>, k: ChannelIndex): int {
    if frames == [] then 0 else SentBefore(frames[..|frames| - 1], k) + Sum(SentIn(frames[|frames| - 1], k))
  }

  predicate SentOk(f: AudioFrame, ordered: bool) {
    f.cycles < CYCLE_LENGTH
    && forall k: ChannelIndex :: InBounds(SentIn(f, k)) && (ordered ==> Ordered(SentIn(f, k), f.cycles))
  }

  predicate FramesOk(frames: seq<AudioFrame>, ordered: bool) {
    forall i :: 0 <= i < |frames| ==> SentOk(frames[i], ordered)
  }

  type PerChannel = s: seq<int> | |s| == 5 witness [0, 0, 0, 0, 0]

  const NOTHING: PerChannel := [0, 0, 0, 0, 0]

  /** By how much the mixer is ahead of each channel's level, and whether all deltas came in time order. */
  datatype Account = Account(lost: PerChannel, ordered: bool)

  /** All deltas ever sent for a channel add up to its level and what resets have lost. */
  predicate Accounted(s: Apu, k: ChannelIndex, a: Account) {
    LogOk(TimerOf(s.ch, k), SentBefore(s.frames, k) - a.lost[k], a.ordered)
  }

  predicate LogsOk(s: Apu, a: Account) {
    FramesOk(s.frames, a.ordered) && forall k: ChannelIndex :: Accounted(s, k, a)
  }

  /** No channel timer's log, clock or level differs. */
  predicate SameLogs(c: Channels, d: Channels) {
    forall k: ChannelIndex ::
      TimerOf(c, k).out == TimerOf(d, k).out && TimerOf(c, k).prev == TimerOf(d, k).prev
      && TimerOf(c, k).last == TimerOf(d, k).last
  }

  lemma TicksKeepLogs(c: Channels, tick: FrameType)
    ensures SameLogs(c, ReloadLengths(FrameTick(c, tick)))
  {
    hide TickEnvelope, TickLinear, TickLength, ReloadLength, SweepTarget;
  }

  lemma DrainKeepsLogs(s: Apu, c: Channels, from: nat, target: nat, a: Account)
    requires LogsOk(s, a) && SameLogs(s.ch, c) && At(c, from) && from <= target < CYCLE_LENGTH
    ensures LogsOk(s.(ch := Drain(c, from, target)), a)
  {
    hide RunTo;
    var t := s.(ch := Drain(c, from, target));
    forall k: ChannelIndex
      ensures Accounted(t, k, a)
    {
      var base := SentBefore(s.frames, k) - a.lost[k];
      assert Accounted(s, k, a);
      match k
      case 0 => RunToLog(c.sq1, SquareTick, target, base, a.ordered);
      case 1 => RunToLog(c.sq2, SquareTick, target, base, a.ordered);
      case 2 => RunToLog(c.tri, TriangleTick, target, base, a.ordered);
      case 3 => RunToLog(c.noi, NoiseTick, target, base, a.ordered);
      case 4 => RunToLog(c.dmc, DmcTick, target, base, a.ordered);
    }
  }

  lemma {:induction false} RunKeepsLogs(s: Apu, a: Account)
    requires Valid(s) && LogsOk(s, a)
    ensures LogsOk(Run(s), a)
    decreases s.cur - s.prev
  {
    hide FramesOk, Accounted, SameLogs, RunFrame, FrameTick, ReloadLengths, Drain;
    if s.prev < s.cur {
      var r := RunFrame(s.fc, s.cur - s.prev);
      var c := ReloadLengths(FrameTick(s.ch, r.tick));
      TicksKeepLogs(s.ch, r.tick);
      DrainKeepsLogs(s, c, s.prev, s.prev + r.ran, a);
      OnlyLogsMatter(s.(ch := Drain(c, s.prev, s.prev + r.ran)), RunOnce(s), a);
      RunKeepsLogs(RunOnce(s), a);
    }
  }

  lemma OnlyLogsMatter(s: Apu, t: Apu, a: Account)
    requires LogsOk(s, a) && SameLogs(s.ch, t.ch) && s.frames == t.frames
    ensures LogsOk(t, a)
  {
    forall k: ChannelIndex
      ensures Accounted(t, k, a)
    {
      assert Accounted(s, k, a);
    }
  }

  /** A full frame's log becomes a mixer frame, and the next log starts empty. */
  lemma FlushKeepsLogs(s: Apu, a: Account)
    requires LogsOk(s, a) && Valid(s) && s.prev == s.cur
    ensures LogsOk(Flush(s), a)
  {
    var t, f := Flush(s), Collect(s.ch, s.cur);
    forall k: ChannelIndex
      ensures Accounted(t, k, a) && InBounds(SentIn(f, k)) && (a.ordered ==> Ordered(SentIn(f, k), s.cur))
    {
      assert Accounted(s, k, a);
      assert t.frames[..|t.frames| - 1] == s.frames;
    }
    assert SentOk(f, a.ordered);
  }

  lemma WriteChannelKeepsLogs(s: Apu, addr: u16, value: u8, a: Account)
    requires Valid(s) && s.prev == s.cur && LogsOk(s, a) && IsChannelRegister(addr)
    ensures LogsOk(s.(ch := WriteChannel(s.ch, addr, value)), a)
  {
    hide AddOutput, SquareLevel, SweepTarget, Bit, InBounds, Ordered, Sum, SentBefore, WriteSquare;
    var t := s.(ch := WriteChannel(s.ch, addr, value));
    forall k: ChannelIndex
      ensures Accounted(t, k, a)
    {
      assert Accounted(s, k, a);
      var base := SentBefore(s.frames, k) - a.lost[k];
      match k
      case 0 => SquareWriteKeepsLog(s.ch.sq1, addr % 4, value, base, a.ordered);
      case 1 => SquareWriteKeepsLog(s.ch.sq2, addr % 4, value, base, a.ordered);
      case 2 =>
      case 3 =>
      case 4 => AddOutputLog(s.ch.dmc.timer, value % 128, base, a.ordered);
    }
  }

  lemma SquareWriteKeepsLog(c: Channel<Square>, reg: u2, value: u8, base: int, ordered: bool)
    requires LogOk(c.timer, base, ordered) && c.timer.prev < CYCLE_LENGTH
    ensures LogOk(WriteSquare(c, reg, value).timer, base, ordered)
  {
    hide AddOutput, SquareLevel, SweepTarget, Bit;
    var d := WriteSquareRegister(c, reg, value);
    assert d.timer.out == c.timer.out && d.timer.prev == c.timer.prev && d.timer.last == c.timer.last;
    AddOutputLog(d.timer, SquareLevel(d.gen), base, ordered);
  }

  lemma StepKeepsLogs(s: Apu, op: Op, lazy: bool, a: Account)
    requires InFrame(s) && LogsOk(s, a)
    ensures LogsOk(Step(s, op, lazy).0, a)
  {
    hide LogsOk, Run, Flush, WriteChannel, Enable, ProcessDmcClock, RunDue, Refill, WriteFrame;
    var c := Later(s);
    PollKeepsLogs(s, a);
    OnlyLogsMatter(s, c, a);
    PollKeepsLogs(c, a);
    match op
    case Clock =>
      if s.enabled {
        OnlyLogsMatter(PollIfFlagged(c), ConsumeRequest(PollIfFlagged(c)), a);
        RunKeepsLogs(ConsumeRequest(PollIfFlagged(c)), a);
        RunKeepsLogs(Poll(c), a);
        FlushKeepsLogs(Run(Poll(c)), a);
      }
    case WriteOp(addr, value, odd) =>
      RunKeepsLogs(s, a);
      var r := Run(s);
      if addr == 0x4015 {
        EnableKeepsLogs(r, value, odd, a);
      } else if addr == 0x4017 {
        OnlyLogsMatter(r, Write(s, addr, value, odd), a);
      } else if IsChannelRegister(addr) {
        WriteChannelKeepsLogs(r, addr, value, a);
        OnlyLogsMatter(r.(ch := WriteChannel(r.ch, addr, value)), Write(s, addr, value, odd), a);
      }
    case ReadOp(addr) =>
      RunKeepsLogs(s, a);
      OnlyLogsMatter(Run(s), Read(s, addr).0, a);
    case RefillOp(value) => OnlyLogsMatter(s, RefillDmc(s, value), a);
    case EndFrameOp =>
      RunKeepsLogs(Poll(s), a);
      FlushKeepsLogs(Run(Poll(s)), a);
    case SetStatus(on) => OnlyLogsMatter(s, s.(enabled := on), a);
  }

  lemma PollKeepsLogs(s: Apu, a: Account)
    requires LogsOk(s, a)
    ensures LogsOk(Poll(s), a) && LogsOk(PollIfFlagged(s), a)
  {
    hide LogsOk, ProcessDmcClock;
    OnlyLogsMatter(s, Poll(s), a);
  }

  lemma EnableKeepsLogs(s: Apu, value: u8, odd: bool, a: Account)
    requires LogsOk(s, a)
    ensures LogsOk(s.(ch := Enable(s.ch, value, odd)), a)
  {
    hide LogsOk, EnableLength, EnableDmc, Bit;
    OnlyLogsMatter(s, s.(ch := Enable(s.ch, value, odd)), a);
  }

  lemma {:induction false} RunKeepsFrames(s: Apu)
    requires Valid(s)
    ensures Run(s).frames == s.frames
    decreases s.cur - s.prev
  {
    hide RunFrame, FrameTick, ReloadLengths, Drain;
    if s.prev < s.cur { RunKeepsFrames(RunOnce(s)); }
  }

  /** Whenever an operation ends an audio frame, all deltas have been handed over. */
  lemma FrameEndsLogs(s: Apu, op: Op, lazy: bool)
    requires InFrame(s)
    ensures var t := Step(s, op, lazy).0; t.frames == s.frames || NothingPending(t)
  {
    hide Run, WriteChannel, Enable, ProcessDmcClock, RunDue, Refill, WriteFrame;
    RunKeepsFrames(s);
    RunKeepsFrames(Poll(Later(s)));
    RunKeepsFrames(ConsumeRequest(PollIfFlagged(Later(s))));
  }

  // ---- resets ----

  /** Nothing has been sent in the current frame. */
  predicate NothingPending(s: Apu) { forall k: ChannelIndex :: TimerOf(s.ch, k).out == [] }

  lemma PendingNothing(s: Apu, k: ChannelIndex)
    ensures NothingPending(s) ==> TimerOf(s.ch, k).out == []
  {}

  /** A reset forgets every level without telling the mixer. */
  function ResetAccount(s: Apu, a: Account): Account {
    Account(seq(5, k requires 0 <= k < 5 => a.lost[k] + TimerOf(s.ch, k).last), a.ordered && NothingPending(s))
  }

  lemma ResetTimers(s: Apu, soft: bool, k: ChannelIndex)
    ensures Reset(s, soft).frames == s.frames
    ensures var t := TimerOf(Reset(s, soft).ch, k);
            t.out == TimerOf(s.ch, k).out && t.last == 0 && t.prev == 0
  {}

  lemma ResetKeepsLogs(s: Apu, soft: bool, a: Account)
    requires LogsOk(s, a)
    ensures LogsOk(Reset(s, soft), ResetAccount(s, a))
  {
    var t, b := Reset(s, soft), ResetAccount(s, a);
    hide Reset, NothingPending;
    ResetTimers(s, soft, 0);
    forall k: ChannelIndex
      ensures Accounted(t, k, b)
    {
      assert Accounted(s, k, a);
      ResetTimers(s, soft, k);
      PendingNothing(s, k);
    }
    assert FramesOk(t.frames, b.ordered) by {
      forall i | 0 <= i < |s.frames|
        ensures SentOk(s.frames[i], b.ordered)
      {
        assert SentOk(s.frames[i], a.ordered);
      }
    }
  }

  /** Only a silent channel survives a reset with its account unchanged. */
  lemma ResetExactlyWhen(s: Apu, soft: bool, k: ChannelIndex, a: Account)
    requires LogsOk(s, a)
    ensures Accounted(Reset(s, soft), k, a.(ordered := false)) <==> TimerOf(s.ch, k).last == 0
  {
    assert Accounted(s, k, a);
    ResetTimers(s, soft, k);
  }

  // ---- whole runs, resets included ----

  /** A reset is the console's button or, with soft false, another load over the same mixer. */
  datatype Event = Operate(op: Op) | ResetEvent(soft: bool)

  function Happen(s: Apu, e: Event, lazy: bool): (t: Apu)
    requires InFrame(s)
    ensures InFrame(t)
  {
    match e
    case Operate(op) => Step(s, op, lazy).0
    case ResetEvent(soft) => Reset(s, soft)
  }

  function RunEvents(s: Apu, events: seq<Event>, lazy: bool): (t: Apu)
    requires InFrame(s)
    ensures InFrame(t)
    decreases events
  {
    if events == [] then s else RunEvents(Happen(s, events[0], lazy), events[1..], lazy)
  }

  /** The account after a run: what was lost is the sum of the levels at its resets. */
  function AccountAfter(s: Apu, events: seq<Event>, lazy: bool, a: Account): Account
    requires InFrame(s)
    decreases events
  {
    if events == [] then a
    else AccountAfter(Happen(s, events[0], lazy), events[1..], lazy,
                      if events[0].ResetEvent? then ResetAccount(s, a) else a)
  }

  /** Every run keeps the account, from any state that has one. */
  lemma {:induction false} RunKeepsAccount(s: Apu, events: seq<Event>, lazy: bool, a: Account)
    requires InFrame(s) && LogsOk(s, a)
    ensures LogsOk(RunEvents(s, events, lazy), AccountAfter(s, events, lazy, a))
    decreases events
  {
    hide LogsOk, Step, Reset, InFrame, ResetAccount;
    if events != [] {
      match events[0] {
        case Operate(op) => StepKeepsLogs(s, op, lazy, a);
        case ResetEvent(soft) => ResetKeepsLogs(s, soft, a);
      }
      var b := if events[0].ResetEvent? then ResetAccount(s, a) else a;
      RunKeepsAccount(Happen(s, events[0], lazy), events[1..], lazy, b);
    }
  }

  predicate NoReset(events: seq<Event>) { forall i :: 0 <= i < |events| ==> events[i].Operate? }

  lemma {:induction false} NothingLostWithoutReset(s: Apu, events: seq<Event>, lazy: bool, a: Account)
    requires InFrame(s) && NoReset(events)
    ensures AccountAfter(s, events, lazy, a) == a
    decreases events
  {
    hide Step, InFrame;
    if events != [] { NothingLostWithoutReset(Happen(s, events[0], lazy), events[1..], lazy, a); }
  }

  /** The console is built with a new mixer: no frame and no delta yet. */
  predicate NewMixer(s: Apu) { s.frames == [] && NothingPending(s) }

  lemma StartAccounted(before: Apu, soft: bool)
    requires NewMixer(before)
    ensures LogsOk(Reset(before, soft), Account(NOTHING, true))
  {
    var s := Reset(before, soft);
    forall k: ChannelIndex
      ensures Accounted(s, k, Account(NOTHING, true))
    {
      assert TimerOf(before.ch, k).out == [];
      ResetTimers(before, soft, k);
    }
  }

  /** From the start of the console, in every run and through any resets: every delta is in bounds, and for every
      channel the deltas of all frames plus those pending add up to its level and the levels lost at resets.
      Without a reset nothing is lost and every frame is in time order. */
  lemma DeltasAccountForLevels(before: Apu, events: seq<Event>, lazy: bool)
    requires NewMixer(before)
    ensures var s := Reset(before, false);
            var a := AccountAfter(s, events, lazy, Account(NOTHING, true));
            LogsOk(RunEvents(s, events, lazy), a) && (NoReset(events) ==> a == Account(NOTHING, true))
  {
    StartAccounted(before, false);
    RunKeepsAccount(Reset(before, false), events, lazy, Account(NOTHING, true));
    if NoReset(events) { NothingLostWithoutReset(Reset(before, false), events, lazy, Account(NOTHING, true)); }
  }

  /** Writing 64 to $4011 after a reset, and ending the frame, hands the mixer a level of 64. */
  lemma LevelHandedOver(before: Apu)
    requires NewMixer(before)
    ensures var t := EndFrame(Write(Reset(before, false), 0x4011, 64, false));
            && TimerOf(t.ch, 4).last == 64 && TimerOf(t.ch, 4).out == [] && SentBefore(t.frames, 4) == 64
  {
    var s := Reset(before, false);
    assert TimerOf(before.ch, 4).out == [];
    var t := Write(s, 0x4011, 64, false);
    assert Run(s) == s && Run(Poll(t)) == Poll(t);
    assert t.ch.dmc.timer.out == [Delta(0, 64)] && t.ch.dmc.timer.last == 64;
    hide Write, Reset, ProcessDmcClock;
    var u := EndFrame(t);
    assert u.frames == [Collect(Poll(t).ch, 0)] && u.frames[..0] == [];
    assert Sum([Delta(0, 64)]) == 64;
  }

  /** A level of 64 written to $4011 and one audio frame, then a reset: the mixer keeps the 64 for good. */
  lemma ResetLosesLevel(before: Apu, soft: bool, lazy: bool)
    requires NewMixer(before)
    ensures var events := [Operate(WriteOp(0x4011, 64, false)), Operate(EndFrameOp), ResetEvent(soft)];
            var s := RunEvents(Reset(before, false), events, lazy);
            TimerOf(s.ch, 4).last == 0 && TimerOf(s.ch, 4).out == [] && SentBefore(s.frames, 4) == 64
  {
    hide Reset, Write, EndFrame, NewMixer;
    var s := Reset(before, false);
    var t, u := Write(s, 0x4011, 64, false), EndFrame(Write(s, 0x4011, 64, false));
    var events := [Operate(WriteOp(0x4011, 64, false)), Operate(EndFrameOp), ResetEvent(soft)];
    assert RunEvents(u, events[1..][1..], lazy) == Reset(u, soft) by { assert events[1..][1..][1..] == []; }
    assert RunEvents(t, events[1..], lazy) == Reset(u, soft);
    LevelHandedOver(before);
    ResetTimers(u, soft, 4);
  }
}
