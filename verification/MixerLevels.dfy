/** The mixer follows the APU: after each frame every channel's mixed level is the channel's own level. */
module MixerLevels {
  import opened Types
  import opened ApuChannels
  import opened ApuLogs
  import opened ApuModel
  import opened SoundMixer

  method AddDeltas(m: NesSoundMixer, channel: nat, out: seq<Delta>)
    requires m.Valid() && channel < CHANNELS && InBounds(out)
    modifies m`timestamps, m.channelOutput
    ensures m.Valid()
    ensures forall ch: nat :: ch < CHANNELS ==>
      m.Balance(ch) == if ch == channel then Wrap16(old(m.Balance(ch)) + Sum(out)) else old(m.Balance(ch))
  {
    for i := 0 to |out|
      invariant m.Valid()
      invariant forall ch: nat :: ch < CHANNELS ==>
        m.Balance(ch) == if ch == channel then Wrap16(old(m.Balance(ch)) + Sum(out[..i])) else old(m.Balance(ch))
    {
      m.AddDelta(channel, out[i].time, out[i].delta);
      assert out[..i + 1][..i] == out[..i];
      WrapSum(old(m.Balance(channel)) + Sum(out[..i]), out[i].delta);
    }
    assert out[..|out|] == out;
  }

  /** All five channels' deltas of one frame reach the mixer. */
  method TakeFrame(m: NesSoundMixer, f: AudioFrame)
    requires m.Valid() && forall k: ChannelIndex :: InBounds(SentIn(f, k))
    modifies m`timestamps, m.channelOutput
    ensures m.Valid()
    ensures forall j: ChannelIndex :: m.Balance(j) == Wrap16(old(m.Balance(j)) + Sum(SentIn(f, j)))
  {
    hide Wrap16, Sum, InBounds;
    for k := 0 to 5
      invariant m.Valid()
      invariant forall j: ChannelIndex :: j < k ==> m.Balance(j) == Wrap16(old(m.Balance(j)) + Sum(SentIn(f, j)))
      invariant forall j: ChannelIndex :: j >= k ==> m.Balance(j) == old(m.Balance(j))
    {
      AddDeltas(m, k, SentIn(f, k));
    }
  }

  /** The mixer has played exactly these frames: each channel stands at the sum of all its deltas. */
  ghost predicate Follows(m: NesSoundMixer, frames: seq<AudioFrame>)
    reads m, m.channelOutput, m.currentOutput
  {
    m.Valid() && forall k: ChannelIndex :: m.currentOutput[k] == m.Balance(k) == Wrap16(SentBefore(frames, k))
  }

  /** One audio frame: the deltas arrive, then end_frame plays them. */
  method PlayFrame(m: NesSoundMixer, ghost frames: seq<AudioFrame>, f: AudioFrame)
    requires Follows(m, frames) && forall k: ChannelIndex :: InBounds(SentIn(f, k))
    modifies m, m.channelOutput, m.currentOutput
    ensures Follows(m, frames + [f])
  {
    forall k: ChannelIndex
      ensures Wrap16(SentBefore(frames + [f], k)) == Wrap16(m.Balance(k) + Sum(SentIn(f, k)))
    {
      assert (frames + [f])[..|frames|] == frames;
      WrapSum(SentBefore(frames, k), Sum(SentIn(f, k)));
    }
    hide Wrap16, SentBefore, Sum, InBounds;
    TakeFrame(m, f);
    m.EndFrame();
  }

  method PlayFrames(m: NesSoundMixer, frames: seq<AudioFrame>)
    requires Follows(m, []) && FramesOk(frames, false)
    modifies m, m.channelOutput, m.currentOutput
    ensures Follows(m, frames)
  {
    hide Follows, InBounds;
    for i := 0 to |frames|
      invariant Follows(m, frames[..i])
    {
      assert SentOk(frames[i], false);
      assert frames[..i + 1] == frames[..i] + [frames[i]];
      PlayFrame(m, frames[..i], frames[i]);
    }
    assert frames[..|frames|] == frames;
  }

  /** What has been sent for a channel is its level and what resets have lost of it. */
  lemma SentIsLevel(s: Apu, a: Account, k: ChannelIndex)
    requires LogsOk(s, a)
    ensures SentBefore(s.frames, k) + Sum(TimerOf(s.ch, k).out) == TimerOf(s.ch, k).last + a.lost[k]
    ensures InBounds(TimerOf(s.ch, k).out)
  {
    assert Accounted(s, k, a);
  }

  lemma FramesInBounds(frames: seq<AudioFrame>, ordered: bool)
    requires FramesOk(frames, ordered)
    ensures FramesOk(frames, false)
  {
    forall i | 0 <= i < |frames|
      ensures SentOk(frames[i], false)
    {
      assert SentOk(frames[i], ordered);
    }
  }

  /** The mixer holds, for every channel, the channel's level and what resets have lost of it; and where nothing is
      pending, as after an end of frame, that is what it plays. */
  ghost predicate Level(m: NesSoundMixer, s: Apu, a: Account)
    reads m, m.channelOutput, m.currentOutput
  {
    m.Valid() && forall k: ChannelIndex ::
      && m.Balance(k) == Wrap16(TimerOf(s.ch, k).last + a.lost[k])
      && (TimerOf(s.ch, k).out == [] ==> m.currentOutput[k] == m.Balance(k))
  }

  /** A new mixer is told everything the APU has sent. */
  method PlaySent(m: NesSoundMixer, s: Apu, ghost a: Account)
    requires Follows(m, []) && LogsOk(s, a)
    modifies m, m.channelOutput, m.currentOutput
    ensures Level(m, s, a)
  {
    hide InBounds, Wrap16, Sum, SentBefore;
    FramesInBounds(s.frames, a.ordered);
    PlayFrames(m, s.frames);
    var f := Collect(s.ch, s.cur);
    forall k: ChannelIndex
      ensures InBounds(SentIn(f, k)) && SentIn(f, k) == TimerOf(s.ch, k).out
      ensures Wrap16(m.Balance(k) + Sum(SentIn(f, k))) == Wrap16(TimerOf(s.ch, k).last + a.lost[k])
      ensures SentIn(f, k) == [] ==> m.currentOutput[k] == Wrap16(TimerOf(s.ch, k).last + a.lost[k])
    {
      SentIsLevel(s, a, k);
      WrapSum(SentBefore(s.frames, k), Sum(SentIn(f, k)));
      NothingAdded(SentIn(f, k));
    }
    TakeFrame(m, f);
  }

  lemma NothingAdded(out: seq<Delta>)
    ensures out == [] ==> Sum(out) == 0
  {}

  /** A new mixer after any run of the console from its start: every channel stands at its level, plus what was lost
      at the resets of the run, if any. */
  method PlayRun(volume: seq<int> -> i16, before: Apu, events: seq<Event>, lazy: bool)
    returns (m: NesSoundMixer, s: Apu)
    requires NewMixer(before)
    ensures s == RunEvents(Reset(before, false), events, lazy)
    ensures Level(m, s, AccountAfter(Reset(before, false), events, lazy, Account(NOTHING, true)))
    ensures NoReset(events) ==> forall k: ChannelIndex :: m.Balance(k) == TimerOf(s.ch, k).last
  {
    hide Reset, RunEvents, AccountAfter, NoReset, NewMixer, LogsOk;
    m := new NesSoundMixer(volume);
    s := RunEvents(Reset(before, false), events, lazy);
    ghost var a := AccountAfter(Reset(before, false), events, lazy, Account(NOTHING, true));
    DeltasAccountForLevels(before, events, lazy);
    PlaySent(m, s, a);
  }
}
