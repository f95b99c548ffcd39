/** What starting and stopping a DMC fetch does to the cycles of a DMA. */
module DmaStops {
  import opened DmaModel
  import opened DmaTransfer
  import opened Types

  /** A stop is among the requests of cycle n, and no start after it. */
  predicate StopsAt(w: World, n: nat) {
    var requests := RequestsAt(w, n);
    requests != [] && requests[|requests| - 1] == Stop
  }

  predicate NoStartFrom(w: World, n: nat) { forall m :: n <= m < |w.requests| ==> Start !in w.requests[m] }

  lemma NoStartAt(w: World, n: nat, m: nat)
    requires NoStartFrom(w, n) && n <= m
    ensures Start !in RequestsAt(w, m)
  {}

  // ---- the flags ----

  /** Without a transfer a stop changes nothing. */
  lemma {:induction false} StopsIdle(f: Flags, requests: seq<Request>)
    requires !f.running && Start !in requests
    ensures FireAll(f, requests) == f
    decreases |requests|
  {
    if requests != [] {
      assert requests[0] == Stop;
      StopsIdle(f, requests[1..]);
    }
  }

  /** A transfer, if there is one, has been aborted. */
  predicate Doomed(f: Flags) { f.running ==> f.abort }

  lemma {:induction false} StopDooms(f: Flags, requests: seq<Request>)
    requires requests != [] && requests[|requests| - 1] == Stop
    ensures Doomed(FireAll(f, requests))
    decreases |requests|
  {
    if |requests| == 1 { assert FireAll(Fire(f, Stop), []) == Fire(f, Stop); }
    else { StopDooms(Fire(f, requests[0]), requests[1..]); }
  }

  lemma {:induction false} FireAppend(f: Flags, a: seq<Request>, b: seq<Request>)
    ensures FireAll(f, a + b) == FireAll(FireAll(f, a), b)
    decreases |a|
  {
    if a == [] {
      assert a + b == b;
    } else {
      assert (a + b)[1..] == a[1..] + b;
      FireAppend(Fire(f, a[0]), a[1..], b);
    }
  }

  // ---- cycles of the loop ----

  /** The loop n cycles on, or where it ended before. */
  function After(d: Dma, w: World, n: nat): (e: Dma)
    requires DmaOk(d)
    ensures DmaOk(e)
    decreases n
  {
    if n == 0 || !Busy(d) then d else After(Step(d, w), w, n - 1)
  }

  lemma StepLogs(d: Dma, w: World)
    requires DmaOk(d)
    ensures Step(d, w).log[..|d.log|] == d.log && |Step(d, w).log| == |d.log| + 1
    ensures Step(d, w).even != d.even
    ensures Step(d, w).log[|d.log|].Fetch? <==> d.even && CanFetch(d.f)
  {
    hide FireAll, Clear;
  }

  lemma {:induction false} LoopExtends(d: Dma, w: World)
    requires DmaOk(d)
    ensures d.log <= Loop(d, w).log
    decreases Left(d, w), 512 - d.counter, Pending(d.f), if d.even then 0 else 1
  {
    hide Step, Pending;
    LoopStep(d, w);
    if Busy(d) {
      StepProgress(d, w);
      StepLogs(d, w);
      LoopExtends(Step(d, w), w);
    }
  }

  /** The loop passes through each of these states. */
  lemma {:induction false} AfterLoops(d: Dma, w: World, n: nat)
    requires DmaOk(d) && |d.log| + n <= |Loop(d, w).log|
    ensures var e := After(d, w, n);
            Loop(e, w) == Loop(d, w) && |e.log| == |d.log| + n && (|e.log| < |Loop(d, w).log| ==> Busy(e))
    decreases n
  {
    hide Step, Loop;
    LoopStep(d, w);
    if n > 0 {
      StepLogs(d, w);
      AfterLoops(Step(d, w), w, n - 1);
    }
  }

  lemma {:induction false} AfterNext(d: Dma, w: World, n: nat)
    requires DmaOk(d) && Busy(After(d, w, n))
    ensures After(d, w, n + 1) == Step(After(d, w, n), w)
    decreases n
  {
    hide Step;
    if n > 0 { AfterNext(Step(d, w), w, n - 1); }
  }

  /** With no transfer running and none to be started nothing is fetched any more. */
  lemma {:induction false} IdleFetchesNothing(d: Dma, w: World)
    requires DmaOk(d) && !d.f.running && NoStartFrom(w, |d.log|)
    ensures var log := Loop(d, w).log; forall i :: |d.log| <= i < |log| ==> !log[i].Fetch?
    decreases Left(d, w), 512 - d.counter, Pending(d.f), if d.even then 0 else 1
  {
    LoopStep(d, w);
    if Busy(d) {
      var e := Step(d, w);
      StepProgress(d, w);
      NoStartAt(w, |d.log|, |d.log|);
      StopsIdle(Clear(d.f), RequestsAt(w, |d.log|));
      IdleFetchesNothing(e, w);
      LoopExtends(e, w);
      assert Loop(d, w).log[|d.log|] == e.log[|d.log|];
    }
  }

  /** An aborted transfer fetches in the next cycle or never: exactly if that is a get cycle and neither a halt nor a
      dummy cycle was missing. */
  lemma DoomedFetches(d: Dma, w: World)
    requires DmaOk(d) && Doomed(d.f) && NoStartFrom(w, |d.log|)
    ensures var log, n := Loop(d, w).log, |d.log|;
            && (d.even && CanFetch(d.f) ==> n < |log|)
            && forall i :: n <= i < |log| ==> (log[i].Fetch? <==> i == n && d.even && CanFetch(d.f))
  {
    hide Loop;
    LoopStep(d, w);
    if Busy(d) {
      var e := Step(d, w);
      StepLogs(d, w);
      NoStartAt(w, |d.log|, |d.log|);
      DoomedStep(d, w);
      IdleFetchesNothing(e, w);
      LoopExtends(e, w);
      assert Loop(d, w).log[|d.log|] == e.log[|d.log|];
    }
  }

  lemma DoomedStep(d: Dma, w: World)
    requires DmaOk(d) && Doomed(d.f) && Start !in RequestsAt(w, |d.log|)
    ensures !Step(d, w).f.running
  {
    hide FireAll;
    StopsIdle(Clear(d.f), RequestsAt(w, |d.log|));
  }

  // ---- stops ----

  /** The whole DMA: after a stop in cycle n, and no later start, a sample byte is fetched in cycle n + 1 and never
      again if the engine was ready to fetch in that cycle, and otherwise not at all. */
  lemma StopEndsFetches(f: Flags, sprite: bool, page: u8, even: bool, w: World, n: nat)
    requires StopsAt(w, n) && NoStartFrom(w, n + 1)
    requires n < |Loop(Enter(f, sprite, page, even, w), w).log|
    ensures var d := Enter(f, sprite, page, even, w); var log, e := Loop(d, w).log, After(d, w, n);
            var ready := e.even && e.f.running && !e.f.halt && !e.f.dummy;
            && (ready ==> n + 1 < |log|)
            && forall i :: n < i < |log| ==> (log[i].Fetch? <==> i == n + 1 && ready)
  {
    hide Loop, Step;
    var d := Enter(f, sprite, page, even, w);
    AfterLoops(d, w, n);
    var e := After(d, w, n);
    if n == 0 {
      EnterDooms(f, sprite, page, even, w);
    } else {
      AfterLoops(d, w, n - 1);
      AfterNext(d, w, n - 1);
      StepDooms(After(d, w, n - 1), w);
    }
    DoomedFetches(e, w);
  }

  lemma EnterDooms(f: Flags, sprite: bool, page: u8, even: bool, w: World)
    requires StopsAt(w, 0)
    ensures !Enter(f, sprite, page, even, w).f.running
  {
    hide FireAll;
    StopDooms(f.(halt := false), RequestsAt(w, 0));
  }

  lemma StepDooms(d: Dma, w: World)
    requires DmaOk(d) && StopsAt(w, |d.log|)
    ensures Doomed(Step(d, w).f)
  {
    hide FireAll, Clear;
    StopDooms(Clear(d.f), RequestsAt(w, |d.log|));
  }

  /** What is logged while a sprite transfer is on is the beginning of that, so the same holds there. */
  lemma CopyIsPrefix(d: Dma, w: World)
    requires DmaOk(d)
    ensures Copy(d, w).log <= Loop(d, w).log
  {
    LoopAfterCopy(d, w);
    LoopExtends(Copy(d, w), w);
  }

  /** A stop before the halt cycle takes the whole request back, the halt included. */
  lemma StoppedBeforeHalt(f: Flags)
    requires f.running && f.halt
    ensures FireAll(f, [Stop]) == Flags(false, false, false, f.abort)
  {
    assert FireAll(f, [Stop]) == FireAll(Fire(f, Stop), []);
  }

  /** A stop in the halt cycle takes back a lone fetch: the DMA is that one cycle. */
  lemma StoppedInHaltCycle(page: u8, even: bool, w: World)
    requires RequestsAt(w, 0) == [Stop]
    ensures var e := Loop(Enter(Flags(true, true, true, false), false, page, even, w), w);
            e.log == [Quiet] && e.f == Flags(false, false, false, false)
  {
    assert FireAll(Flags(false, true, true, false), [Stop]) == Flags(false, true, true, true);
  }

  /** A stop in the dummy cycle comes too late: the byte is fetched all the same in the get cycle that follows. */
  lemma LateStopFetches(page: u8, w: World)
    requires w.requests == [[], [Stop]]
    ensures Loop(Enter(Flags(true, true, true, false), false, page, false, w), w).log
         == [Quiet, Quiet, Fetch(w.samples(2))]
  {
    hide Loop;
    var d := Enter(Flags(true, true, true, false), false, page, false, w);
    assert d == Dma(Flags(false, true, true, false), false, page, 0, 0, 0, false, [Quiet]);
    assert FireAll(Flags(false, false, true, false), [Stop]) == Flags(false, false, true, true);
    var one := Step(d, w);
    assert one == Dma(Flags(false, false, true, true), false, page, 0, 0, 0, true, [Quiet, Quiet]);
    LoopStep(d, w);
    LoopStep(one, w);
    LoopStep(Step(one, w), w);
  }

  // ---- starts ----

  /** A start asks for a transfer with a halt and a dummy cycle, and leaves a pending abort pending. */
  lemma StartAsks(f: Flags, before: seq<Request>)
    ensures FireAll(f, before + [Start]) == Flags(true, true, true, FireAll(f, before).abort)
  {
    FireAppend(f, before, [Start]);
    var g := FireAll(f, before);
    assert FireAll(g, [Start]) == FireAll(Fire(g, Start), []);
  }

  /** With no request after it, alone or during a sprite transfer, a started transfer fetches one byte: in the third
      cycle, or the fourth when the third is a put cycle. If an abort was still pending it fetches nothing. */
  lemma StartFetchesOnce(d: Dma, w: World)
    requires DmaOk(d) && d.f.running && d.f.halt && d.f.dummy && |w.requests| <= |d.log|
    ensures var log, at := Loop(d, w).log, |d.log| + if d.even then 2 else 3;
            && (!d.f.abort ==> at < |log|)
            && forall i :: |d.log| <= i < |log| ==> (log[i].Fetch? <==> !d.f.abort && i == at)
  {
    hide Loop;
    if d.f.abort {
      DoomedFetches(d, w);
    } else {
      var one := Step(d, w);
      QuietStep(d, w);
      var two := Step(one, w);
      QuietStep(one, w);
      if d.even {
        FetchStep(two, w);
      } else {
        QuietStep(two, w);
        FetchStep(Step(two, w), w);
      }
    }
  }

  /** A cycle in which a transfer is not ready: one obligation less, and nothing fetched. */
  lemma QuietStep(d: Dma, w: World)
    requires DmaOk(d) && d.f.running && !d.f.abort && !(d.even && CanFetch(d.f)) && |w.requests| <= |d.log|
    ensures var e := Step(d, w);
            && Loop(d, w) == Loop(e, w) && |e.log| == |d.log| + 1 && e.even != d.even && e.log <= Loop(d, w).log
            && e.f == (if d.f.halt then d.f.(halt := false) else d.f.(dummy := false)) && !e.log[|d.log|].Fetch?
  {
    hide Loop;
    LoopStep(d, w);
    StepLogs(d, w);
    LoopExtends(Step(d, w), w);
  }

  lemma FetchStep(d: Dma, w: World)
    requires DmaOk(d) && CanFetch(d.f) && !d.f.abort && d.even && |w.requests| <= |d.log|
    ensures var log := Loop(d, w).log;
            |d.log| < |log| && forall i :: |d.log| <= i < |log| ==> (log[i].Fetch? <==> i == |d.log|)
  {
    hide Loop;
    var e := Step(d, w);
    LoopStep(d, w);
    StepLogs(d, w);
    LoopExtends(e, w);
    IdleFetchesNothing(e, w);
    assert Loop(d, w).log[|d.log|] == e.log[|d.log|];
  }

  // ---- what is left behind ----

  /** Without requests flags that are down stay down. */
  lemma {:induction false} ClearStaysClear(d: Dma, w: World)
    requires DmaOk(d) && d.f == Flags(false, false, false, false) && |w.requests| <= |d.log|
    ensures Loop(d, w).f == Flags(false, false, false, false)
    decreases Left(d, w), 512 - d.counter, Pending(d.f), if d.even then 0 else 1
  {
    LoopStep(d, w);
    if Busy(d) {
      StepProgress(d, w);
      ClearStaysClear(Step(d, w), w);
    }
  }

  /** A started transfer leaves nothing pending, and neither does one that an abort cuts short. */
  lemma StartLeavesNothing(d: Dma, w: World)
    requires DmaOk(d) && d.f.running && d.f.halt && d.f.dummy && |w.requests| <= |d.log|
    ensures Loop(d, w).f == Flags(false, false, false, false)
  {
    hide Loop, Step;
    if d.f.abort {
      LastStep(d, w);
    } else {
      QuietStep(d, w);
      QuietStep(Step(d, w), w);
      var two := Step(Step(d, w), w);
      if !d.even { QuietStep(two, w); }
      LastStep(if d.even then two else Step(two, w), w);
    }
  }

  lemma LastStep(d: Dma, w: World)
    requires DmaOk(d) && (d.f.abort || (d.even && CanFetch(d.f))) && d.f.running && |w.requests| <= |d.log|
    ensures Loop(d, w).f == Flags(false, false, false, false)
  {
    hide Loop;
    LoopStep(d, w);
    ClearStaysClear(Step(d, w), w);
  }

  /** Requests that arrive while the byte is fetched neither stop that transfer nor start another: an abort is
      forgotten, and of a start only the halt and the dummy cycle remain. */
  lemma FetchForgets(d: Dma, w: World)
    requires DmaOk(d) && d.even && CanFetch(d.f)
    ensures var f := Step(d, w).f; !f.running && !f.abort
  {
    hide FireAll, Clear;
  }

  /** A stop in the halt cycle of a sprite transfer ends the DMC's part, but for the dummy cycle. */
  lemma StoppedWithSprites(f: Flags, page: u8, even: bool, w: World)
    requires f.running && RequestsAt(w, 0) == [Stop]
    ensures Enter(f, true, page, even, w).f == Flags(false, f.dummy, false, false)
  {
    assert FireAll(f.(halt := false), [Stop]) == FireAll(Fire(f.(halt := false), Stop), []);
  }
}
