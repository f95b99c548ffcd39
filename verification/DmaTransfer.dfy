/** What a DMA does, whatever the APU requests meanwhile. */
module DmaTransfer {
  import opened Types
  import opened DmaModel

  function Last(log: seq<Access>): Access { if log == [] then Quiet else log[|log| - 1] }

  function Reads(log: seq<Access>): (n: nat)
    ensures n <= |log|
  {
    if log == [] then 0 else Reads(log[..|log| - 1]) + if Last(log).Read? then 1 else 0
  }

  function Writes(log: seq<Access>): (n: nat)
    ensures n <= |log|
  {
    if log == [] then 0 else Writes(log[..|log| - 1]) + if Last(log).Write? then 1 else 0
  }

  function Fetches(log: seq<Access>): (n: nat)
    ensures n <= |log|
  {
    if log == [] then 0 else Fetches(log[..|log| - 1]) + if Last(log).Fetch? then 1 else 0
  }

  /** The bytes written, in order. */
  function Written(log: seq<Access>): (bytes: seq<u8>)
    ensures |bytes| == Writes(log)
  {
    if log == [] then []
    else
      var before := Written(log[..|log| - 1]);
      if Last(log).Write? then before + [Last(log).value] else before
  }

  /** No sprite byte has been read since the last DMC fetch. */
  predicate SinceFetch(log: seq<Access>) {
    log != [] && (Last(log).Fetch? || (!Last(log).Read? && SinceFetch(log[..|log| - 1])))
  }

  /** Bytes are read from the page in order, each is written to $2004 in the very next cycle, and between two
      DMC fetches a sprite byte is read. */
  predicate InOrder(log: seq<Access>, page: u8, w: World) {
    log != [] ==>
      var before := log[..|log| - 1];
      && InOrder(before, page, w)
      && match Last(log) {
           case Quiet => !Last(before).Read?
           case Fetch(_) => !Last(before).Read? && !SinceFetch(before)
           case Read(a, v) => !Last(before).Read? && a == page * 0x100 + Reads(before) && v == w.sprites(|before|, a)
           case Write(v) => Last(before).Read? && Last(before).value == v
         }
  }

  lemma Snoc(log: seq<Access>, a: Access)
    ensures (log + [a])[..|log|] == log && Last(log + [a]) == a
  {}

  /** A request to start always comes with a halt and a dummy cycle; until then nothing is fetched. */
  predicate Fresh(f: Flags) { f.running ==> f.halt && f.dummy }

  lemma {:induction false} FireKeepsFresh(f: Flags, requests: seq<Request>)
    requires Fresh(f)
    ensures Fresh(FireAll(f, requests))
    decreases |requests|
  {
    if requests != [] { FireKeepsFresh(Fire(f, requests[0]), requests[1..]); }
  }

  lemma ClearedIsFresh(f: Flags, requests: seq<Request>)
    ensures !f.running ==> Fresh(FireAll(Clear(f), requests))
  {
    if !f.running { FireKeepsFresh(Clear(f), requests); }
  }

  /** While sprite bytes are copied: `align` is 1 if the copy began before a put cycle. */
  ghost predicate Copying(d: Dma, align: nat, w: World) {
    && d.counter <= 512 && (d.sprite || (d.counter == 512 && d.even))
    && InOrder(d.log, d.page, w)
    && Reads(d.log) == (d.counter + 1) / 2 && Writes(d.log) == d.counter / 2
    && |d.log| == 1 + align + 2 * (Reads(d.log) + Fetches(d.log)) - (if d.even then 0 else 1)
    && (if d.counter % 2 == 1 then !d.even && Last(d.log).Read? && Last(d.log).value == d.value
        else !Last(d.log).Read?)
    && (SinceFetch(d.log) ==> if d.even then Fresh(d.f) else !d.f.running)
  }

  lemma StepKeepsCopying(d: Dma, align: nat, w: World)
    requires DmaOk(d) && Copying(d, align, w) && d.sprite
    ensures Copying(Step(d, w), align, w) && Step(d, w).page == d.page
  {
    hide FireAll, Clear;
    var e := Step(d, w);
    Snoc(d.log, Last(e.log));
    ClearedIsFresh(d.f, RequestsAt(w, |d.log|));
  }

  lemma {:induction false} CopyKeepsCopying(d: Dma, align: nat, w: World)
    requires DmaOk(d) && Copying(d, align, w)
    ensures Copying(Copy(d, w), align, w) && Copy(d, w).page == d.page
    decreases Left(d, w), 512 - d.counter, Pending(d.f), if d.even then 0 else 1
  {
    hide Copying, Step, Pending;
    if d.sprite {
      StepKeepsCopying(d, align, w);
      StepProgress(d, w);
      CopyKeepsCopying(Step(d, w), align, w);
    }
  }

  /** The sprite transfer under any interleaving of DMC requests: 256 bytes are read in order and written one
      cycle after each read, a byte is read between two DMC fetches, and the copy takes exactly
      513 + alignment + 2 * fetches cycles. */
  lemma CopyTransfersPage(f: Flags, page: u8, even: bool, w: World)
    ensures var log := Copy(Enter(f, true, page, even, w), w).log;
            && InOrder(log, page, w) && Reads(log) == 256 && Writes(log) == 256
            && |log| == 513 + (if even then 0 else 1) + 2 * Fetches(log)
  {
    hide Copy;
    var d := Enter(f, true, page, even, w);
    EnterCopying(f, page, even, w);
    CopyKeepsCopying(d, if even then 0 else 1, w);
  }

  lemma EnterCopying(f: Flags, page: u8, even: bool, w: World)
    ensures Copying(Enter(f, true, page, even, w), if even then 0 else 1, w)
  {
    hide FireAll;
    var log := Enter(f, true, page, even, w).log;
    assert log == [Quiet] && log[..0] == [];
    assert !SinceFetch(log[..0]) && InOrder(log[..0], page, w);
    assert Reads(log) == Reads(log[..0]) && Writes(log) == Writes(log[..0]) && Fetches(log) == Fetches(log[..0]);
  }

  // ---- the same, cycle by cycle ----

  lemma {:induction false} InOrderPrefix(log: seq<Access>, n: nat, page: u8, w: World)
    requires InOrder(log, page, w) && n <= |log|
    ensures InOrder(log[..n], page, w)
    decreases |log|
  {
    if n == |log| {
      assert log[..n] == log;
    } else {
      var before := log[..|log| - 1];
      InOrderPrefix(before, n, page, w);
      assert before[..n] == log[..n];
    }
  }

  lemma {:induction false} WritesFollowReads(log: seq<Access>, page: u8, w: World)
    requires InOrder(log, page, w)
    ensures Reads(log) == Writes(log) + if Last(log).Read? then 1 else 0
    decreases |log|
  {
    if log != [] { WritesFollowReads(log[..|log| - 1], page, w); }
  }

  /** The k-th byte written is what a read of byte k of the page returned in the cycle before. */
  lemma {:induction false} KthWritten(log: seq<Access>, page: u8, w: World, k: u8) returns (i: nat)
    requires InOrder(log, page, w) && k < Writes(log)
    ensures i + 1 < |log| && log[i] == Read(page * 0x100 + k, w.sprites(i, page * 0x100 + k))
    ensures log[i + 1] == Write(log[i].value) && Written(log)[k] == log[i].value
    decreases |log|
  {
    var before := log[..|log| - 1];
    if k < Writes(before) {
      i := KthWritten(before, page, w, k);
    } else {
      i := |log| - 2;
      WritesFollowReads(before, page, w);
      assert before[..|before| - 1] == log[..i];
    }
  }

  lemma {:induction false} SinceFetchFrom(log: seq<Access>, i: nat)
    requires i < |log| && log[i].Fetch? && forall m :: i < m < |log| ==> !log[m].Read?
    ensures SinceFetch(log)
    decreases |log|
  {
    if i < |log| - 1 { SinceFetchFrom(log[..|log| - 1], i); }
  }

  /** Two DMC fetches of one copy have a sprite read between them. */
  lemma FetchesApart(log: seq<Access>, page: u8, w: World, i: nat, j: nat) returns (m: nat)
    requires InOrder(log, page, w) && i < j < |log| && log[i].Fetch? && log[j].Fetch?
    ensures i < m < j && log[m].Read?
  {
    InOrderPrefix(log, j + 1, page, w);
    assert log[..j + 1][..j] == log[..j];
    if forall m :: i < m < j ==> !log[m].Read? {
      SinceFetchFrom(log[..j], i);
      assert false;
    }
    m :| i < m < j && log[m].Read?;
  }

  // ---- the DMC engine on its own ----

  /** The loop is the copy followed by what is left of a DMC fetch. */
  lemma {:induction false} LoopAfterCopy(d: Dma, w: World)
    requires DmaOk(d)
    ensures Loop(d, w) == Loop(Copy(d, w), w)
    decreases Left(d, w), 512 - d.counter, Pending(d.f), if d.even then 0 else 1
  {
    if d.sprite {
      StepProgress(d, w);
      LoopAfterCopy(Step(d, w), w);
    }
  }

  /** Without a sprite transfer nothing is copied. */
  lemma {:induction false} LoopCopiesNothing(d: Dma, w: World)
    requires DmaOk(d) && !d.sprite
    ensures var e := Loop(d, w);
            && d.log <= e.log && forall i :: |d.log| <= i < |e.log| ==> e.log[i].Quiet? || e.log[i].Fetch?
    decreases Left(d, w), 512 - d.counter, Pending(d.f), if d.even then 0 else 1
  {
    if Busy(d) {
      StepProgress(d, w);
      LoopCopiesNothing(Step(d, w), w);
    }
  }

  lemma LoopStep(d: Dma, w: World)
    requires DmaOk(d)
    ensures Loop(d, w) == if Busy(d) then Loop(Step(d, w), w) else d
  {}

  /** A DMC fetch alone takes three cycles, or four when a get cycle comes next after the halt. */
  lemma DmcAlone(page: u8, even: bool, w: World)
    requires w.requests == []
    ensures var log := Loop(Enter(Flags(true, true, true, false), false, page, even, w), w).log;
            log == if even then [Quiet, Quiet, Quiet, Fetch(w.samples(3))] else [Quiet, Quiet, Fetch(w.samples(2))]
  {
    hide Loop;
    var d := Enter(Flags(true, true, true, false), false, page, even, w);
    LoopStep(d, w);
    var one := Step(d, w);
    LoopStep(one, w);
    var two := Step(one, w);
    LoopStep(two, w);
    if even { LoopStep(Step(two, w), w); }
  }

  /** A DMC request still open when the copy ends costs one more cycle if it was ready or aborted, otherwise
      three; either way the DMA is then over. */
  lemma OpenRequestAfterCopy(d: Dma, w: World)
    requires DmaOk(d) && !d.sprite && d.even && Left(d, w) == 0 && d.f.running
    ensures var log := Loop(d, w).log; var n := |d.log|;
            log == d.log + if CanFetch(d.f) then [Fetch(w.samples(n))]
                           else if d.f.abort then [Quiet] else [Quiet, Quiet, Fetch(w.samples(n + 2))]
  {
    hide Loop;
    LoopStep(d, w);
    var one := Step(d, w);
    LoopStep(one, w);
    if one.f.running {
      LoopStep(Step(one, w), w);
      LoopStep(Step(Step(one, w), w), w);
    }
  }
}
