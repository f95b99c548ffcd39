/** The desktop front end's audio ring (apps/desktop/common/audio_ring_buffer.cpp): when it is full the oldest
    samples make room. Every operation is atomic. */
module AudioRing {
  import opened Arithmetic
  import opened Types

  /** The last n elements, or all of them. */
  function LastN<T>(s: seq<T>, n: nat): (r: seq<T>)
    ensures |r| == if |s| < n then |s| else n
  {
    if |s| <= n then s else s[|s| - n..]
  }

  /** Dropping the oldest early or late makes no difference: a history of pushes holds the last samples of
      everything pushed. */
  lemma LastNOfAll<T>(s: seq<T>, t: seq<T>, n: nat)
    ensures LastN(LastN(s, n) + t, n) == LastN(s + t, n)
  {}

  /** Dropping what does not fit, from the input if it alone is too long and else from the front. */
  lemma LastNCases<T>(s: seq<T>, t: seq<T>, n: nat)
    requires |s| <= n
    ensures LastN(s + t, n)
         == if t == [] then s else if |t| >= n then t[|t| - n..]
             else if |t| > n - |s| then s[|t| - (n - |s|)..] + t else s + t
  {
    if t == [] { assert s + t == s; }
  }

  /** What the ring holds after pushes, from what it held before. */
  function AfterPushes<T>(contents: seq<T>, pushes: seq<seq<T>>, capacity: nat): seq<T>
    decreases |pushes|
  {
    if pushes == [] then contents else AfterPushes(LastN(contents + pushes[0], capacity), pushes[1..], capacity)
  }

  function Concat<T>(pushes: seq<seq<T>>): seq<T>
    decreases |pushes|
  {
    if pushes == [] then [] else pushes[0] + Concat(pushes[1..])
  }

  lemma LastNWhole<T>(s: seq<T>, n: nat)
    requires |s| <= n
    ensures LastN(s + [], n) == s
  {
    assert s + [] == s;
  }

  /** However the samples were split into pushes, the ring holds the last of them that fit. */
  lemma {:induction false} PushesKeepLast<T>(contents: seq<T>, pushes: seq<seq<T>>, capacity: nat)
    requires |contents| <= capacity
    ensures AfterPushes(contents, pushes, capacity) == LastN(contents + Concat(pushes), capacity)
    decreases |pushes|
  {
    hide LastN;
    if pushes == [] {
      LastNWhole(contents, capacity);
    } else {
      var rest := Concat(pushes[1..]);
      PushesKeepLast(LastN(contents + pushes[0], capacity), pushes[1..], capacity);
      LastNOfAll(contents + pushes[0], rest, capacity);
      assert contents + pushes[0] + rest == contents + (pushes[0] + rest);
    }
  }

  // ---- whole histories ----

  datatype RingOp<T> = PushOp(input: seq<T>) | PopOp(count: nat) | ClearOp

  /** What the ring holds after one operation, and what the operation returns. */
  function Operate<T>(contents: seq<T>, op: RingOp<T>, capacity: nat): (seq<T>, seq<T>) {
    match op
    case PushOp(input) => (LastN(contents + input, capacity), [])
    case PopOp(count) => var n := if count <= |contents| then count else |contents|; (contents[n..], contents[..n])
    case ClearOp => ([], [])
  }

  /** What the ring holds after a history, and everything popped in it. */
  function History<T>(contents: seq<T>, ops: seq<RingOp<T>>, capacity: nat): (seq<T>, seq<T>)
    decreases |ops|
  {
    if ops == [] then (contents, [])
    else
      var (held, popped) := History(contents, ops[..|ops| - 1], capacity);
      var (next, returned) := Operate(held, ops[|ops| - 1], capacity);
      (next, popped + returned)
  }

  function GivenNext<T>(given: seq<T>, op: RingOp<T>): seq<T> { if op.PushOp? then given + op.input else given }

  /** Everything the ring held at first and was given since. */
  function Given<T>(contents: seq<T>, ops: seq<RingOp<T>>): seq<T>
    decreases |ops|
  {
    if ops == [] then contents
    else GivenNext(Given(contents, ops[..|ops| - 1]), ops[|ops| - 1])
  }

  /** The push does not fit, or the clear finds something to throw away. */
  predicate Drops<T>(held: seq<T>, op: RingOp<T>, capacity: nat) {
    match op
    case PushOp(input) => |held| + |input| > capacity
    case PopOp(_) => false
    case ClearOp => |held| > 0
  }

  predicate NothingDropped<T>(contents: seq<T>, ops: seq<RingOp<T>>, capacity: nat) {
    forall k :: 0 <= k < |ops| ==> !Drops(History(contents, ops[..k], capacity).0, ops[k], capacity)
  }

  /** What is held is the newest of everything given; `at` says where each popped sample was: in order, and before all
      that is held. */
  predicate InOrder<T(==)>(held: seq<T>, popped: seq<T>, given: seq<T>, at: seq<nat>) {
    && |held| <= |given| && held == given[|given| - |held|..] && |at| == |popped|
    && (forall i, j :: 0 <= i < j < |at| ==> at[i] < at[j])
    && forall i :: 0 <= i < |at| ==> at[i] < |given| - |held| && popped[i] == given[at[i]]
  }

  lemma PushInOrder<T>(held: seq<T>, popped: seq<T>, given: seq<T>, at: seq<nat>, input: seq<T>, capacity: nat)
    requires InOrder(held, popped, given, at)
    ensures InOrder(LastN(held + input, capacity), popped, given + input, at)
  {
    var all := given + input;
    assert held + input == all[|all| - |held + input|..];
  }

  lemma PopInOrder<T>(held: seq<T>, popped: seq<T>, given: seq<T>, at: seq<nat>, n: nat) returns (at': seq<nat>)
    requires InOrder(held, popped, given, at) && n <= |held|
    ensures InOrder(held[n..], popped + held[..n], given, at')
  {
    var first := |given| - |held|;
    at' := at + seq(n, i requires 0 <= i < n => first + i);
  }

  /** In every history the ring holds the newest of everything given, and what was popped came in the order given, all
      of it older than what is held. */
  lemma {:induction false} PoppedInOrder<T>(contents: seq<T>, ops: seq<RingOp<T>>, capacity: nat)
    returns (at: seq<nat>)
    requires |contents| <= capacity
    ensures var (held, popped) := History(contents, ops, capacity);
            |held| <= capacity && InOrder(held, popped, Given(contents, ops), at)
    decreases |ops|
  {
    hide InOrder, LastN;
    if ops == [] {
      at := [];
      AllHeld(contents);
    } else {
      var before, op := ops[..|ops| - 1], ops[|ops| - 1];
      at := PoppedInOrder(contents, before, capacity);
      var (held, popped) := History(contents, before, capacity);
      var given := Given(contents, before);
      match op {
        case PushOp(input) =>
          PushInOrder(held, popped, given, at, input, capacity);
          assert popped + [] == popped;
        case PopOp(count) => at := PopInOrder(held, popped, given, at, if count <= |held| then count else |held|);
        case ClearOp =>
          ClearInOrder(held, popped, given, at);
          assert popped + [] == popped;
      }
    }
  }

  lemma AllHeld<T>(contents: seq<T>)
    ensures InOrder(contents, [], contents, [])
  {}

  lemma ClearInOrder<T>(held: seq<T>, popped: seq<T>, given: seq<T>, at: seq<nat>)
    requires InOrder(held, popped, given, at)
    ensures InOrder([], popped, given, at)
  {}

  /** One operation loses nothing if and only if it drops nothing. */
  lemma OperateLoses<T>(held: seq<T>, popped: seq<T>, given: seq<T>, op: RingOp<T>, capacity: nat)
    requires |popped + held| <= |given|
    ensures var (next, returned) := Operate(held, op, capacity);
            && |popped + returned + next| <= |GivenNext(given, op)|
            && (popped + returned + next == GivenNext(given, op)
                <==> popped + held == given && !Drops(held, op, capacity))
  {
    match op {
      case PushOp(input) =>
        assert popped + [] == popped;
        if |held| + |input| <= capacity {
          assert popped + (held + input) == (popped + held) + input;
          SameSum(popped + held, given, input);
        }
      case PopOp(count) =>
        var n := if count <= |held| then count else |held|;
        assert popped + held[..n] + held[n..] == popped + held;
      case ClearOp => assert popped + [] + [] == popped;
    }
  }

  /** Everything popped, followed by what is held, is everything given if and only if nothing was dropped. */
  lemma {:induction false} NothingLost<T>(contents: seq<T>, ops: seq<RingOp<T>>, capacity: nat)
    ensures var (held, popped) := History(contents, ops, capacity);
            && |popped + held| <= |Given(contents, ops)|
            && (popped + held == Given(contents, ops) <==> NothingDropped(contents, ops, capacity))
    decreases |ops|
  {
    hide NothingDropped, Operate, Drops, GivenNext;
    if ops == [] {
      NothingYet(contents, capacity);
    } else {
      var n := |ops| - 1;
      NothingLost(contents, ops[..n], capacity);
      DroppedBefore(contents, ops, capacity);
      var (held, popped) := History(contents, ops[..n], capacity);
      OperateLoses(held, popped, Given(contents, ops[..n]), ops[n], capacity);
    }
  }

  lemma NothingYet<T>(contents: seq<T>, capacity: nat)
    ensures [] + contents == contents && NothingDropped(contents, [], capacity)
  {}

  lemma SameSum<T>(a: seq<T>, b: seq<T>, tail: seq<T>)
    ensures a + tail == b + tail <==> a == b
  {
    if a + tail == b + tail { assert (a + tail)[..|a|] == a && (b + tail)[..|b|] == b; }
  }

  lemma DroppedBefore<T>(contents: seq<T>, ops: seq<RingOp<T>>, capacity: nat)
    requires ops != []
    ensures var n := |ops| - 1;
            NothingDropped(contents, ops, capacity)
            <==> NothingDropped(contents, ops[..n], capacity)
                 && !Drops(History(contents, ops[..n], capacity).0, ops[n], capacity)
  {
    hide History, Drops;
    var n := |ops| - 1;
    assert forall k :: 0 <= k < n ==> ops[..n][..k] == ops[..k] && ops[..n][k] == ops[k];
  }

  function Wrap(x: nat, n: nat): (r: nat)
    requires x < 2 * n
    ensures r < n
  {
    if x < n then x else x - n
  }

  lemma WrapIsMod(x: nat, n: nat)
    requires x < 2 * n
    ensures x % n == Wrap(x, n)
  {
    DivideUnique(x, n, if x < n then 0 else 1, Wrap(x, n));
  }

  /** The `size` cells from `from` on, wrapping around. */
  function Window(cells: seq<i16>, from: nat, size: nat): (w: seq<i16>)
    requires size <= |cells| && (from < |cells| || size == 0)
    ensures |w| == size && forall i :: 0 <= i < size ==> w[i] == cells[Wrap(from + i, |cells|)]
  {
    seq(size, i requires 0 <= i < size => cells[Wrap(from + i, |cells|)])
  }

  /** How far p lies after `to`. */
  function Ahead(to: nat, p: nat, n: nat): nat
    requires to < n && p < n
  {
    if p >= to then p - to else p + n - to
  }

  /** `input` written over the cells from `to` on, wrapping around. */
  function Overwrite(cells: seq<i16>, to: nat, input: seq<i16>): (w: seq<i16>)
    requires to < |cells| && |input| <= |cells|
    ensures |w| == |cells|
    ensures forall p :: 0 <= p < |cells| ==>
              w[p] == var d := Ahead(to, p, |cells|); if d < |input| then input[d] else cells[p]
  {
    seq(|cells|, p requires 0 <= p < |cells| =>
      var d := Ahead(to, p, |cells|); if d < |input| then input[d] else cells[p])
  }

  class AudioRingBuffer {
    const samples: array<i16>
    var readPosition: nat
    var size: nat

    ghost predicate Valid()
      reads this, samples
    {
      size <= samples.Length && (readPosition < samples.Length || samples.Length == 0)
    }

    ghost function Contents(): (s: seq<i16>)
      requires Valid()
      reads this, samples
      ensures |s| == size
    {
      Window(samples[..], readPosition, size)
    }

    constructor (capacity: nat)
      ensures Valid() && fresh(samples) && samples.Length == capacity && Contents() == []
    {
      samples := new i16[capacity](i => 0);
      readPosition, size := 0, 0;
    }

    method Clear()
      requires Valid()
      modifies this
      ensures Valid() && Contents() == []
    {
      readPosition, size := 0, 0;
    }

    /** std::copy_n */
    method CopyIn(input: seq<i16>, to: nat)
      requires to + |input| <= samples.Length
      modifies samples
      ensures forall p :: 0 <= p < samples.Length ==>
                samples[p] == if to <= p < to + |input| then input[p - to] else old(samples[p])
    {
      var i := 0;
      while i < |input|
        invariant i <= |input|
        invariant forall p :: 0 <= p < samples.Length ==>
                    samples[p] == if to <= p < to + i then input[p - to] else old(samples[p])
      {
        samples[to + i] := input[i];
        i := i + 1;
      }
    }

    /** Both halves of a copy that may wrap around. */
    method CopyAround(input: seq<i16>, to: nat)
      requires to < samples.Length && |input| <= samples.Length
      modifies samples
      ensures samples[..] == Overwrite(old(samples[..]), to, input)
    {
      var first := if |input| < samples.Length - to then |input| else samples.Length - to;
      CopyIn(input[..first], to);
      CopyIn(input[first..], 0);
    }

    /** The oldest n samples go. */
    method Discard(n: nat)
      requires Valid() && n <= size && samples.Length > 0
      modifies this
      ensures Valid() && Contents() == old(Contents())[n..]
    {
      DropFront(samples[..], readPosition, size, n);
      readPosition := (readPosition + n) % samples.Length;
      size := size - n;
    }

    method Push(input: seq<i16>)
      requires Valid()
      modifies this, samples
      ensures Valid() && Contents() == LastN(old(Contents()) + input, samples.Length)
    {
      hide LastN, Window;
      LastNCases(Contents(), input, samples.Length);
      if |input| == 0 || samples.Length == 0 { return; }
      var kept := input;
      if |input| >= samples.Length {
        kept := input[|input| - samples.Length..];
        readPosition := 0;
        size := 0;
      } else if |input| > samples.Length - size {
        var discard := |input| - (samples.Length - size);
        Discard(discard);
      }
      Append(kept);
    }

    /** The second half of push: there is room. */
    method Append(input: seq<i16>)
      requires Valid() && 0 < |input| <= samples.Length - size
      modifies this, samples
      ensures Valid() && Contents() == old(Contents()) + input
    {
      hide Window, Overwrite;
      WrapIsMod(readPosition + size, samples.Length);
      var writePosition := (readPosition + size) % samples.Length;
      CopyAround(input, writePosition);
      ExtendWindow(old(samples[..]), readPosition, size, input);
      size := size + |input|;
    }

    method Pop(count: nat) returns (output: seq<i16>)
      requires Valid()
      modifies this
      ensures Valid()
      ensures var n := if count < old(size) then count else old(size);
              output == old(Contents())[..n] && Contents() == old(Contents())[n..]
    {
      output := [];
      if count == 0 || samples.Length == 0 { return; }
      var n := if count < size then count else size;
      var first := if n < samples.Length - readPosition then n else samples.Length - readPosition;
      output := samples[readPosition..readPosition + first] + samples[..n - first];
      ghost var oldest := Contents()[..n];
      assert forall i :: 0 <= i < n ==> output[i] == oldest[i];
      Discard(n);
    }

    method GetSize() returns (n: nat)
      requires Valid()
      ensures n == |Contents()|
    {
      n := size;
    }
  }

  /** Taking n from the front moves the start of the window on. */
  lemma DropFront(cells: seq<i16>, from: nat, size: nat, n: nat)
    requires n <= size <= |cells| && from < |cells|
    ensures Window(cells, (from + n) % |cells|, size - n) == Window(cells, from, size)[n..]
  {
    WrapIsMod(from + n, |cells|);
    var left, right := Window(cells, Wrap(from + n, |cells|), size - n), Window(cells, from, size)[n..];
    assert forall i :: 0 <= i < |left| ==> left[i] == right[i];
  }

  /** What is written where the window ends becomes its new end. */
  lemma ExtendWindow(cells: seq<i16>, from: nat, size: nat, input: seq<i16>)
    requires from < |cells| && size + |input| <= |cells|
    ensures var to := Wrap(from + size, |cells|);
            Window(Overwrite(cells, to, input), from, size + |input|) == Window(cells, from, size) + input
  {
    var to := Wrap(from + size, |cells|);
    var left, right := Window(Overwrite(cells, to, input), from, size + |input|), Window(cells, from, size) + input;
    assert forall i :: 0 <= i < |left| ==> left[i] == right[i];
  }
}
