/**
 * What a worker's trace promises, proved on `WorkerTrace`: the barrier
 * discipline, what the shared counter is credited with, the data-counter
 * protocol that decides between a head and a payload block, and the content
 * of the heads.
 *
 * Every inductive proof follows `RunLoop` one iteration at a time with an
 * invariant on the events accumulated so far.
 */
module WorkerProperties {
  import opened Connection
  import opened Decimal
  import opened RequestHead
  import opened Worker

  /** True when `e` is a barrier wait or the panic. */
  predicate IsBoundary(e: Event) {
    e.StartBarrier? || e.EndBarrier? || e.Abort?
  }

  /** No barrier wait and no panic among the events. */
  predicate NoBoundary(t: seq<Event>) {
    forall k :: 0 <= k < |t| ==> !IsBoundary(t[k])
  }

  /** The start barrier is waited first, the end barrier last, and neither in between. */
  predicate Bracketed(t: seq<Event>) {
    |t| >= 2 && t[0].StartBarrier? && t[|t| - 1].EndBarrier? && NoBoundary(t[1..|t| - 1])
  }

  lemma NoBoundaryConcat(t: seq<Event>, u: seq<Event>)
    requires NoBoundary(t) && NoBoundary(u)
    ensures NoBoundary(t + u)
  {
  }

  lemma {:induction false} RunLoopBracketed(s: Settings, o: Oracle, heads: seq<string>, i: nat, dataCounter: nat, acc: seq<Event>)
    requires o.Valid() && i < |o.stopFlag| && |heads| >= |o.stopFlag|
    requires |acc| >= 1 && acc[0].StartBarrier? && NoBoundary(acc[1..])
    ensures Bracketed(RunLoop(s, o, heads, i, dataCounter, acc))
    decreases |o.stopFlag| - i
  {
    if o.stopFlag[i] || !o.io[i] {
      RunLoopExit(s, o, heads, i, dataCounter, acc);
      var t := acc + [EndBarrier];
      assert t[1..|t| - 1] == acc[1..];
    } else if dataCounter >= DataSize(s.connectionClose) {
      RunLoopHead(s, o, heads, i, dataCounter, acc);
      var u := HeadEvents(s.direction, heads[i]);
      NoBoundaryConcat(acc[1..], u);
      assert (acc + u)[1..] == acc[1..] + u;
      RunLoopBracketed(s, o, heads, i + 1, 0, acc + u);
    } else {
      RunLoopPayload(s, o, heads, i, dataCounter, acc);
      var u := [Payload(BlockSize), Credit(BlockSize)];
      NoBoundaryConcat(acc[1..], u);
      assert (acc + u)[1..] == acc[1..] + u;
      RunLoopBracketed(s, o, heads, i + 1, dataCounter + BlockSize, acc + u);
    }
  }

  /**
   * Barrier discipline: a worker whose TLS setup panics waits on no barrier;
   * every other worker waits on the start barrier once, first, and on the end
   * barrier once, last; one that cannot connect does nothing in between.
   */
  lemma WorkerBarriers(s: Settings, o: Oracle)
    requires o.Valid()
    ensures Establish(o.connects, s.ssl, o.tlsOk).Panicked? <==> WorkerTrace(s, o) == [Abort]
    ensures !Establish(o.connects, s.ssl, o.tlsOk).Panicked? ==> Bracketed(WorkerTrace(s, o))
    ensures Establish(o.connects, s.ssl, o.tlsOk).Failed? ==> WorkerTrace(s, o) == [StartBarrier, EndBarrier]
  {
    if Establish(o.connects, s.ssl, o.tlsOk).Connected? {
      RunLoopBracketed(s, o, RequestHeads(s, o.clockMs), 0, DataSize(s.connectionClose), [StartBarrier]);
    }
  }

  /** Every credit lies strictly between the two barrier waits; a panicking or unconnected worker credits nothing. */
  lemma CreditsInsideBarriers(s: Settings, o: Oracle)
    requires o.Valid()
    ensures forall k :: 0 <= k < |WorkerTrace(s, o)| && WorkerTrace(s, o)[k].Credit? ==>
              0 < k < |WorkerTrace(s, o)| - 1
    ensures !Establish(o.connects, s.ssl, o.tlsOk).Connected? ==> CreditSum(WorkerTrace(s, o)) == 0
  {
    // The first and last events are a barrier wait or the panic, never a credit.
    var t := WorkerTrace(s, o);
    if !Establish(o.connects, s.ssl, o.tlsOk).Connected? {
      WorkerBarriers(s, o);
      OneEvent(s.direction, t[0]);
      if |t| == 2 {
        OneEvent(s.direction, t[1]);
        CreditSumConcat([t[0]], [t[1]]);
        assert t == [t[0]] + [t[1]];
      }
    }
  }

  /** Counted bytes add up across a concatenation. */
  lemma {:induction false} CountedBytesConcat(d: Direction, t: seq<Event>, u: seq<Event>)
    ensures CountedBytes(d, t + u) == CountedBytes(d, t) + CountedBytes(d, u)
    decreases |u|
  {
    if u != [] {
      var u' := u[..|u| - 1];
      assert (t + u)[..|t + u| - 1] == t + u';
      CountedBytesConcat(d, t, u');
    } else {
      assert t + u == t;
    }
  }

  /** What a single event credits and counts. */
  lemma OneEvent(d: Direction, e: Event)
    ensures CreditSum([e]) == if e.Credit? then e.amount else 0
    ensures CountedBytes(d, [e]) == if e.Payload? then e.bytes else if e.SendHead? && d == Upload then |e.head| else 0
  {
  }

  /** Credit and count agree on the events of one loop iteration. */
  lemma BlockBalanced(d: Direction, head: string, u: seq<Event>)
    requires u == [EndBarrier] || u == HeadEvents(d, head) || u == [Payload(BlockSize), Credit(BlockSize)]
    ensures CreditSum(u) == CountedBytes(d, u)
  {
    OneEvent(d, u[0]);
    if |u| == 2 {
      OneEvent(d, u[1]);
      CreditSumConcat([u[0]], [u[1]]);
      CountedBytesConcat(d, [u[0]], [u[1]]);
      assert u == [u[0]] + [u[1]];
    } else {
      assert u == [u[0]];
    }
  }

  lemma {:induction false} RunLoopCredits(s: Settings, o: Oracle, heads: seq<string>, i: nat, dataCounter: nat, acc: seq<Event>)
    requires o.Valid() && i < |o.stopFlag| && |heads| >= |o.stopFlag|
    requires CreditSum(acc) == CountedBytes(s.direction, acc)
    ensures CreditSum(RunLoop(s, o, heads, i, dataCounter, acc)) == CountedBytes(s.direction, RunLoop(s, o, heads, i, dataCounter, acc))
    decreases |o.stopFlag| - i
  {
    if o.stopFlag[i] || !o.io[i] {
      RunLoopExit(s, o, heads, i, dataCounter, acc);
      CreditSumConcat(acc, [EndBarrier]);
      CountedBytesConcat(s.direction, acc, [EndBarrier]);
      BlockBalanced(s.direction, [], [EndBarrier]);
    } else {
      var u;
      if dataCounter >= DataSize(s.connectionClose) {
        RunLoopHead(s, o, heads, i, dataCounter, acc);
        u := HeadEvents(s.direction, heads[i]);
      } else {
        RunLoopPayload(s, o, heads, i, dataCounter, acc);
        u := [Payload(BlockSize), Credit(BlockSize)];
      }
      CreditSumConcat(acc, u);
      CountedBytesConcat(s.direction, acc, u);
      BlockBalanced(s.direction, heads[i], u);
      var dc := if dataCounter >= DataSize(s.connectionClose) then 0 else dataCounter + BlockSize;
      RunLoopCredits(s, o, heads, i + 1, dc, acc + u);
    }
  }

  /**
   * The shared counter receives exactly the bytes the worker is meant to
   * count: 65536 per payload block, plus, for upload only, the length of each
   * head written.
   */
  lemma WorkerCredits(s: Settings, o: Oracle)
    requires o.Valid()
    ensures CreditSum(WorkerTrace(s, o)) == CountedBytes(s.direction, WorkerTrace(s, o))
  {
    match Establish(o.connects, s.ssl, o.tlsOk)
    case Panicked(_) =>
      OneEvent(s.direction, Abort);
    case Failed(_, _) =>
      OneEvent(s.direction, StartBarrier);
      BlockBalanced(s.direction, [], [EndBarrier]);
      CreditSumConcat([StartBarrier], [EndBarrier]);
      CountedBytesConcat(s.direction, [StartBarrier], [EndBarrier]);
    case Connected(_, _) =>
      OneEvent(s.direction, StartBarrier);
      RunLoopCredits(s, o, RequestHeads(s, o.clockMs), 0, DataSize(s.connectionClose), [StartBarrier]);
  }

  /** `amount` is what the worker credits for the transfer `e`. */
  predicate Covers(d: Direction, e: Event, amount: nat) {
    (e.Payload? && amount == e.bytes) || (d == Upload && e.SendHead? && amount == |e.head|)
  }

  /**
   * Event `k` is accounted for: a credit immediately follows the transfer it
   * counts; a payload block is 65536 bytes and is credited at once; a head is
   * credited at once in an upload and never in a download.
   */
  predicate AccountedAt(d: Direction, t: seq<Event>, k: nat)
    requires k < |t|
  {
    (t[k].Credit? ==> 0 < k && Covers(d, t[k - 1], t[k].amount)) &&
    (t[k].Payload? ==> t[k].bytes == BlockSize && k + 1 < |t| && t[k + 1] == Credit(BlockSize)) &&
    (t[k].SendHead? ==> k + 1 < |t| && (t[k + 1].Credit? <==> d == Upload))
  }

  predicate Accounted(d: Direction, t: seq<Event>) {
    forall k :: 0 <= k < |t| ==> AccountedAt(d, t, k)
  }

  /** Every event is accounted for, except possibly a download head that has just been written. */
  predicate AccountedSoFar(d: Direction, t: seq<Event>) {
    forall k :: 0 <= k < |t| ==> AccountedAt(d, t, k) || (k == |t| - 1 && t[k].SendHead? && d == Download)
  }

  /** The events of one more iteration keep the accounting. */
  lemma ExtendAccounted(d: Direction, acc: seq<Event>, head: string, u: seq<Event>)
    requires AccountedSoFar(d, acc)
    requires u == [EndBarrier] || u == HeadEvents(d, head) || u == [Payload(BlockSize), Credit(BlockSize)]
    ensures AccountedSoFar(d, acc + u)
    ensures u == [EndBarrier] ==> Accounted(d, acc + u)
  {
  }

  lemma {:induction false} RunLoopAccounted(s: Settings, o: Oracle, heads: seq<string>, i: nat, dataCounter: nat, acc: seq<Event>)
    requires o.Valid() && i < |o.stopFlag| && |heads| >= |o.stopFlag|
    requires AccountedSoFar(s.direction, acc)
    ensures Accounted(s.direction, RunLoop(s, o, heads, i, dataCounter, acc))
    decreases |o.stopFlag| - i
  {
    if o.stopFlag[i] || !o.io[i] {
      RunLoopExit(s, o, heads, i, dataCounter, acc);
      ExtendAccounted(s.direction, acc, [], [EndBarrier]);
    } else if dataCounter >= DataSize(s.connectionClose) {
      RunLoopHead(s, o, heads, i, dataCounter, acc);
      ExtendAccounted(s.direction, acc, heads[i], HeadEvents(s.direction, heads[i]));
      RunLoopAccounted(s, o, heads, i + 1, 0, acc + HeadEvents(s.direction, heads[i]));
    } else {
      RunLoopPayload(s, o, heads, i, dataCounter, acc);
      ExtendAccounted(s.direction, acc, [], [Payload(BlockSize), Credit(BlockSize)]);
      RunLoopAccounted(s, o, heads, i + 1, dataCounter + BlockSize, acc + [Payload(BlockSize), Credit(BlockSize)]);
    }
  }

  /**
   * Per-event accounting: a download credits 65536 after each block it reads
   * and nothing for its heads; an upload credits 65536 after each chunk it
   * writes and the head's length after each head; no credit stands alone.
   */
  lemma WorkerAccounting(s: Settings, o: Oracle)
    requires o.Valid()
    ensures Accounted(s.direction, WorkerTrace(s, o))
  {
    if Establish(o.connects, s.ssl, o.tlsOk).Connected? {
      RunLoopAccounted(s, o, RequestHeads(s, o.clockMs), 0, DataSize(s.connectionClose), [StartBarrier]);
    }
  }

  /** The transfers of a trace in order: `true` for a head, `false` for a payload block. */
  function Transfers(t: seq<Event>): seq<bool> {
    if t == [] then []
    else
      var e := t[|t| - 1];
      Transfers(t[..|t| - 1]) + (if e.SendHead? then [true] else if e.Payload? then [false] else [])
  }

  lemma {:induction false} TransfersConcat(t: seq<Event>, u: seq<Event>)
    ensures Transfers(t + u) == Transfers(t) + Transfers(u)
    decreases |u|
  {
    if u != [] {
      var u' := u[..|u| - 1];
      assert (t + u)[..|t + u| - 1] == t + u';
      TransfersConcat(t, u');
    } else {
      assert t + u == t;
    }
  }

  /**
   * The worker's local data counter after the transfers `ts`, from `start`:
   * a head resets it to zero and a payload block adds 65536.
   */
  function DataCounter(ts: seq<bool>, start: nat): nat {
    if ts == [] then start
    else if ts[|ts| - 1] then 0
    else DataCounter(ts[..|ts| - 1], start) + BlockSize
  }

  /** Each transfer is a head exactly when the data counter before it has reached `size`. */
  predicate FollowsCounter(ts: seq<bool>, size: nat) {
    forall k :: 0 <= k < |ts| ==> (ts[k] <==> DataCounter(ts[..k], size) >= size)
  }

  lemma ExtendFollows(ts: seq<bool>, size: nat, b: bool)
    requires FollowsCounter(ts, size)
    requires b <==> DataCounter(ts, size) >= size
    ensures FollowsCounter(ts + [b], size)
    ensures DataCounter(ts + [b], size) == if b then 0 else DataCounter(ts, size) + BlockSize
  {
    var t := ts + [b];
    assert t[..|ts|] == ts;
    forall k | 0 <= k < |ts|
      ensures t[..k] == ts[..k]
    {
    }
  }

  /** The transfers recorded by the events of one iteration. */
  lemma BlockTransfers(d: Direction, head: string)
    ensures Transfers(HeadEvents(d, head)) == [true]
    ensures Transfers([Payload(BlockSize), Credit(BlockSize)]) == [false]
    ensures Transfers([EndBarrier]) == []
  {
    var p := [Payload(BlockSize), Credit(BlockSize)];
    assert p[..1] == [Payload(BlockSize)] && p[..1][..0] == [];
    assert [EndBarrier][..0] == [] && [SendHead(head)][..0] == [];
    assert Transfers([SendHead(head)]) == [true];
    if d == Upload {
      var h := HeadEvents(d, head);
      assert h[..1] == [SendHead(head)];
    }
  }

  /** Appending the events of one transfer keeps the protocol and updates the counter. */
  lemma FollowsStep(acc: seq<Event>, u: seq<Event>, b: bool, size: nat)
    requires Transfers(u) == [b] && FollowsCounter(Transfers(acc), size)
    requires b <==> DataCounter(Transfers(acc), size) >= size
    ensures FollowsCounter(Transfers(acc + u), size)
    ensures DataCounter(Transfers(acc + u), size) == if b then 0 else DataCounter(Transfers(acc), size) + BlockSize
  {
    TransfersConcat(acc, u);
    ExtendFollows(Transfers(acc), size, b);
  }

  lemma {:induction false} RunLoopFollows(s: Settings, o: Oracle, heads: seq<string>, i: nat, dataCounter: nat, acc: seq<Event>)
    requires o.Valid() && i < |o.stopFlag| && |heads| >= |o.stopFlag|
    requires FollowsCounter(Transfers(acc), DataSize(s.connectionClose))
    requires DataCounter(Transfers(acc), DataSize(s.connectionClose)) == dataCounter
    ensures FollowsCounter(Transfers(RunLoop(s, o, heads, i, dataCounter, acc)), DataSize(s.connectionClose))
    decreases |o.stopFlag| - i
  {
    var size := DataSize(s.connectionClose);
    BlockTransfers(s.direction, heads[i]);
    if o.stopFlag[i] || !o.io[i] {
      RunLoopExit(s, o, heads, i, dataCounter, acc);
      TransfersConcat(acc, [EndBarrier]);
      assert Transfers(acc) + [] == Transfers(acc);
    } else if dataCounter >= size {
      RunLoopHead(s, o, heads, i, dataCounter, acc);
      FollowsStep(acc, HeadEvents(s.direction, heads[i]), true, size);
      RunLoopFollows(s, o, heads, i + 1, 0, acc + HeadEvents(s.direction, heads[i]));
    } else {
      RunLoopPayload(s, o, heads, i, dataCounter, acc);
      FollowsStep(acc, [Payload(BlockSize), Credit(BlockSize)], false, size);
      RunLoopFollows(s, o, heads, i + 1, dataCounter + BlockSize, acc + [Payload(BlockSize), Credit(BlockSize)]);
    }
  }

  /** Under the protocol the data counter stays a whole number of blocks within [0, size]. */
  lemma {:induction false} CounterAligned(ts: seq<bool>, size: nat, k: nat)
    requires FollowsCounter(ts, size) && size % BlockSize == 0 && k <= |ts|
    ensures DataCounter(ts[..k], size) <= size && DataCounter(ts[..k], size) % BlockSize == 0
  {
    if k > 0 {
      CounterAligned(ts, size, k - 1);
      assert ts[..k][..k - 1] == ts[..k - 1];
      if !ts[k - 1] {
        NextBlockFits(DataCounter(ts[..k - 1], size), size);
      }
    }
  }

  /** After a head at `j` and only blocks up to `m`, the counter holds one block per transfer since. */
  lemma {:induction false} CounterAfterHead(ts: seq<bool>, size: nat, j: nat, m: nat)
    requires j < m <= |ts| && ts[j]
    requires forall q :: j < q < m ==> !ts[q]
    ensures DataCounter(ts[..m], size) == (m - j - 1) * BlockSize
  {
    assert ts[..m][..m - 1] == ts[..m - 1];
    if m > j + 1 {
      CounterAfterHead(ts, size, j, m - 1);
    }
  }

  /** Any two consecutive heads among the transfers are `n` payload blocks apart. */
  predicate HeadsEvery(ts: seq<bool>, n: nat) {
    forall j, j' ::
      0 <= j < j' < |ts| && ts[j] && ts[j'] && (forall q :: j < q < j' ==> !ts[q]) ==> j' - j - 1 == n
  }

  /** No run of payload blocks after a head is longer than `n`. */
  predicate RunsAtMost(ts: seq<bool>, n: nat) {
    forall j, m :: 0 <= j < m < |ts| && ts[j] && !ts[m] && (forall q :: j < q < m ==> !ts[q]) ==> m - j <= n
  }

  /** Between two consecutive heads lie exactly `size / 65536` payload blocks. */
  lemma ChunksBetweenHeads(ts: seq<bool>, size: nat, j: nat, j': nat)
    requires FollowsCounter(ts, size) && size > 0 && size % BlockSize == 0
    requires j < j' < |ts| && ts[j] && ts[j']
    requires forall q :: j < q < j' ==> !ts[q]
    ensures j' - j - 1 == size / BlockSize
  {
    var n := size / BlockSize;
    CounterAfterHead(ts, size, j, j');
    assert (j' - j - 1) * BlockSize >= n * BlockSize;
    if j' > j + 1 {
      CounterAfterHead(ts, size, j, j' - 1);
      assert (j' - j - 2) * BlockSize < n * BlockSize;
    }
  }

  /** A run of payload blocks after a head is at most `size / 65536` long. */
  lemma ChunksAfterHead(ts: seq<bool>, size: nat, j: nat, m: nat)
    requires FollowsCounter(ts, size) && size % BlockSize == 0
    requires j < m < |ts| && ts[j]
    requires forall q :: j < q <= m ==> !ts[q]
    ensures m - j <= size / BlockSize
  {
    var n := size / BlockSize;
    CounterAfterHead(ts, size, j, m);
    assert (m - j - 1) * BlockSize < n * BlockSize;
  }

  /** The counter stays a whole number of blocks within [0, size] after every prefix. */
  lemma CounterInRange(ts: seq<bool>, size: nat)
    requires FollowsCounter(ts, size) && size % BlockSize == 0
    ensures forall k :: 0 <= k <= |ts| ==> DataCounter(ts[..k], size) <= size && DataCounter(ts[..k], size) % BlockSize == 0
  {
    forall k | 0 <= k <= |ts|
      ensures DataCounter(ts[..k], size) <= size && DataCounter(ts[..k], size) % BlockSize == 0
    {
      CounterAligned(ts, size, k);
    }
  }

  /** Consecutive heads are `size / 65536` blocks apart. */
  lemma HeadsEveryCycle(ts: seq<bool>, size: nat)
    requires FollowsCounter(ts, size) && size > 0 && size % BlockSize == 0
    ensures HeadsEvery(ts, size / BlockSize)
  {
    forall j, j' | 0 <= j < j' < |ts| && ts[j] && ts[j'] && (forall q :: j < q < j' ==> !ts[q])
      ensures j' - j - 1 == size / BlockSize
    {
      ChunksBetweenHeads(ts, size, j, j');
    }
  }

  /** No run of blocks after a head is longer than `size / 65536`. */
  lemma RunsWithinCycle(ts: seq<bool>, size: nat)
    requires FollowsCounter(ts, size) && size % BlockSize == 0
    ensures RunsAtMost(ts, size / BlockSize)
  {
    forall j, m | 0 <= j < m < |ts| && ts[j] && !ts[m] && (forall q :: j < q < m ==> !ts[q])
      ensures m - j <= size / BlockSize
    {
      ChunksAfterHead(ts, size, j, m);
    }
  }

  /** The transfers of every worker run follow the data-counter protocol. */
  lemma WorkerFollowsCounter(s: Settings, o: Oracle)
    requires o.Valid()
    ensures FollowsCounter(Transfers(WorkerTrace(s, o)), DataSize(s.connectionClose))
  {
    NoTransfers();
    if Establish(o.connects, s.ssl, o.tlsOk).Connected? {
      RunLoopFollows(s, o, RequestHeads(s, o.clockMs), 0, DataSize(s.connectionClose), [StartBarrier]);
    }
  }

  /** The traces that do not reach the loop record no transfer. */
  lemma NoTransfers()
    ensures Transfers([StartBarrier]) == [] && Transfers([Abort]) == []
    ensures Transfers([StartBarrier, EndBarrier]) == []
  {
  }

  /**
   * The data-counter protocol of a worker: the first transfer is a head, a
   * head is written exactly when the counter has reached the cycle size, the
   * counter stays a multiple of 65536 within [0, size], and consecutive heads
   * are separated by exactly 800 blocks (240000 in connection-close mode).
   */
  lemma WorkerCycles(s: Settings, o: Oracle)
    requires o.Valid()
    ensures FollowsCounter(Transfers(WorkerTrace(s, o)), DataSize(s.connectionClose))
    ensures |Transfers(WorkerTrace(s, o))| > 0 ==> Transfers(WorkerTrace(s, o))[0]
    ensures forall k :: 0 <= k <= |Transfers(WorkerTrace(s, o))| ==>
              DataCounter(Transfers(WorkerTrace(s, o))[..k], DataSize(s.connectionClose)) <= DataSize(s.connectionClose) &&
              DataCounter(Transfers(WorkerTrace(s, o))[..k], DataSize(s.connectionClose)) % BlockSize == 0
    ensures HeadsEvery(Transfers(WorkerTrace(s, o)), if s.connectionClose then 240_000 else 800)
    ensures RunsAtMost(Transfers(WorkerTrace(s, o)), if s.connectionClose then 240_000 else 800)
  {
    var ts := Transfers(WorkerTrace(s, o));
    var size := DataSize(s.connectionClose);
    WorkerFollowsCounter(s, o);
    if |ts| > 0 {
      assert ts[..0] == [];
    }
    CounterInRange(ts, size);
    HeadsEveryCycle(ts, size);
    RunsWithinCycle(ts, size);
  }

  /** Every head written is one of `heads`. */
  predicate HeadsFrom(t: seq<Event>, heads: seq<string>) {
    forall k :: 0 <= k < |t| && t[k].SendHead? ==> t[k].head in heads
  }

  lemma HeadsFromConcat(t: seq<Event>, u: seq<Event>, heads: seq<string>)
    requires HeadsFrom(t, heads) && HeadsFrom(u, heads)
    ensures HeadsFrom(t + u, heads)
  {
  }

  lemma {:induction false} RunLoopHeads(s: Settings, o: Oracle, heads: seq<string>, i: nat, dataCounter: nat, acc: seq<Event>)
    requires o.Valid() && i < |o.stopFlag| && |heads| >= |o.stopFlag|
    requires HeadsFrom(acc, heads)
    ensures HeadsFrom(RunLoop(s, o, heads, i, dataCounter, acc), heads)
    decreases |o.stopFlag| - i
  {
    if o.stopFlag[i] || !o.io[i] {
      RunLoopExit(s, o, heads, i, dataCounter, acc);
      HeadsFromConcat(acc, [EndBarrier], heads);
    } else if dataCounter >= DataSize(s.connectionClose) {
      RunLoopHead(s, o, heads, i, dataCounter, acc);
      HeadsFromConcat(acc, HeadEvents(s.direction, heads[i]), heads);
      RunLoopHeads(s, o, heads, i + 1, 0, acc + HeadEvents(s.direction, heads[i]));
    } else {
      RunLoopPayload(s, o, heads, i, dataCounter, acc);
      HeadsFromConcat(acc, [Payload(BlockSize), Credit(BlockSize)], heads);
      RunLoopHeads(s, o, heads, i + 1, dataCounter + BlockSize, acc + [Payload(BlockSize), Credit(BlockSize)]);
    }
  }

  /** Every head a worker writes is its request head for one of the clock readings. */
  lemma WorkerHeads(s: Settings, o: Oracle)
    requires o.Valid()
    ensures forall k :: 0 <= k < |WorkerTrace(s, o)| && WorkerTrace(s, o)[k].SendHead? ==>
              exists ms :: ms in o.clockMs && WorkerTrace(s, o)[k].head == RequestHeadFor(s, ms)
  {
    var t := WorkerTrace(s, o);
    var heads := RequestHeads(s, o.clockMs);
    if Establish(o.connects, s.ssl, o.tlsOk).Connected? {
      RunLoopHeads(s, o, heads, 0, DataSize(s.connectionClose), [StartBarrier]);
    }
    forall k | 0 <= k < |t| && t[k].SendHead?
      ensures exists ms :: ms in o.clockMs && t[k].head == RequestHeadFor(s, ms)
    {
      var i :| 0 <= i < |heads| && heads[i] == t[k].head;
      RequestHeadsAt(s, o.clockMs, i);
    }
  }

  /**
   * `h` is a head for the target path declaring the cycle size and no other:
   * a POST whose `Content-Length` is `data_size`, or a GET whose query asks
   * for `chunk_count` chunks and `data_size` bytes.
   */
  ghost predicate DeclaresCycle(s: Settings, h: string) {
    match s.direction
    case Upload =>
      StartsWith(h, "POST " + s.target.path + "?r=") &&
      forall n :: DeclaresContentLength(h, n) <==> n == DataSize(s.connectionClose)
    case Download =>
      StartsWith(h, "GET " + s.target.path + "?cors=true&r=") &&
      var hostPort := HostPort(s.target.host, s.target.port);
      forall n :: DeclaresDownloadSize(h, hostPort, ChunkCount(s.connectionClose), n) <==> n == DataSize(s.connectionClose)
  }

  /** The request head for any clock reading declares the cycle size. */
  lemma HeadForDeclaresCycle(s: Settings, ms: nat)
    ensures DeclaresCycle(s, RequestHeadFor(s, ms))
  {
    var hostPort := HostPort(s.target.host, s.target.port);
    var size := DataSize(s.connectionClose);
    match s.direction
    case Upload =>
      UploadHeadRequestLine(s.target.path, ms, hostPort, size);
      forall n ensures DeclaresContentLength(UploadHead(s.target.path, ms, hostPort, size), n) <==> n == size {
        UploadHeadDeclaresLength(s.target.path, ms, hostPort, size, n);
      }
    case Download =>
      var cc := ChunkCount(s.connectionClose);
      DownloadHeadRequestLine(s.target.path, ms, hostPort, cc, size);
      forall n ensures DeclaresDownloadSize(DownloadHead(s.target.path, ms, hostPort, cc, size), hostPort, cc, n) <==> n == size {
        DownloadHeadDeclaresSize(s.target.path, ms, hostPort, cc, size, n);
      }
  }

  /**
   * The head carries its clock reading: two heads of one worker are equal
   * only when built at the same millisecond, so each request is a fresh URL.
   */
  lemma HeadForInjective(s: Settings, a: nat, b: nat)
    ensures RequestHeadFor(s, a) == RequestHeadFor(s, b) <==> a == b
  {
    if RequestHeadFor(s, a) == RequestHeadFor(s, b) {
      var h := RequestHeadFor(s, a);
      var hostPort := HostPort(s.target.host, s.target.port);
      var size := DataSize(s.connectionClose);
      match s.direction
      case Upload =>
        UploadHeadShape(s.target.path, a, hostPort, size);
        UploadHeadShape(s.target.path, b, hostPort, size);
        var pre := "POST " + s.target.path + "?r=";
        var post := " HTTP/1.1\r\nHost: ";
        assert StartsWith(h, pre + Show(a) + post);
        assert StartsWith(h, pre + Show(b) + post);
        LeadingFieldUnique(h, pre, post, a, b);
      case Download =>
        var cc := ChunkCount(s.connectionClose);
        DownloadHeadShape(s.target.path, a, hostPort, cc, size);
        DownloadHeadShape(s.target.path, b, hostPort, cc, size);
        LeadingFieldUnique(h, "GET " + s.target.path + "?cors=true&r=", "&ckSize=", a, b);
    }
  }

  /**
   * Every upload head a worker writes is a POST for the target path
   * declaring exactly the cycle size as its `Content-Length`; every download
   * head is a GET for the target path asking for exactly the cycle size.
   */
  lemma WorkerHeadsDeclareSize(s: Settings, o: Oracle)
    requires o.Valid()
    ensures forall k :: 0 <= k < |WorkerTrace(s, o)| && WorkerTrace(s, o)[k].SendHead? ==>
              DeclaresCycle(s, WorkerTrace(s, o)[k].head)
  {
    WorkerHeads(s, o);
    var t := WorkerTrace(s, o);
    forall k | 0 <= k < |t| && t[k].SendHead?
      ensures DeclaresCycle(s, t[k].head)
    {
      var ms :| ms in o.clockMs && t[k].head == RequestHeadFor(s, ms);
      HeadForDeclaresCycle(s, ms);
    }
  }

  /**
   * An upload sends, between two consecutive POST heads, a body of exactly
   * the length those heads declare: `size / 65536` chunks of 65536 bytes.
   */
  lemma UploadBodiesMatchLength(s: Settings, o: Oracle, j: nat, j': nat)
    requires o.Valid() && s.direction == Upload
    requires j < j' < |Transfers(WorkerTrace(s, o))|
    requires Transfers(WorkerTrace(s, o))[j] && Transfers(WorkerTrace(s, o))[j']
    requires forall q :: j < q < j' ==> !Transfers(WorkerTrace(s, o))[q]
    ensures (j' - j - 1) * BlockSize == DataSize(s.connectionClose)
  {
    WorkerCycles(s, o);
  }
}
