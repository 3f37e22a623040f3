/** The simple meaning of the broker queue: one state per message, plus the order in which the
    two block lists will serve retried messages. */
module QueueSpec {
  import opened IntrusiveList
  import opened Kernels
  import opened Words

  const MSGS_PER_BLOCK: nat := 256

  datatype MsgState = Ready | Inflight | Acked | Retry | SparseReady

  datatype QueueCounts = QueueCounts(published: int, ready: int, inflight: int, acked: int, retry: int)

  /** `states[i]` is the state of message `i`; `head` is the first message never delivered;
      `redelivered` holds the messages that have been put back for another delivery. */
  datatype Queue = Queue(states: seq<MsgState>, head: nat, redelivered: set<nat>,
                         retryBlocks: seq<nat>, sparseBlocks: seq<nat>)

  const EMPTY_QUEUE: Queue := Queue([], 0, {}, [], [])

  // ---- Counting and bulk update

  function Count(states: seq<MsgState>, st: MsgState): (n: nat)
    ensures n <= |states|
  {
    if states == [] then 0 else
      Count(states[..|states| - 1], st) + if states[|states| - 1] == st then 1 else 0
  }

  function SetAll(states: seq<MsgState>, seqs: seq<nat>, st: MsgState): (r: seq<MsgState>)
    ensures |r| == |states|
    ensures forall i :: 0 <= i < |r| ==> r[i] == if i in seqs then st else states[i]
  {
    seq(|states|, i requires 0 <= i < |states| => if i in seqs then st else states[i])
  }

  lemma {:induction false} CountUpdate(states: seq<MsgState>, i: nat, v: MsgState, st: MsgState)
    requires i < |states|
    ensures Count(states[i := v], st) ==
      Count(states, st) - (if states[i] == st then 1 else 0) + (if v == st then 1 else 0)
  {
    var n := |states| - 1;
    if i == n {
      assert states[i := v][..n] == states[..n];
    } else {
      assert states[i := v][..n] == states[..n][i := v];
      CountUpdate(states[..n], i, v, st);
    }
  }

  lemma {:induction false} CountAppend(a: seq<MsgState>, b: seq<MsgState>, st: MsgState)
    ensures Count(a + b, st) == Count(a, st) + Count(b, st)
  {
    if b == [] {
      assert a + b == a;
    } else {
      assert (a + b)[..|a + b| - 1] == a + b[..|b| - 1];
      CountAppend(a, b[..|b| - 1], st);
    }
  }

  /** The change in the count of `st` when `n` messages move from one state to another. */
  function Shift(st: MsgState, from: MsgState, to: MsgState, n: nat): (d: int)
    ensures from != to ==> d == if st == to then n as int else if st == from then -(n as int) else 0
  {
    (if st == to then n else 0) - (if st == from then n else 0)
  }

  /** Moving a duplicate-free list of messages from one state to another moves exactly that many. */
  lemma {:induction false} CountSetAll(states: seq<MsgState>, seqs: seq<nat>, from: MsgState, to: MsgState)
    requires Distinct(seqs) && from != to
    requires forall i :: i in seqs ==> i < |states| && states[i] == from
    ensures forall st :: Count(SetAll(states, seqs, to), st) == Count(states, st) + Shift(st, from, to, |seqs|)
  {
    if seqs == [] {
      assert SetAll(states, seqs, to) == states;
    } else {
      var n := |seqs| - 1;
      var last, rest := seqs[n], seqs[..n];
      var mid := SetAll(states, rest, to);
      assert seqs == rest + [last];
      assert last in seqs && forall i :: i in rest ==> i in seqs;
      assert SetAll(states, seqs, to) == mid[last := to];
      CountSetAll(states, rest, from, to);
      forall st ensures Count(SetAll(states, seqs, to), st) == Count(states, st) + Shift(st, from, to, |seqs|) {
        CountUpdate(mid, last, to, st);
      }
    }
  }

  lemma SetAllTwice(states: seq<MsgState>, a: seq<nat>, b: seq<nat>, st: MsgState)
    ensures SetAll(SetAll(states, a, st), b, st) == SetAll(states, a + b, st)
  {
  }

  /** Every message is in exactly one state, so the five counts cover the queue. */
  lemma {:induction false} CountsCover(states: seq<MsgState>)
    ensures Count(states, Ready) + Count(states, SparseReady) + Count(states, Inflight) + Count(states, Acked)
         + Count(states, Retry) == |states|
  {
    if states == [] {
    } else {
      CountsCover(states[..|states| - 1]);
    }
  }

  function Counts(states: seq<MsgState>): (c: QueueCounts)
    ensures c.ready + c.inflight + c.acked + c.retry == c.published
  {
    CountsCover(states);
    QueueCounts(|states|, Count(states, Ready) + Count(states, SparseReady), Count(states, Inflight),
                Count(states, Acked), Count(states, Retry))
  }

  // ---- Service order

  /** Messages `lo..hi` in state `st`, ascending. */
  function Select(states: seq<MsgState>, st: MsgState, lo: nat, hi: nat): (r: seq<nat>)
    requires lo <= hi
    ensures forall i :: i in r <==> lo <= i < hi && i < |states| && states[i] == st
    ensures Ascending(r)
    decreases hi
  {
    if lo == hi then [] else
      var rest := Select(states, st, lo, hi - 1);
      assert forall k :: 0 <= k < |rest| ==> rest[k] in rest;
      rest + if hi - 1 < |states| && states[hi - 1] == st then [hi - 1] else []
  }

  lemma AscendingDistinct(s: seq<nat>)
    requires Ascending(s)
    ensures Distinct(s)
  {
  }

  function InBlock(states: seq<MsgState>, st: MsgState, block: nat): (r: seq<nat>)
    ensures forall i :: i in r <==> i < |states| && i / MSGS_PER_BLOCK == block && states[i] == st
    ensures Ascending(r)
  {
    Select(states, st, block * MSGS_PER_BLOCK, (block + 1) * MSGS_PER_BLOCK)
  }

  /** The order in which the listed blocks serve their messages of state `st`. */
  function Order(states: seq<MsgState>, st: MsgState, blocks: seq<nat>): (r: seq<nat>)
    ensures forall i :: i in r <==> i < |states| && i / MSGS_PER_BLOCK in blocks && states[i] == st
  {
    if blocks == [] then [] else InBlock(states, st, blocks[0]) + Order(states, st, blocks[1..])
  }

  lemma HeadNotInTail<T>(s: seq<T>)
    requires Distinct(s) && s != []
    ensures s[0] !in s[1..]
  {
  }

  lemma {:induction false} OrderDistinct(states: seq<MsgState>, st: MsgState, blocks: seq<nat>)
    requires Distinct(blocks)
    ensures Distinct(Order(states, st, blocks))
  {
    if blocks == [] {
    } else {
      OrderDistinct(states, st, blocks[1..]);
      HeadNotInTail(blocks);
      AscendingDistinct(InBlock(states, st, blocks[0]));
      DistinctConcat(InBlock(states, st, blocks[0]), Order(states, st, blocks[1..]));
    }
  }

  predicate HasState(states: seq<MsgState>, st: MsgState, block: nat) {
    exists i :: 0 <= i < |states| && i / MSGS_PER_BLOCK == block && states[i] == st
  }

  /** A list lists exactly the blocks that hold a message of the given state. */
  ghost predicate Indexes(blocks: seq<nat>, states: seq<MsgState>, st: MsgState) {
    && Distinct(blocks)
    && (forall i :: 0 <= i < |states| && states[i] == st ==> i / MSGS_PER_BLOCK in blocks)
    && (forall b :: b in blocks ==> HasState(states, st, b))
  }

  /** A duplicate-free list of all messages in a state is as long as the count. */
  lemma {:induction false} CountIsLength(states: seq<MsgState>, st: MsgState, list: seq<nat>)
    requires Distinct(list)
    requires forall i :: i in list <==> 0 <= i < |states| && states[i] == st
    ensures |list| == Count(states, st)
    decreases |states|
  {
    if states == [] {
      FirstIsMember(list);
    } else {
      var n := |states| - 1;
      if states[n] == st {
        var k :| 0 <= k < |list| && list[k] == n;
        RemovedIsGone(list, k);
        CountIsLength(states[..n], st, RemoveAt(list, k));
      } else {
        CountIsLength(states[..n], st, list);
      }
    }
  }

  /** The block list serves every message of its state, once each. */
  lemma OrderIsComplete(q: seq<MsgState>, st: MsgState, blocks: seq<nat>)
    requires Indexes(blocks, q, st)
    ensures Distinct(Order(q, st, blocks)) && |Order(q, st, blocks)| == Count(q, st)
    ensures forall i :: i in Order(q, st, blocks) <==> 0 <= i < |q| && q[i] == st
  {
    OrderDistinct(q, st, blocks);
    CountIsLength(q, st, Order(q, st, blocks));
  }

  // ---- Serving part of the order

  lemma JoinAscending(a: seq<nat>, b: seq<nat>)
    requires Ascending(a) && Ascending(b) && forall x, y :: x in a && y in b ==> x < y
    ensures Ascending(a + b)
  {
    var s := a + b;
    forall j, k | 0 <= j < k < |s| ensures s[j] < s[k] {
      if j < |a| <= k { assert s[j] in a && s[k] in b; }
    }
  }

  /** An ascending list falls apart into its low and its high members. */
  lemma AscendingJoin(a: seq<nat>, b: seq<nat>, c: seq<nat>)
    requires Ascending(a) && Ascending(b) && Ascending(c)
    requires forall x, y :: x in a && y in b ==> x < y
    requires forall x :: x in c <==> x in a || x in b
    ensures c == a + b
  {
    JoinAscending(a, b);
    AscendingUnique(c, a + b);
  }

  /** Serving messages of one block leaves the order of the other blocks alone. */
  lemma {:induction false} OrderElsewhere(states: seq<MsgState>, states': seq<MsgState>, st: MsgState, k: nat,
      blocks: seq<nat>)
    requires |states| == |states'| && k !in blocks
    requires forall i :: 0 <= i < |states| && i / MSGS_PER_BLOCK != k ==> states[i] == states'[i]
    ensures Order(states', st, blocks) == Order(states, st, blocks)
  {
    if blocks == [] {
    } else {
      AscendingUnique(InBlock(states', st, blocks[0]), InBlock(states, st, blocks[0]));
      OrderElsewhere(states, states', st, k, blocks[1..]);
    }
  }

  /** The order depends only on which messages are in the state. */
  lemma {:induction false} OrderSame(states: seq<MsgState>, states': seq<MsgState>, st: MsgState, blocks: seq<nat>)
    requires |states| == |states'| && forall i :: 0 <= i < |states| ==> (states[i] == st <==> states'[i] == st)
    ensures Order(states', st, blocks) == Order(states, st, blocks)
  {
    if blocks == [] {
    } else {
      AscendingUnique(InBlock(states', st, blocks[0]), InBlock(states, st, blocks[0]));
      OrderSame(states, states', st, blocks[1..]);
    }
  }

  lemma {:induction false} OrderConcat(states: seq<MsgState>, st: MsgState, a: seq<nat>, b: seq<nat>)
    ensures Order(states, st, a + b) == Order(states, st, a) + Order(states, st, b)
  {
    if a == [] {
      assert a + b == b;
    } else {
      assert (a + b)[1..] == a[1..] + b;
      OrderConcat(states, st, a[1..], b);
    }
  }

  lemma {:induction false} StillHoldingAll(kept: seq<nat>, states: seq<MsgState>, st: MsgState)
    requires forall b :: b in kept ==> HasState(states, st, b)
    ensures StillHolding(kept, states, st) == kept
  {
    hide HasState;
    if kept == [] {
    } else {
      assert kept[0] in kept;
      StillHoldingAll(kept[1..], states, st);
    }
  }

  lemma {:induction false} StillHoldingSuffix(dropped: seq<nat>, kept: seq<nat>, states: seq<MsgState>, st: MsgState)
    requires forall b :: b in dropped ==> !HasState(states, st, b)
    requires forall b :: b in kept ==> HasState(states, st, b)
    ensures StillHolding(dropped + kept, states, st) == kept
  {
    hide HasState;
    if dropped == [] {
      assert dropped + kept == kept;
      StillHoldingAll(kept, states, st);
    } else {
      var all := dropped + kept;
      assert all[0] == dropped[0] && dropped[0] in dropped && all[1..] == dropped[1..] + kept;
      StillHoldingSuffix(dropped[1..], kept, states, st);
    }
  }

  lemma EmptyBlock(states: seq<MsgState>, st: MsgState, b: nat)
    ensures InBlock(states, st, b) == [] <==> !HasState(states, st, b)
  {
    var r := InBlock(states, st, b);
    if r != [] { assert r[0] in r; }
    if HasState(states, st, b) {
      var i :| 0 <= i < |states| && i / MSGS_PER_BLOCK == b && states[i] == st;
      assert i in r;
    }
  }

  // ---- Block lists

  /** Append the blocks not yet listed, in the order given. */
  function MergeBlocks(blocks: seq<nat>, more: seq<nat>): (r: seq<nat>)
    ensures forall b :: b in r <==> b in blocks || b in more
    ensures Distinct(blocks) ==> Distinct(r)
    ensures blocks <= r
    decreases |more|
  {
    if more == [] then blocks
    else MergeBlocks(if more[0] in blocks then blocks else blocks + [more[0]], more[1..])
  }

  lemma {:induction false} MergeTwice(blocks: seq<nat>, a: seq<nat>, b: seq<nat>)
    ensures MergeBlocks(MergeBlocks(blocks, a), b) == MergeBlocks(blocks, a + b)
    decreases |a|
  {
    if a == [] {
      assert a + b == b;
    } else {
      assert (a + b)[0] == a[0] && (a + b)[1..] == a[1..] + b;
      MergeTwice(if a[0] in blocks then blocks else blocks + [a[0]], a[1..], b);
    }
  }

  lemma {:induction false} MergeListed(blocks: seq<nat>, more: seq<nat>)
    requires forall b :: b in more ==> b in blocks
    ensures MergeBlocks(blocks, more) == blocks
    decreases |more|
  {
    if more == [] {
    } else {
      assert more[0] in more && forall b :: b in more[1..] ==> b in more;
      MergeListed(blocks, more[1..]);
    }
  }

  /** Messages of one block list that block once. */
  lemma MergeOneBlock(blocks: seq<nat>, seqs: seq<nat>, k: nat)
    requires seqs != [] && forall i :: i in seqs ==> i / MSGS_PER_BLOCK == k
    ensures MergeBlocks(blocks, BlocksOf(seqs)) == if k in blocks then blocks else blocks + [k]
  {
    var more := BlocksOf(seqs);
    forall b | b in more ensures b == k { var j :| 0 <= j < |more| && more[j] == b; assert seqs[j] in seqs; }
    assert more[0] == k by { assert seqs[0] in seqs; }
    assert forall b :: b in more[1..] ==> b in more;
    MergeListed(if k in blocks then blocks else blocks + [k], more[1..]);
  }

  lemma BlocksOfConcat(a: seq<nat>, b: seq<nat>)
    ensures BlocksOf(a + b) == BlocksOf(a) + BlocksOf(b)
  {
  }

  function BlocksOf(seqs: seq<nat>): (r: seq<nat>)
    ensures |r| == |seqs|
    ensures forall k :: 0 <= k < |r| ==> r[k] == seqs[k] / MSGS_PER_BLOCK
  {
    seq(|seqs|, k requires 0 <= k < |seqs| => seqs[k] / MSGS_PER_BLOCK)
  }

  /** The listed blocks that still hold a message of the state, in list order. */
  function StillHolding(blocks: seq<nat>, states: seq<MsgState>, st: MsgState): (r: seq<nat>)
    ensures forall b :: b in r <==> b in blocks && HasState(states, st, b)
    ensures Distinct(blocks) ==> Distinct(r)
  {
    if blocks == [] then [] else
      (if HasState(states, st, blocks[0]) then [blocks[0]] else []) + StillHolding(blocks[1..], states, st)
  }

  // ---- Operations

  ghost predicate Valid(q: Queue) {
    && q.head <= |q.states|
    && (forall i :: 0 <= i < |q.states| ==> (q.states[i] == Ready <==> i >= q.head))
    && Indexes(q.retryBlocks, q.states, Retry)
    && Indexes(q.sparseBlocks, q.states, SparseReady)
    && (forall i :: 0 <= i < |q.states| && q.states[i] == SparseReady ==> i in q.redelivered)
    && (forall i :: i in q.redelivered ==> i < q.head)
  }

  ghost predicate AllInflight(q: Queue, seqs: seq<nat>) {
    forall i :: i in seqs ==> i < |q.states| && q.states[i] == Inflight
  }

  function Uniform(n: nat, st: MsgState): (r: seq<MsgState>)
    ensures |r| == n && forall i :: 0 <= i < n ==> r[i] == st
  {
    seq(n, _ => st)
  }

  function Publish(q: Queue, count: nat): (r: Queue) {
    q.(states := q.states + Uniform(count, Ready))
  }

  function Span(start: nat, len: nat): (r: seq<nat>)
    ensures |r| == len && Distinct(r)
    ensures forall i :: i in r <==> start <= i < start + len
  {
    var r := seq(len, k requires 0 <= k => start + k);
    assert forall i :: start <= i < start + len ==> i in r by {
      forall i | start <= i < start + len ensures i in r { assert r[i - start] == i; }
    }
    r
  }

  function ReadyCount(q: Queue): (n: nat) {
    Count(q.states, Ready) + Count(q.states, SparseReady)
  }

  /** What `deliver` hands out: the sequential prefix, then the retried messages in block-list order. */
  function Delivered(q: Queue, max: nat): (r: seq<nat>)
    requires q.head <= |q.states|
  {
    var direct := Min(max, |q.states| - q.head);
    var order := Order(q.states, SparseReady, q.sparseBlocks);
    Span(q.head, direct) + order[..Min(max - direct, |order|)]
  }

  function Deliver(q: Queue, max: nat): (r: Queue)
    requires q.head <= |q.states|
  {
    var states := SetAll(q.states, Delivered(q, max), Inflight);
    q.(states := states, head := q.head + Min(max, |q.states| - q.head),
       sparseBlocks := StillHolding(q.sparseBlocks, states, SparseReady))
  }

  function Ack(q: Queue, seqs: seq<nat>): (r: Queue) {
    q.(states := SetAll(q.states, seqs, Acked))
  }

  function NackToRetry(q: Queue, seqs: seq<nat>): (r: Queue) {
    q.(states := SetAll(q.states, seqs, Retry), retryBlocks := MergeBlocks(q.retryBlocks, BlocksOf(seqs)))
  }

  function RetryAllNow(q: Queue): (r: Queue) {
    var waiting := Select(q.states, Retry, 0, |q.states|);
    q.(states := SetAll(q.states, waiting, SparseReady),
       redelivered := q.redelivered + (set i | i in waiting),
       sparseBlocks := MergeBlocks(q.sparseBlocks, q.retryBlocks), retryBlocks := [])
  }

  lemma SpanConcat(start: nat, a: nat, b: nat)
    ensures Span(start, a) + Span(start + a, b) == Span(start, a + b)
  {
  }

  /** Settling part of a duplicate-free list leaves the rest inflight. */
  lemma StillInflight(q: Queue, a: seq<nat>, b: seq<nat>)
    requires Distinct(a + b) && AllInflight(q, a + b)
    ensures AllInflight(q, a) && AllInflight(q, b)
    ensures AllInflight(Ack(q, a), b) && AllInflight(NackToRetry(q, a), b)
  {
    DisjointParts(a, b);
    assert forall i :: i in a || i in b ==> i in a + b;
  }

  lemma DisjointParts<T>(a: seq<T>, b: seq<T>)
    requires Distinct(a + b)
    ensures Distinct(a) && Distinct(b) && forall x :: x in a ==> x !in b
  {
    forall j, k | 0 <= j < k < |a| ensures a[j] != a[k] { assert (a + b)[j] != (a + b)[k]; }
    forall j, k | 0 <= j < k < |b| ensures b[j] != b[k] { assert (a + b)[|a| + j] != (a + b)[|a| + k]; }
    forall j, k | 0 <= j < |a| && 0 <= k < |b| ensures a[j] != b[k] { assert (a + b)[j] != (a + b)[|a| + k]; }
  }

  lemma AckTwice(q: Queue, a: seq<nat>, b: seq<nat>)
    ensures Ack(Ack(q, a), b) == Ack(q, a + b)
  {
    SetAllTwice(q.states, a, b, Acked);
  }

  lemma NackTwice(q: Queue, a: seq<nat>, b: seq<nat>)
    ensures NackToRetry(NackToRetry(q, a), b) == NackToRetry(q, a + b)
  {
    SetAllTwice(q.states, a, b, Retry);
    BlocksOfConcat(a, b);
    MergeTwice(q.retryBlocks, BlocksOf(a), BlocksOf(b));
  }

  // ---- Every operation keeps the queue valid and moves the counts as its name says

  lemma PublishKeeps(q: Queue, count: nat)
    requires Valid(q)
    ensures Valid(Publish(q, count))
    ensures Counts(Publish(q, count).states) ==
      var c := Counts(q.states); c.(published := c.published + count, ready := c.ready + count)
  {
    hide Count, Uniform;
    var r := Publish(q, count);
    forall b, st | st != Ready && HasState(q.states, st, b) ensures HasState(r.states, st, b) {
      var i :| 0 <= i < |q.states| && i / MSGS_PER_BLOCK == b && q.states[i] == st;
      assert r.states[i] == st;
    }
    var added := Uniform(count, Ready);
    CountAppend(q.states, added, Ready); CountAppend(q.states, added, SparseReady);
    CountAppend(q.states, added, Inflight); CountAppend(q.states, added, Acked); CountAppend(q.states, added, Retry);
    CountUniform(count, Ready);
  }

  lemma {:induction false} CountUniform(n: nat, st: MsgState)
    ensures forall t :: Count(Uniform(n, st), t) == if t == st then n else 0
  {
    if n == 0 {
    } else {
      assert Uniform(n, st)[..n - 1] == Uniform(n - 1, st);
      CountUniform(n - 1, st);
    }
  }

  /** The never-delivered messages are exactly the sequential window. */
  lemma WindowIsReady(q: Queue)
    requires Valid(q)
    ensures Count(q.states, Ready) == |q.states| - q.head
  {
    CountIsLength(q.states, Ready, Span(q.head, |q.states| - q.head));
  }

  /** Unchanged states keep their blocks listed. */
  lemma IndexKept(blocks: seq<nat>, states: seq<MsgState>, states': seq<MsgState>, st: MsgState)
    requires Indexes(blocks, states, st) && |states| == |states'|
    requires forall i :: 0 <= i < |states| ==> (states[i] == st <==> states'[i] == st)
    ensures Indexes(blocks, states', st)
  {
    forall b | b in blocks ensures HasState(states', st, b) {
      var i :| 0 <= i < |states| && i / MSGS_PER_BLOCK == b && states[i] == st;
      assert states'[i] == st;
    }
  }

  /** A delivery hands out min(max, ready) distinct messages, the sequential window first, and
      every one of them was ready and becomes inflight; nothing else changes state. */
  lemma DeliveredAre(q: Queue, max: nat)
    requires Valid(q)
    ensures var seqs, direct := Delivered(q, max), Min(max, |q.states| - q.head);
      && Distinct(seqs) && |seqs| == Min(max, ReadyCount(q)) && 0 <= direct <= |seqs|
      && seqs[..direct] == Span(q.head, direct)
      && (forall i :: i in seqs[direct..] ==> i < |q.states| && q.states[i] == SparseReady)
      && (forall i :: i in seqs ==> i < |q.states|)
  {
    hide Count, Select, InBlock, Order, Span;
    var direct, order := Min(max, |q.states| - q.head), Order(q.states, SparseReady, q.sparseBlocks);
    var rest := order[..Min(max - direct, |order|)];
    WindowIsReady(q);
    OrderIsComplete(q.states, SparseReady, q.sparseBlocks);
    assert forall i :: i in rest ==> i in order;
    DistinctConcat(Span(q.head, direct), rest);
    assert Delivered(q, max)[direct..] == rest;
  }

  lemma DeliverKeeps(q: Queue, max: nat)
    requires Valid(q)
    ensures Valid(Deliver(q, max))
    ensures AllInflight(Deliver(q, max), Delivered(q, max))
  {
    hide Count, Delivered, StillHolding;
    DeliveredAre(q, max);
    var seqs, direct, r := Delivered(q, max), Min(max, |q.states| - q.head), Deliver(q, max);
    assert seqs == seqs[..direct] + seqs[direct..];
    IndexKept(q.retryBlocks, q.states, r.states, Retry);
    forall i | 0 <= i < |r.states| && r.states[i] == SparseReady ensures i / MSGS_PER_BLOCK in r.sparseBlocks {
      assert q.states[i] == SparseReady;
    }
  }

  lemma DeliverCounts(q: Queue, max: nat)
    requires Valid(q)
    ensures var c, n := Counts(q.states), Min(max, ReadyCount(q));
      Counts(Deliver(q, max).states) == c.(ready := c.ready - n, inflight := c.inflight + n)
  {
    hide Count, Delivered, SetAll;
    DeliveredAre(q, max);
    var seqs, direct := Delivered(q, max), Min(max, |q.states| - q.head);
    var a, b := seqs[..direct], seqs[direct..];
    assert seqs == a + b;
    var mid := SetAll(q.states, a, Inflight);
    CountSetAll(q.states, a, Ready, Inflight);
    forall i | i in b ensures i !in a { assert q.states[i] == SparseReady; }
    CountSetAll(mid, b, SparseReady, Inflight);
    SetAllTwice(q.states, a, b, Inflight);
  }

  lemma AckKeeps(q: Queue, seqs: seq<nat>)
    requires Valid(q) && AllInflight(q, seqs)
    ensures Valid(Ack(q, seqs))
  {
    IndexKept(q.retryBlocks, q.states, Ack(q, seqs).states, Retry);
    IndexKept(q.sparseBlocks, q.states, Ack(q, seqs).states, SparseReady);
  }

  lemma AckCounts(q: Queue, seqs: seq<nat>)
    requires Distinct(seqs) && AllInflight(q, seqs)
    ensures var c := Counts(q.states);
      Counts(Ack(q, seqs).states) == c.(inflight := c.inflight - |seqs|, acked := c.acked + |seqs|)
  {
    CountSetAll(q.states, seqs, Inflight, Acked);
  }

  lemma NackKeeps(q: Queue, seqs: seq<nat>)
    requires Valid(q) && AllInflight(q, seqs)
    ensures Valid(NackToRetry(q, seqs))
  {
    var r := NackToRetry(q, seqs);
    IndexKept(q.sparseBlocks, q.states, r.states, SparseReady);
    forall b | b in r.retryBlocks ensures HasState(r.states, Retry, b) {
      if b in q.retryBlocks {
        var i :| 0 <= i < |q.states| && i / MSGS_PER_BLOCK == b && q.states[i] == Retry;
        assert r.states[i] == Retry;
      } else {
        var k :| 0 <= k < |seqs| && BlocksOf(seqs)[k] == b;
        assert seqs[k] in seqs && r.states[seqs[k]] == Retry;
      }
    }
    forall i | 0 <= i < |r.states| && r.states[i] == Retry ensures i / MSGS_PER_BLOCK in r.retryBlocks {
      if i in seqs {
        var k :| 0 <= k < |seqs| && seqs[k] == i;
        assert BlocksOf(seqs)[k] in BlocksOf(seqs);
      }
    }
  }

  lemma NackCounts(q: Queue, seqs: seq<nat>)
    requires Distinct(seqs) && AllInflight(q, seqs)
    ensures var c := Counts(q.states);
      Counts(NackToRetry(q, seqs).states) == c.(inflight := c.inflight - |seqs|, retry := c.retry + |seqs|)
  {
    CountSetAll(q.states, seqs, Inflight, Retry);
  }

  lemma RetryKeeps(q: Queue)
    requires Valid(q)
    ensures Valid(RetryAllNow(q))
  {
    hide Select, MergeBlocks, HasState, SetAll;
    var r := RetryAllNow(q);
    forall i | 0 <= i < |r.states| && r.states[i] == SparseReady ensures i / MSGS_PER_BLOCK in r.sparseBlocks {
      assert q.states[i] == SparseReady || q.states[i] == Retry;
    }
    forall b | b in r.sparseBlocks ensures HasState(r.states, SparseReady, b) { RetryReadies(q, b); }
  }

  lemma RetryReadies(q: Queue, b: nat)
    requires HasState(q.states, SparseReady, b) || HasState(q.states, Retry, b)
    ensures HasState(RetryAllNow(q).states, SparseReady, b)
  {
    hide Select;
    var i :| 0 <= i < |q.states| && i / MSGS_PER_BLOCK == b && (q.states[i] == SparseReady || q.states[i] == Retry);
    assert RetryAllNow(q).states[i] == SparseReady;
  }

  lemma RetryCounts(q: Queue)
    ensures var c := Counts(q.states);
      Counts(RetryAllNow(q).states) == c.(ready := c.ready + c.retry, retry := 0)
  {
    var waiting := Select(q.states, Retry, 0, |q.states|);
    AscendingDistinct(waiting);
    CountIsLength(q.states, Retry, waiting);
    CountSetAll(q.states, waiting, Retry, SparseReady);
  }

  // ---- Serving in parts

  /** Serving the first `k` messages of an order leaves the rest in the same order. */
  lemma {:induction false} OrderServed(states: seq<MsgState>, states': seq<MsgState>, st: MsgState,
      blocks: seq<nat>, k: nat)
    requires |states| == |states'| && Distinct(blocks) && k <= |Order(states, st, blocks)|
    requires forall i :: 0 <= i < |states| && i / MSGS_PER_BLOCK in blocks ==>
      (states'[i] == st <==> states[i] == st && i !in Order(states, st, blocks)[..k])
    ensures Order(states', st, StillHolding(blocks, states', st)) == Order(states, st, blocks)[k..]
  {
    hide InBlock, HasState, StillHolding, Order;
    if blocks == [] {
      NothingOrdered(states', states, st);
    } else {
      var b, tail := blocks[0], blocks[1..];
      var here, later := InBlock(states, st, b), Order(states, st, tail);
      var m := Min(k, |here|);
      HeadNotInTail(blocks);
      OrderCons(states, st, b, tail);
      assert [b] + tail == blocks;
      assert (here + later)[..k] == here[..m] + later[..k - m];
      BlockServed(states, states', st, b, m);
      forall i | 0 <= i < |states| && i / MSGS_PER_BLOCK in tail
        ensures states'[i] == st <==> states[i] == st && i !in later[..k - m]
      {
        assert i !in here;
      }
      OrderServed(states, states', st, tail, k - m);
      HoldingCons(b, tail, states', st);
      EmptyBlock(states', st, b);
      OrderCons(states', st, b, StillHolding(tail, states', st));
      assert (here + later)[k..] == here[m..] + later[k - m..];
    }
  }

  lemma NothingOrdered(states': seq<MsgState>, states: seq<MsgState>, st: MsgState)
    ensures StillHolding([], states', st) == [] && Order(states', st, []) == [] && Order(states, st, []) == []
  {
  }

  lemma OrderCons(states: seq<MsgState>, st: MsgState, b: nat, tail: seq<nat>)
    ensures Order(states, st, [b] + tail) == InBlock(states, st, b) + Order(states, st, tail)
  {
    hide InBlock;
    assert ([b] + tail)[1..] == tail;
  }

  lemma HoldingCons(b: nat, tail: seq<nat>, states: seq<MsgState>, st: MsgState)
    ensures StillHolding([b] + tail, states, st) ==
      if HasState(states, st, b) then [b] + StillHolding(tail, states, st) else StillHolding(tail, states, st)
  {
    hide HasState;
    assert ([b] + tail)[1..] == tail;
  }

  lemma BlockServed(states: seq<MsgState>, states': seq<MsgState>, st: MsgState, b: nat, m: nat)
    requires |states| == |states'| && m <= |InBlock(states, st, b)|
    requires forall i :: 0 <= i < |states| && i / MSGS_PER_BLOCK == b ==>
      (states'[i] == st <==> states[i] == st && i !in InBlock(states, st, b)[..m])
    ensures InBlock(states', st, b) == InBlock(states, st, b)[m..]
  {
    hide InBlock;
    var here, left := InBlock(states, st, b), InBlock(states', st, b);
    assert here == here[..m] + here[m..];
    AscendingSplit(here[..m], here[m..]);
    forall i ensures i in left <==> i in here[m..] {
      assert i in here <==> i in here[..m] || i in here[m..];
      assert i in here[..m] ==> i !in here[m..];
    }
    AscendingUnique(left, here[m..]);
  }

  lemma {:induction false} StillHoldingTwice(blocks: seq<nat>, mid: seq<MsgState>, states: seq<MsgState>, st: MsgState)
    requires forall b :: HasState(states, st, b) ==> HasState(mid, st, b)
    ensures StillHolding(StillHolding(blocks, mid, st), states, st) == StillHolding(blocks, states, st)
  {
    hide HasState, StillHolding;
    if blocks == [] {
      NothingOrdered(mid, states, st);
      NothingOrdered(states, states, st);
    } else {
      var b, tail := blocks[0], blocks[1..];
      assert [b] + tail == blocks;
      StillHoldingTwice(tail, mid, states, st);
      HoldingCons(b, tail, mid, st);
      HoldingCons(b, tail, states, st);
      HoldingCons(b, StillHolding(tail, mid, st), states, st);
    }
  }

  /** What is still to be served after a delivery: the rest of the order. */
  lemma OrderAfter(q: Queue, m: nat)
    requires Valid(q)
    ensures var order, r := Order(q.states, SparseReady, q.sparseBlocks), Deliver(q, m);
      var k := Min(m - Min(m, |q.states| - q.head), |order|);
      Order(r.states, SparseReady, r.sparseBlocks) == order[k..]
  {
    hide InBlock, HasState, StillHolding, Order, Span, Select;
    var order, r := Order(q.states, SparseReady, q.sparseBlocks), Deliver(q, m);
    var direct := Min(m, |q.states| - q.head);
    var k := Min(m - direct, |order|);
    assert Delivered(q, m) == Span(q.head, direct) + order[..k];
    OrderServed(q.states, r.states, SparseReady, q.sparseBlocks, k);
  }

  /** Two deliveries are one. */
  lemma DeliverTwice(q: Queue, m: nat, n: nat)
    requires Valid(q)
    ensures Valid(Deliver(q, m))
    ensures Delivered(q, m + n) == Delivered(q, m) + Delivered(Deliver(q, m), n)
    ensures Deliver(q, m + n) == Deliver(Deliver(q, m), n)
  {
    hide InBlock, HasState, StillHolding, Order, Span, Select, SetAll, Valid;
    DeliverKeeps(q, m);
    OrderAfter(q, m);
    DeliveredTwice(q, m, n);
    var r := Deliver(q, m);
    SetAllTwice(q.states, Delivered(q, m), Delivered(r, n), Inflight);
    FewerHold(r.states, Delivered(r, n));
    StillHoldingTwice(q.sparseBlocks, r.states, SetAll(r.states, Delivered(r, n), Inflight), SparseReady);
    HeadAfter(q, m);
  }

  lemma HeadAfter(q: Queue, m: nat)
    requires Valid(q)
    ensures var r := Deliver(q, m); |r.states| == |q.states| && r.head == q.head + Min(m, |q.states| - q.head)
  {
  }

  lemma DeliveredTwice(q: Queue, m: nat, n: nat)
    requires Valid(q) && Valid(Deliver(q, m))
    requires var order, r := Order(q.states, SparseReady, q.sparseBlocks), Deliver(q, m);
      Order(r.states, SparseReady, r.sparseBlocks) == order[Min(m - Min(m, |q.states| - q.head), |order|)..]
    ensures Delivered(q, m + n) == Delivered(q, m) + Delivered(Deliver(q, m), n)
  {
    hide InBlock, HasState, StillHolding, Order, Span, Select, SetAll, Indexes;
    var order, r := Order(q.states, SparseReady, q.sparseBlocks), Deliver(q, m);
    var ready := |q.states| - q.head;
    var a, b := Min(m, ready), Min(n, ready - Min(m, ready));
    var k := Min(m - a, |order|);
    var j := Min(n - b, |order| - k);
    HeadAfter(q, m);
    SpanConcat(q.head, a, b);
    Parts(Span(q.head, a), Span(q.head + a, b), order, k, j);
    if b > 0 { assert k == 0; }
  }

  lemma Parts(x: seq<nat>, y: seq<nat>, order: seq<nat>, k: nat, j: nat)
    requires k + j <= |order| && (y == [] || k == 0)
    ensures (x + order[..k]) + (y + order[k..][..j]) == (x + y) + order[..k + j]
  {
    assert order[..k] + order[k..][..j] == order[..k + j];
  }

  lemma FewerHold(states: seq<MsgState>, seqs: seq<nat>)
    ensures forall b :: HasState(SetAll(states, seqs, Inflight), SparseReady, b) ==> HasState(states, SparseReady, b)
  {
    var r := SetAll(states, seqs, Inflight);
    forall b | HasState(r, SparseReady, b) ensures HasState(states, SparseReady, b) {
      var i :| 0 <= i < |r| && i / MSGS_PER_BLOCK == b && r[i] == SparseReady;
      assert states[i] == SparseReady;
    }
  }

  /** A delivery of nothing changes nothing, and one of more than there is takes what there is. */
  lemma DeliverBounded(q: Queue, n: nat)
    requires Valid(q)
    ensures Delivered(q, 0) == [] && Deliver(q, 0) == q
    ensures var m := Min(n, ReadyCount(q)); Delivered(q, n) == Delivered(q, m) && Deliver(q, n) == Deliver(q, m)
  {
    hide Count, StillHolding, Order, Select, InBlock;
    var order := Order(q.states, SparseReady, q.sparseBlocks);
    WindowIsReady(q);
    OrderIsComplete(q.states, SparseReady, q.sparseBlocks);
    assert Delivered(q, 0) == [];
    assert SetAll(q.states, [], Inflight) == q.states;
    StillHoldingAll(q.sparseBlocks, q.states, SparseReady);
  }
}
