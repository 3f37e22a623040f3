/** When the hybrid queue and the reference queue serve retried messages in the same order. */
module ServiceOrder {
  import opened Words
  import opened Kernels
  import opened IntrusiveList
  import opened QueueSpec
  import opened Deliveries
  import opened SessionSpec
  import opened ReferenceModels
  import opened Differential

  ghost predicate SameService(q: Queue, mq: SimpleQueue)
    requires q.head <= |q.states| && mq.head <= |mq.states|
  {
    forall n: nat :: Delivered(q, n) == SimpleDelivered(mq, n)
  }

  /** Both queues hold the same messages ready for redelivery. */
  ghost predicate SameWaiting(a: seq<MsgState>, b: seq<MsgState>) {
    |a| == |b| && forall i :: 0 <= i < |a| ==> (a[i] == SparseReady <==> b[i] == SparseReady)
  }

  /** Where the list has the block, its length if nowhere. */
  function Rank(blocks: seq<nat>, b: nat): (k: nat)
    ensures k <= |blocks| && (k < |blocks| <==> b in blocks) && (k < |blocks| ==> blocks[k] == b)
  {
    if blocks == [] || blocks[0] == b then 0 else 1 + Rank(blocks[1..], b)
  }

  /** `i` comes from an earlier listed block than `j`, or is the smaller one of the same block. */
  predicate Precedes(blocks: seq<nat>, i: nat, j: nat) {
    var a, b := i / MSGS_PER_BLOCK, j / MSGS_PER_BLOCK;
    if a == b then i < j else Rank(blocks, a) < Rank(blocks, b)
  }

  /** Each message precedes its neighbour. */
  predicate Follows(s: seq<nat>, blocks: seq<nat>) {
    |s| >= 2 ==> Precedes(blocks, s[0], s[1]) && Follows(s[1..], blocks)
  }

  predicate Listed(s: seq<nat>, blocks: seq<nat>) {
    forall i :: i in s ==> i / MSGS_PER_BLOCK in blocks
  }

  /** A number per message that grows along the service order. */
  function Key(blocks: seq<nat>, i: nat): (k: nat) {
    Rank(blocks, i / MSGS_PER_BLOCK) * MSGS_PER_BLOCK + i % MSGS_PER_BLOCK
  }

  function Keys(blocks: seq<nat>, s: seq<nat>): (r: seq<nat>)
    ensures |r| == |s| && forall k :: 0 <= k < |s| ==> r[k] == Key(blocks, s[k])
  {
    seq(|s|, k requires 0 <= k < |s| => Key(blocks, s[k]))
  }

  lemma KeyOrders(blocks: seq<nat>, i: nat, j: nat)
    requires i / MSGS_PER_BLOCK in blocks && j / MSGS_PER_BLOCK in blocks
    ensures Precedes(blocks, i, j) <==> Key(blocks, i) < Key(blocks, j)
    ensures Key(blocks, i) == Key(blocks, j) ==> i == j
  {
    hide Rank;
  }

  lemma {:induction false} FollowsAscends(s: seq<nat>, blocks: seq<nat>)
    requires Listed(s, blocks)
    ensures Follows(s, blocks) <==> Ascending(Keys(blocks, s))
  {
    hide Key, Precedes;
    if |s| < 2 {
    } else {
      var rest := s[1..];
      assert s == [s[0]] + rest && Listed(rest, blocks);
      FollowsAscends(rest, blocks);
      KeyOrders(blocks, s[0], s[1]);
      AscendingFront(Keys(blocks, s));
      assert Keys(blocks, s)[1..] == Keys(blocks, rest);
    }
  }

  lemma AscendingFront(s: seq<nat>)
    requires |s| >= 2
    ensures Ascending(s) <==> s[0] < s[1] && Ascending(s[1..])
  {
    if s[0] < s[1] && Ascending(s[1..]) {
      forall j, k | 0 <= j < k < |s| ensures s[j] < s[k] {
        if k > 1 { assert s[1..][0] < s[1..][k - 1]; }
        if j > 0 { assert s[1..][j - 1] < s[1..][k - 1]; }
      }
    }
  }

  /** The hybrid queue serves along its block list. */
  lemma {:induction false} OrderAscends(states: seq<MsgState>, st: MsgState, blocks: seq<nat>)
    requires Distinct(blocks)
    ensures Ascending(Keys(blocks, Order(states, st, blocks)))
  {
    hide Key, InBlock;
    if blocks == [] {
    } else {
      var rest, here := blocks[1..], InBlock(states, st, blocks[0]);
      var later := Order(states, st, rest);
      OrderAscends(states, st, rest);
      HeadNotInTail(blocks);
      HereKeys(blocks, here);
      LaterKeys(blocks, later);
      JoinAscending(Keys(blocks, here), Keys(blocks, later));
      assert Keys(blocks, here + later) == Keys(blocks, here) + Keys(blocks, later);
    }
  }

  lemma HereKeys(blocks: seq<nat>, here: seq<nat>)
    requires blocks != [] && Ascending(here) && forall i :: i in here ==> i / MSGS_PER_BLOCK == blocks[0]
    ensures Ascending(Keys(blocks, here)) && forall k :: k in Keys(blocks, here) ==> k < MSGS_PER_BLOCK
  {
    forall k | 0 <= k < |here| ensures Key(blocks, here[k]) == here[k] % MSGS_PER_BLOCK {
      assert here[k] in here;
    }
    forall j, k | 0 <= j < k < |here| ensures Keys(blocks, here)[j] < Keys(blocks, here)[k] {
      assert here[j] in here && here[k] in here && here[j] < here[k];
    }
  }

  lemma LaterKeys(blocks: seq<nat>, later: seq<nat>)
    requires blocks != [] && forall i :: i in later ==> i / MSGS_PER_BLOCK != blocks[0]
    requires Ascending(Keys(blocks[1..], later))
    ensures Ascending(Keys(blocks, later)) && forall k :: k in Keys(blocks, later) ==> k >= MSGS_PER_BLOCK
  {
    var rest := blocks[1..];
    forall k | 0 <= k < |later| ensures Keys(blocks, later)[k] == MSGS_PER_BLOCK + Keys(rest, later)[k] {
      assert later[k] in later;
      LaterKey(blocks, later[k]);
    }
  }

  lemma LaterKey(blocks: seq<nat>, i: nat)
    requires blocks != [] && i / MSGS_PER_BLOCK != blocks[0]
    ensures Key(blocks, i) == MSGS_PER_BLOCK + Key(blocks[1..], i)
  {
  }

  /** Only one arrangement of a set of messages follows a block list. */
  lemma FollowsUnique(a: seq<nat>, b: seq<nat>, blocks: seq<nat>)
    requires Listed(a, blocks) && Listed(b, blocks) && (forall i :: i in a <==> i in b)
    requires Ascending(Keys(blocks, a)) && Ascending(Keys(blocks, b))
    ensures a == b
  {
    hide Key, Precedes;
    KeysCarry(a, b, blocks);
    KeysCarry(b, a, blocks);
    AscendingUnique(Keys(blocks, a), Keys(blocks, b));
    forall k | 0 <= k < |a| ensures a[k] == b[k] {
      assert Keys(blocks, a)[k] == Keys(blocks, b)[k] && a[k] in a && b[k] in b;
      KeyOrders(blocks, a[k], b[k]);
    }
  }

  lemma KeysCarry(a: seq<nat>, b: seq<nat>, blocks: seq<nat>)
    requires forall i :: i in a ==> i in b
    ensures forall x :: x in Keys(blocks, a) ==> x in Keys(blocks, b)
  {
    hide Key;
    forall k | 0 <= k < |a| ensures Keys(blocks, a)[k] in Keys(blocks, b) {
      assert a[k] in b;
      var j :| 0 <= j < |b| && b[j] == a[k];
      assert Keys(blocks, b)[j] == Keys(blocks, a)[k];
    }
  }

  /** The reference queue is documented to make delivery sequences comparable exactly. It serves as
      the hybrid queue does exactly when both hold the same messages ready for redelivery and its
      FIFO runs through the blocks in the order of the hybrid queue's block list, ascending within
      each block. */
  lemma SameServiceIff(q: Queue, mq: SimpleQueue)
    requires QueueSpec.Valid(q) && SimpleOk(mq) && |mq.states| == |q.states| && mq.head == q.head
    ensures SameService(q, mq) <==> SameWaiting(q.states, mq.states) && Follows(mq.sparse, q.sparseBlocks)
  {
    hide Count, Span, Select, InBlock, Order, SameService, Follows, Key;
    var blocks, order := q.sparseBlocks, Order(q.states, SparseReady, q.sparseBlocks);
    OrderIsComplete(q.states, SparseReady, blocks);
    OrderAscends(q.states, SparseReady, blocks);
    if SameService(q, mq) {
      ServeAll(q, mq);
      FollowsAscends(order, blocks);
    }
    if SameWaiting(q.states, mq.states) && Follows(mq.sparse, blocks) {
      FollowsAscends(mq.sparse, blocks);
      FollowsUnique(order, mq.sparse, blocks);
      SameOrderSameService(q, mq);
    }
  }

  lemma SameOrderSameService(q: Queue, mq: SimpleQueue)
    requires q.head <= |q.states| == |mq.states| && mq.head == q.head
    requires Order(q.states, SparseReady, q.sparseBlocks) == mq.sparse
    ensures SameService(q, mq)
  {
    hide Span, Order;
  }

  /** Serving everything reveals the whole order. */
  lemma ServeAll(q: Queue, mq: SimpleQueue)
    requires q.head <= |q.states| == |mq.states| && mq.head == q.head && SameService(q, mq)
    ensures Order(q.states, SparseReady, q.sparseBlocks) == mq.sparse
  {
    hide Span, Order;
    var order := Order(q.states, SparseReady, q.sparseBlocks);
    var direct := |q.states| - q.head;
    var n := direct + |order| + |mq.sparse|;
    assert Delivered(q, n) == SimpleDelivered(mq, n);
    assert Delivered(q, n)[direct..] == order && SimpleDelivered(mq, n)[direct..] == mq.sparse;
  }

  /** The condition on every pair that requests can lead to. */
  lemma ReachedServiceIff(mode: Prefetch, rs: seq<Request>, h: Hybrid, m: Reference)
    requires (mode.Limited? ==> mode.limit <= U32_MAX) && Reached(mode, rs, h, m)
    ensures h.queue.head <= |h.queue.states| && m.queue.head <= |m.queue.states|
    ensures SameService(h.queue, m.queue) <==>
      (SameWaiting(h.queue.states, m.queue.states) && Follows(m.queue.sparse, h.queue.sparseBlocks))
  {
    hide SameService, SameWaiting, Follows, SimpleOk, Reached, SameTags, Owns, SessionOk, Count;
    ReachedAgree(mode, rs, h, m);
    SameServiceIff(h.queue, m.queue);
  }

  // ---- Two runs that end in different service orders

  /** Both messages of a block, requeued and retried in the order 1, 0. */
  const ONE_BLOCK: seq<Request> :=
    [PublishReq(2), DeliverReq(2)] + [NackReq(2, One, Requeue)] + [RetryReq] + [NackReq(1, One, Requeue)] + [RetryReq]

  /** The first and the last of 257 messages, requeued in the order 256, 0 and retried together. */
  const TWO_BLOCKS: seq<Request> :=
    [PublishReq(257), DeliverReq(257)] + [NackReq(257, One, Requeue)] + [NackReq(1, One, Requeue)] + [RetryReq]

  function AllTaken(n: nat): (s: Session) {
    Session(n + 1, Credit(Unlimited, n), Tagged(1, Span(0, n)), false)
  }

  lemma FirstDelivery(n: nat)
    requires 0 < n <= U32_MAX
    ensures Reached(Unlimited, [PublishReq(n), DeliverReq(n)],
      Hybrid(AllTaken(n), Queue(Uniform(n, Inflight), n, {}, [], [])),
      Reference(AllTaken(n), SimpleQueue(Uniform(n, Inflight), n, [])))
  {
    hide Reached;
    var s, q, mq :=
      NewSession(Unlimited), Queue(Uniform(n, Ready), 0, {}, [], []), SimpleQueue(Uniform(n, Ready), 0, []);
    var h0, m0 := Hybrid(s, EMPTY_QUEUE), Reference(s, SimpleQueue([], 0, []));
    NothingRequested(Unlimited);
    assert [] + Uniform(n, Ready) == Uniform(n, Ready);
    ReachNext(Unlimited, [], h0, m0, PublishReq(n), [], Hybrid(s, q), Reference(s, mq));
    assert Delivered(q, n) == Span(0, n) == SimpleDelivered(mq, n);
    assert SetAll(Uniform(n, Ready), Span(0, n), Inflight) == Uniform(n, Inflight);
    assert s.list + Tagged(1, Span(0, n)) == Tagged(1, Span(0, n));
    assert [] + [PublishReq(n)] == [PublishReq(n)];
    assert [PublishReq(n)] + [DeliverReq(n)] == [PublishReq(n), DeliverReq(n)];
    ReachNext(Unlimited, [PublishReq(n)], Hybrid(s, q), Reference(s, mq), DeliverReq(n), [],
      Hybrid(AllTaken(n), Queue(Uniform(n, Inflight), n, {}, [], [])),
      Reference(AllTaken(n), SimpleQueue(Uniform(n, Inflight), n, [])));
  }

  lemma NothingRequested(mode: Prefetch)
    ensures Reached(mode, [], Hybrid(NewSession(mode), EMPTY_QUEUE),
      Reference(NewSession(mode), SimpleQueue([], 0, [])))
  {
  }

  /** Requeue the message at position `k` of a session that both sides share. */
  lemma RequeueNext(rs: seq<Request>, s: Session, q: Queue, mq: SimpleQueue, k: nat)
    requires Reached(Unlimited, rs, Hybrid(s, q), Reference(s, mq)) && k < |s.list|
    ensures var e := s.list[k]; var s' := s.(list := RemoveAt(s.list, k), credit := s.credit.Release(1));
      Reached(Unlimited, rs + [NackReq(e.tag, One, Requeue)],
        Hybrid(s', NackToRetry(q, [e.msg])), Reference(s', mq.(states := SetAll(mq.states, [e.msg], Retry))))
  {
    hide Reached, NackToRetry;
    var e := s.list[k];
    var s' := s.(list := RemoveAt(s.list, k), credit := s.credit.Release(1));
    ReachedAgree(Unlimited, rs, Hybrid(s, q), Reference(s, mq));
    assert HasTag(s.list, e.tag) && TagIndex(s.list, e.tag) == k;
    assert Messages([e]) == [e.msg];
    FailsIffNotOutstanding(s, e.tag);
    ReachNext(Unlimited, rs, Hybrid(s, q), Reference(s, mq), NackReq(e.tag, One, Requeue), [e.msg],
      Hybrid(s', NackToRetry(q, [e.msg])), Reference(s', mq.(states := SetAll(mq.states, [e.msg], Retry))));
  }

  lemma RetryNext(rs: seq<Request>, s: Session, q: Queue, mq: SimpleQueue)
    requires Reached(Unlimited, rs, Hybrid(s, q), Reference(s, mq))
    ensures Reached(Unlimited, rs + [RetryReq], Hybrid(s, RetryAllNow(q)), Reference(s, SimpleRetry(mq)))
  {
    hide Reached, RetryAllNow, SimpleRetry;
    ReachedAgree(Unlimited, rs, Hybrid(s, q), Reference(s, mq));
    ReachNext(Unlimited, rs, Hybrid(s, q), Reference(s, mq), RetryReq, [], Hybrid(s, RetryAllNow(q)),
      Reference(s, SimpleRetry(mq)));
  }

  /** A selection is known by its members. */
  lemma SelectIs(states: seq<MsgState>, st: MsgState, list: seq<nat>)
    requires Ascending(list) && forall i :: i in list <==> 0 <= i < |states| && states[i] == st
    ensures Select(states, st, 0, |states|) == list
  {
    hide Select;
    AscendingUnique(Select(states, st, 0, |states|), list);
  }

  lemma MergeOne(blocks: seq<nat>, b: nat)
    ensures MergeBlocks(blocks, [b]) == if b in blocks then blocks else blocks + [b]
  {
    var next := if b in blocks then blocks else blocks + [b];
    assert [b][1..] == [];
    assert MergeBlocks(next, []) == next;
  }

  /** Requeueing one message, in either queue. */
  lemma OneRequeued(q: Queue, i: nat)
    requires i < |q.states| && i / MSGS_PER_BLOCK !in q.retryBlocks
    ensures NackToRetry(q, [i]) ==
      q.(states := q.states[i := Retry], retryBlocks := q.retryBlocks + [i / MSGS_PER_BLOCK])
    ensures SetAll(q.states, [i], Retry) == q.states[i := Retry]
  {
    var b := i / MSGS_PER_BLOCK;
    assert BlocksOf([i]) == [b];
    MergeOne(q.retryBlocks, b);
    assert SetAll(q.states, [i], Retry) == q.states[i := Retry];
  }

  /** Retrying the only waiting message, in either queue. */
  lemma OneRetried(q: Queue, mq: SimpleQueue, i: nat)
    requires i < |q.states| && (forall j :: 0 <= j < |q.states| ==> (q.states[j] == Retry <==> j == i))
    requires q.retryBlocks == [i / MSGS_PER_BLOCK] && mq.states == q.states
    ensures RetryAllNow(q) ==
      q.(states := q.states[i := SparseReady], redelivered := q.redelivered + {i}, retryBlocks := [],
      sparseBlocks := MergeBlocks(q.sparseBlocks, q.retryBlocks))
    ensures SimpleRetry(mq) == mq.(states := q.states[i := SparseReady], sparse := mq.sparse + [i])
  {
    hide Select, MergeBlocks;
    SelectIs(q.states, Retry, [i]);
  }

  function Without(s: Session, k: nat): (r: Session)
    requires k < |s.list|
  {
    s.(list := RemoveAt(s.list, k), credit := s.credit.Release(1))
  }

  /** One message requeued and retried, in both queues. */
  lemma Retried(rs: seq<Request>, s: Session, q: Queue, mq: SimpleQueue, k: nat)
    requires Reached(Unlimited, rs, Hybrid(s, q), Reference(s, mq)) && k < |s.list|
    requires q.retryBlocks == [] && mq.states == q.states
    ensures var e := s.list[k]; e.msg < |q.states| && var states := q.states[e.msg := SparseReady];
      Reached(Unlimited, rs + [NackReq(e.tag, One, Requeue)] + [RetryReq],
        Hybrid(Without(s, k),
          Queue(states, q.head, q.redelivered + {e.msg}, [], MergeBlocks(q.sparseBlocks, [e.msg / MSGS_PER_BLOCK]))),
        Reference(Without(s, k), SimpleQueue(states, mq.head, mq.sparse + [e.msg])))
  {
    hide Reached, NackToRetry, RetryAllNow, SimpleRetry, MergeBlocks;
    var e := s.list[k];
    ReachedAgree(Unlimited, rs, Hybrid(s, q), Reference(s, mq));
    assert Messages(s.list)[k] in Messages(s.list);
    RequeueNext(rs, s, q, mq, k);
    OneRequeued(q, e.msg);
    assert [] + [e.msg / MSGS_PER_BLOCK] == [e.msg / MSGS_PER_BLOCK];
    var q1 := q.(states := q.states[e.msg := Retry], retryBlocks := [e.msg / MSGS_PER_BLOCK]);
    RetryNext(rs + [NackReq(e.tag, One, Requeue)], Without(s, k), q1, mq.(states := q1.states));
    OneRetried(q1, mq.(states := q1.states), e.msg);
    assert q1.states[e.msg := SparseReady] == q.states[e.msg := SparseReady];
  }

  const ONE_BLOCK_HYBRID :=
    Hybrid(Session(3, Credit(Unlimited, 0), [], false), Queue([SparseReady, SparseReady], 2, {0, 1}, [], [0]))

  const ONE_BLOCK_REFERENCE := Reference(ONE_BLOCK_HYBRID.session, SimpleQueue([SparseReady, SparseReady], 2, [1, 0]))

  lemma OneBlockHalfway()
    ensures Reached(Unlimited, ONE_BLOCK[..4],
      Hybrid(Without(AllTaken(2), 1), Queue([Inflight, SparseReady], 2, {1}, [], [0])),
      Reference(Without(AllTaken(2), 1), SimpleQueue([Inflight, SparseReady], 2, [1])))
  {
    hide Reached, MergeBlocks;
    FirstDelivery(2);
    assert Uniform(2, Inflight) == [Inflight, Inflight];
    var rs, s := [PublishReq(2), DeliverReq(2)], AllTaken(2);
    Retried(rs, s, Queue([Inflight, Inflight], 2, {}, [], []), SimpleQueue([Inflight, Inflight], 2, []), 1);
    MergeOne([], 0);
    assert s.list[1] == Entry(2, 1);
    assert [Inflight, Inflight][1 := SparseReady] == [Inflight, SparseReady];
    assert [] + [0] == [0] && [] + [1] == [1] && {} + {1} == {1};
    assert ONE_BLOCK[..4] == rs + [NackReq(2, One, Requeue)] + [RetryReq];
  }

  lemma OneBlockReached()
    ensures Reached(Unlimited, ONE_BLOCK, ONE_BLOCK_HYBRID, ONE_BLOCK_REFERENCE)
  {
    hide Reached, MergeBlocks;
    OneBlockHalfway();
    var s := Without(AllTaken(2), 1);
    Retried(ONE_BLOCK[..4], s, Queue([Inflight, SparseReady], 2, {1}, [], [0]),
      SimpleQueue([Inflight, SparseReady], 2, [1]), 0);
    MergeOne([0], 0);
    assert s.list[0] == Entry(1, 0) && Without(s, 0) == ONE_BLOCK_HYBRID.session;
    assert [Inflight, SparseReady][0 := SparseReady] == [SparseReady, SparseReady];
    assert [1] + [0] == [1, 0] && {1} + {0} == {0, 1};
    assert ONE_BLOCK == ONE_BLOCK[..4] + [NackReq(1, One, Requeue)] + [RetryReq];
  }

  lemma OrderIs(states: seq<MsgState>, blocks: seq<nat>, list: seq<nat>)
    requires Distinct(blocks) && Listed(list, blocks) && Follows(list, blocks)
    requires forall i :: i in list <==> 0 <= i < |states| && i / MSGS_PER_BLOCK in blocks && states[i] == SparseReady
    ensures Order(states, SparseReady, blocks) == list
  {
    hide Order;
    OrderAscends(states, SparseReady, blocks);
    FollowsAscends(list, blocks);
    FollowsUnique(Order(states, SparseReady, blocks), list, blocks);
  }

  /** Within a block the hybrid queue serves ascending, 0 before 1, the reference queue 1 before 0. */
  lemma ServiceDiffersInBlock()
    ensures Reached(Unlimited, ONE_BLOCK, ONE_BLOCK_HYBRID, ONE_BLOCK_REFERENCE)
    ensures Delivered(ONE_BLOCK_HYBRID.queue, 2) == [0, 1] && SimpleDelivered(ONE_BLOCK_REFERENCE.queue, 2) == [1, 0]
  {
    hide Reached, Order;
    OneBlockReached();
    OrderIs([SparseReady, SparseReady], [0], [0, 1]);
  }

  const MIDDLE: seq<MsgState> := Uniform(255, Inflight)

  const TWO_BLOCKS_HYBRID := Hybrid(Session(258, Credit(Unlimited, 255), Tagged(2, Span(1, 255)), false),
    Queue([SparseReady] + MIDDLE + [SparseReady], 257, {0, 256}, [], [1, 0]))

  const TWO_BLOCKS_REFERENCE :=
    Reference(TWO_BLOCKS_HYBRID.session, SimpleQueue([SparseReady] + MIDDLE + [SparseReady], 257, [0, 256]))

  lemma LastRequeued()
    ensures Reached(Unlimited, TWO_BLOCKS[..3],
      Hybrid(Without(AllTaken(257), 256), Queue([Inflight] + MIDDLE + [Retry], 257, {}, [1], [])),
      Reference(Without(AllTaken(257), 256), SimpleQueue([Inflight] + MIDDLE + [Retry], 257, [])))
  {
    hide Reached, NackToRetry;
    var rs, s, q := [PublishReq(257), DeliverReq(257)], AllTaken(257), Queue(Uniform(257, Inflight), 257, {}, [], []);
    FirstDelivery(257);
    assert s.list[256] == Entry(257, 256);
    RequeueNext(rs, s, q, SimpleQueue(q.states, 257, []), 256);
    OneRequeued(q, 256);
    assert q.states[256 := Retry] == [Inflight] + MIDDLE + [Retry];
    assert [] + [1] == [1];
    assert TWO_BLOCKS[..3] == rs + [NackReq(257, One, Requeue)];
  }

  lemma FirstRequeued()
    ensures Reached(Unlimited, TWO_BLOCKS[..4],
      Hybrid(TWO_BLOCKS_HYBRID.session, Queue([Retry] + MIDDLE + [Retry], 257, {}, [1, 0], [])),
      Reference(TWO_BLOCKS_HYBRID.session, SimpleQueue([Retry] + MIDDLE + [Retry], 257, [])))
  {
    hide Reached, NackToRetry;
    var s, q := Without(AllTaken(257), 256), Queue([Inflight] + MIDDLE + [Retry], 257, {}, [1], []);
    LastRequeued();
    assert s.list[0] == Entry(1, 0);
    RequeueNext(TWO_BLOCKS[..3], s, q, SimpleQueue(q.states, 257, []), 0);
    OneRequeued(q, 0);
    assert q.states[0 := Retry] == [Retry] + MIDDLE + [Retry];
    assert [1] + [0] == [1, 0];
    assert RemoveAt(s.list, 0) == Tagged(2, Span(1, 255));
    assert TWO_BLOCKS[..4] == TWO_BLOCKS[..3] + [NackReq(1, One, Requeue)];
  }

  lemma BothRetried()
    ensures RetryAllNow(Queue([Retry] + MIDDLE + [Retry], 257, {}, [1, 0], [])) == TWO_BLOCKS_HYBRID.queue
    ensures SimpleRetry(SimpleQueue([Retry] + MIDDLE + [Retry], 257, [])) == TWO_BLOCKS_REFERENCE.queue
  {
    hide Select, MergeBlocks;
    var q := Queue([Retry] + MIDDLE + [Retry], 257, {}, [1, 0], []);
    SelectIs(q.states, Retry, [0, 256]);
    assert SetAll(q.states, [0, 256], SparseReady) == TWO_BLOCKS_HYBRID.queue.states;
    MergeNothing([1, 0]);
    assert RetryAllNow(q).redelivered == {0, 256};
    assert [] + [0, 256] == [0, 256];
  }

  lemma TwoBlocksReached()
    ensures Reached(Unlimited, TWO_BLOCKS, TWO_BLOCKS_HYBRID, TWO_BLOCKS_REFERENCE)
  {
    hide Reached, RetryAllNow, SimpleRetry;
    var s, q := TWO_BLOCKS_HYBRID.session, Queue([Retry] + MIDDLE + [Retry], 257, {}, [1, 0], []);
    FirstRequeued();
    RetryNext(TWO_BLOCKS[..4], s, q, SimpleQueue(q.states, 257, []));
    BothRetried();
    assert TWO_BLOCKS == TWO_BLOCKS[..4] + [RetryReq];
  }

  lemma MergeNothing(blocks: seq<nat>)
    requires |blocks| == 2 && blocks[0] != blocks[1]
    ensures MergeBlocks([], blocks) == blocks
  {
    MergeOne([blocks[0]], blocks[1]);
    assert blocks[1..] == [blocks[1]] && [] + [blocks[0]] == [blocks[0]];
    assert [blocks[0]] + [blocks[1]] == blocks;
    assert MergeBlocks([], blocks) == MergeBlocks([blocks[0]], blocks[1..]);
  }

  /** Across blocks the hybrid queue serves in the order of its list, 256 before 0, the reference
      queue 0 before 256. */
  lemma ServiceDiffersAcrossBlocks()
    ensures Reached(Unlimited, TWO_BLOCKS, TWO_BLOCKS_HYBRID, TWO_BLOCKS_REFERENCE)
    ensures Delivered(TWO_BLOCKS_HYBRID.queue, 2) == [256, 0]
    ensures SimpleDelivered(TWO_BLOCKS_REFERENCE.queue, 2) == [0, 256]
  {
    hide Reached, Order;
    TwoBlocksReached();
    var states := TWO_BLOCKS_HYBRID.queue.states;
    forall i | 0 <= i < |states| ensures states[i] == SparseReady <==> i == 0 || i == 256 { }
    OrderIs(states, [1, 0], [256, 0]);
  }
}
