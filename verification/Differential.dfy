/** Driving the hybrid session and queue and the reference session and queue with the same
    requests keeps everything a user can observe equal, although the two may hold different
    messages. */
module Differential {
  import opened Kernels
  import opened IntrusiveList
  import opened QueueSpec
  import opened Deliveries
  import opened SessionSpec
  import opened ReferenceModels

  ghost predicate SameTags(a: seq<Entry>, b: seq<Entry>) {
    |a| == |b| && forall k :: 0 <= k < |a| ==> a[k].tag == b[k].tag
  }

  ghost predicate SameCounts(a: seq<MsgState>, b: seq<MsgState>) {
    |a| == |b| && forall st :: Count(a, st) == Count(b, st)
  }

  /** The reference session remembers every message that waits to be redelivered. */
  ghost predicate RemembersWaiting(q: SimpleQueue, requeued: set<nat>) {
    && (forall i :: 0 <= i < |q.states| && (q.states[i] == Retry || q.states[i] == SparseReady) ==> i in requeued)
    && (forall i :: i in requeued ==> i < q.head)
  }

  function AsQueue(q: SimpleQueue): (r: Queue) {
    Queue(q.states, q.head, {}, [], [])
  }

  /** What the two sides share. */
  ghost predicate Agree(s: Session, q: Queue, m: Session, mq: SimpleQueue) {
    && SessionOk(s) && Owns(s, q) && QueueSpec.Valid(q)
    && SessionOk(m) && !m.cancelled && Owns(m, AsQueue(mq)) && SimpleOk(mq)
    && SameTags(s.list, m.list) && s.nextTag == m.nextTag && s.credit == m.credit
    && q.head == mq.head && SameCounts(q.states, mq.states)
  }

  lemma AgreeInitially(mode: Prefetch)
    requires mode.Limited? ==> mode.limit <= U32_MAX
    ensures Agree(NewSession(mode), EMPTY_QUEUE, NewSession(mode), SimpleQueue([], 0, []))
    ensures RemembersWaiting(SimpleQueue([], 0, []), {})
  {
  }

  /** Agreement makes the observable counts equal. */
  lemma CountsAgree(a: seq<MsgState>, b: seq<MsgState>)
    requires SameCounts(a, b)
    ensures Counts(a) == Counts(b)
  {
  }

  lemma {:induction false} TagsAgree(a: seq<Entry>, b: seq<Entry>, tag: nat)
    requires SameTags(a, b)
    ensures HasTag(a, tag) <==> HasTag(b, tag)
    ensures HasTag(a, tag) ==> TagIndex(a, tag) == TagIndex(b, tag)
    decreases |a|
  {
    TagCarries(a, b, tag);
    TagCarries(b, a, tag);
    if HasTag(a, tag) && a[0].tag != tag {
      TagsAgree(a[1..], b[1..], tag);
    }
  }

  lemma TagCarries(a: seq<Entry>, b: seq<Entry>, tag: nat)
    requires SameTags(a, b)
    ensures HasTag(a, tag) ==> HasTag(b, tag)
  {
    if HasTag(a, tag) {
      var k :| 0 <= k < |a| && a[k].tag == tag;
      assert b[k].tag == tag;
    }
  }

  // ---- Publishing

  lemma PublishAgrees(s: Session, q: Queue, m: Session, mq: SimpleQueue, count: nat)
    requires Agree(s, q, m, mq)
    ensures Agree(s, Publish(q, count), m, mq.(states := mq.states + Uniform(count, Ready)))
  {
    hide SessionOk;
    PublishKeeps(q, count);
    forall st ensures Count(q.states + Uniform(count, Ready), st) == Count(mq.states + Uniform(count, Ready), st) {
      CountAppend(q.states, Uniform(count, Ready), st);
      CountAppend(mq.states, Uniform(count, Ready), st);
    }
  }

  // ---- Settling

  /** Moving equally many inflight messages to one state keeps the counts equal. */
  lemma SettleCounts(a: seq<MsgState>, b: seq<MsgState>, x: seq<nat>, y: seq<nat>, to: MsgState)
    requires SameCounts(a, b) && |x| == |y| && Distinct(x) && Distinct(y) && to != Inflight
    requires forall i :: i in x ==> i < |a| && a[i] == Inflight
    requires forall i :: i in y ==> i < |b| && b[i] == Inflight
    ensures SameCounts(SetAll(a, x, to), SetAll(b, y, to))
  {
    CountSetAll(a, x, Inflight, to);
    CountSetAll(b, y, Inflight, to);
  }

  lemma SettleAgrees(s: Session, q: Queue, m: Session, mq: SimpleQueue, tag: nat, mode: Mode, order: seq<nat>,
      reason: NackReason)
    requires Agree(s, q, m, mq) && HasTag(s.list, tag) && multiset(order) == multiset(Messages(Taken(s, tag, mode)))
    ensures HasTag(m.list, tag) && |Taken(m, tag, mode)| == |order|
    ensures Agree(Settle(s, tag, mode), Disposed(q, order, reason), Settle(m, tag, mode),
      SimpleSettle(mq, Messages(Taken(m, tag, mode)), reason))
  {
    hide SessionOk, HasTag, TagIndex, SetAll, QueueSpec.Valid, MergeBlocks, Messages;
    SettledTags(s, m, tag, mode);
    var msgs := Messages(Taken(m, tag, mode));
    SettleOwned(s, q, tag, mode, order, reason);
    SettleOwned(m, AsQueue(mq), tag, mode, msgs, reason);
    SettleKeeps(s, tag, mode);
    SettleKeeps(m, tag, mode);
    DisposedKeeps(q, order, reason);
    SimpleSettleKeeps(mq, msgs, reason);
    SettleCounts(q.states, mq.states, order, msgs, SettledState(reason));
  }

  lemma SettledTags(s: Session, m: Session, tag: nat, mode: Mode)
    requires SameTags(s.list, m.list) && HasTag(s.list, tag)
    ensures HasTag(m.list, tag) && |Taken(s, tag, mode)| == |Taken(m, tag, mode)|
    ensures SameTags(Unsettled(s, tag, mode), Unsettled(m, tag, mode))
  {
    hide HasTag, TagIndex;
    TagsAgree(s.list, m.list, tag);
  }

  lemma SimpleSettleKeeps(q: SimpleQueue, msgs: seq<nat>, reason: NackReason)
    requires SimpleOk(q) && AllInflight(AsQueue(q), msgs)
    ensures SimpleOk(SimpleSettle(q, msgs, reason))
  {
  }

  lemma RemembersSettled(q: SimpleQueue, requeued: set<nat>, msgs: seq<nat>, reason: NackReason)
    requires SimpleOk(q) && RemembersWaiting(q, requeued) && AllInflight(AsQueue(q), msgs)
    ensures RemembersWaiting(SimpleSettle(q, msgs, reason), Remembered(requeued, msgs, reason))
  {
  }

  lemma CancelAgrees(s: Session, q: Queue, m: Session, mq: SimpleQueue, order: seq<nat>, d: Disposition)
    requires Agree(s, q, m, mq) && multiset(order) == multiset(Messages(s.list))
    ensures Agree(Cancelled(s), Disposed(q, order, CancelReason(d)), Cancelled(m).(cancelled := false),
      SimpleSettle(mq, Messages(m.list), CancelReason(d)))
  {
    hide SetAll, QueueSpec.Valid, MergeBlocks, Messages;
    SameMultiset(order, Messages(s.list));
    DisposedKeeps(q, order, CancelReason(d));
    SimpleSettleKeeps(mq, Messages(m.list), CancelReason(d));
    SettleCounts(q.states, mq.states, order, Messages(m.list), SettledState(CancelReason(d)));
    assert Messages([]) == [];
  }

  // ---- Retrying

  lemma RetryAgrees(s: Session, q: Queue, m: Session, mq: SimpleQueue)
    requires Agree(s, q, m, mq)
    ensures Agree(s, RetryAllNow(q), m, SimpleRetry(mq))
  {
    hide SessionOk, SetAll, QueueSpec.Valid, MergeBlocks, Messages, Select, Count;
    RetryKeeps(q);
    SimpleRetryKeeps(mq);
    var a, b := Select(q.states, Retry, 0, |q.states|), Select(mq.states, Retry, 0, |mq.states|);
    AscendingDistinct(a);
    AscendingDistinct(b);
    CountIsLength(q.states, Retry, a);
    CountIsLength(mq.states, Retry, b);
    CountSetAll(q.states, a, Retry, SparseReady);
    CountSetAll(mq.states, b, Retry, SparseReady);
  }

  lemma SimpleRetryKeeps(q: SimpleQueue)
    requires SimpleOk(q)
    ensures SimpleOk(SimpleRetry(q))
  {
    var waiting := Select(q.states, Retry, 0, |q.states|);
    AscendingDistinct(waiting);
    DistinctConcat(q.sparse, waiting);
  }

  lemma RemembersRetried(q: SimpleQueue, requeued: set<nat>)
    requires SimpleOk(q) && RemembersWaiting(q, requeued)
    ensures RemembersWaiting(SimpleRetry(q), requeued)
  {
  }

  // ---- Delivering

  /** The reference queue also hands out min(max, ready) messages, the sequential window first. */
  lemma SimpleDeliveredAre(q: SimpleQueue, max: nat)
    requires SimpleOk(q)
    ensures var seqs, direct := SimpleDelivered(q, max), Min(max, |q.states| - q.head);
      && Distinct(seqs) && |seqs| == Min(max, ReadyCount(AsQueue(q))) && 0 <= direct <= |seqs|
      && seqs[..direct] == Span(q.head, direct)
      && (forall i :: i in seqs[direct..] ==> i < |q.states| && q.states[i] == SparseReady)
      && (forall i :: i in seqs ==> i < |q.states| && q.states[i] != Inflight)
  {
    hide Count, Span;
    var direct := Min(max, |q.states| - q.head);
    var rest := q.sparse[..Min(max - direct, |q.sparse|)];
    CountIsLength(q.states, Ready, Span(q.head, |q.states| - q.head));
    CountIsLength(q.states, SparseReady, q.sparse);
    assert forall i :: i in rest ==> i in q.sparse;
    DistinctConcat(Span(q.head, direct), rest);
    assert SimpleDelivered(q, max)[direct..] == rest;
  }

  lemma FifoSplit(states: seq<MsgState>, head: nat, direct: nat, a: seq<nat>, b: seq<nat>)
    requires head + direct <= |states| && forall i :: 0 <= i < |states| ==> (states[i] == Ready <==> i >= head)
    requires forall i :: i in a || i in b <==> 0 <= i < |states| && states[i] == SparseReady
    requires forall i :: i in a ==> i !in b
    ensures var r := SetAll(states, Span(head, direct) + a, Inflight);
      && (forall i :: 0 <= i < |r| ==> (r[i] == Ready <==> i >= head + direct))
      && (forall i :: i in b <==> 0 <= i < |r| && r[i] == SparseReady)
  {
    hide Span;
    var handed := Span(head, direct) + a;
    assert forall i :: i in handed <==> i in Span(head, direct) || i in a;
  }

  lemma SimpleDeliverKeeps(q: SimpleQueue, max: nat)
    requires SimpleOk(q)
    ensures SimpleOk(SimpleDeliver(q, max))
  {
    hide Span, SetAll;
    var direct := Min(max, |q.states| - q.head);
    var n := Min(max - direct, |q.sparse|);
    var a, b := q.sparse[..n], q.sparse[n..];
    assert q.sparse == a + b;
    DisjointParts(a, b);
    assert forall i :: i in q.sparse <==> i in a || i in b;
    FifoSplit(q.states, q.head, direct, a, b);
  }

  /** Delivering moves `direct` ready and `rest` sparse-ready messages to inflight. */
  function HandedOut(st: MsgState, direct: nat, rest: nat): (d: int) {
    Shift(st, Ready, Inflight, direct) + Shift(st, SparseReady, Inflight, rest)
  }

  lemma HandOutCounts(states: seq<MsgState>, seqs: seq<nat>, direct: nat)
    requires Distinct(seqs) && direct <= |seqs|
    requires forall i :: i in seqs[..direct] ==> i < |states| && states[i] == Ready
    requires forall i :: i in seqs[direct..] ==> i < |states| && states[i] == SparseReady
    ensures forall st ::
      Count(SetAll(states, seqs, Inflight), st) == Count(states, st) + HandedOut(st, direct, |seqs| - direct)
  {
    hide Count, SetAll;
    var a, b := seqs[..direct], seqs[direct..];
    assert seqs == a + b;
    DisjointParts(a, b);
    forall st
      ensures Count(SetAll(states, seqs, Inflight), st) == Count(states, st) + HandedOut(st, direct, |seqs| - direct)
    {
      HandOutBoth(states, a, b, st);
    }
  }

  lemma HandOutBoth(states: seq<MsgState>, a: seq<nat>, b: seq<nat>, st: MsgState)
    requires Distinct(a) && Distinct(b)
    requires forall i :: i in a ==> i < |states| && states[i] == Ready
    requires forall i :: i in b ==> i < |states| && states[i] == SparseReady
    ensures Count(SetAll(states, a + b, Inflight), st) == Count(states, st) + HandedOut(st, |a|, |b|)
  {
    hide Count;
    var mid := SetAll(states, a, Inflight);
    CountSetAll(states, a, Ready, Inflight);
    CountSetAll(mid, b, SparseReady, Inflight);
    SetAllTwice(states, a, b, Inflight);
  }

  lemma SpanIsReady(states: seq<MsgState>, head: nat, n: nat)
    requires head + n <= |states| && forall i :: 0 <= i < |states| ==> (states[i] == Ready <==> i >= head)
    ensures forall i :: i in Span(head, n) ==> i < |states| && states[i] == Ready
  {
  }

  lemma DeliverSameCounts(q: Queue, mq: SimpleQueue, n: nat)
    requires QueueSpec.Valid(q) && SimpleOk(mq) && q.head == mq.head && SameCounts(q.states, mq.states)
    ensures |Delivered(q, n)| == |SimpleDelivered(mq, n)|
    ensures SameCounts(Deliver(q, n).states, SimpleDeliver(mq, n).states)
  {
    hide Count, SetAll, Span, Delivered, SimpleDelivered, StillHolding, Indexes;
    DeliveredAre(q, n);
    SimpleDeliveredAre(mq, n);
    var direct := Min(n, |q.states| - q.head);
    var x, y := Delivered(q, n), SimpleDelivered(mq, n);
    SpanIsReady(q.states, q.head, direct);
    SpanIsReady(mq.states, q.head, direct);
    HandOutCounts(q.states, x, direct);
    HandOutCounts(mq.states, y, direct);
  }

  /** Both sides grant the same credit. */
  lemma GrantsAgree(s: Session, max: nat)
    requires SessionOk(s) && !s.cancelled && max <= U32_MAX
    ensures ModelGrant(s.credit.mode, s.credit.inFlight, max) == Grant(s, max)
  {
  }

  lemma DeliverAgrees(s: Session, q: Queue, m: Session, mq: SimpleQueue, max: nat)
    requires Agree(s, q, m, mq) && !s.cancelled && max <= U32_MAX
    ensures var n := ModelGrant(m.credit.mode, m.credit.inFlight, max);
      && |Handed(q, s, max)| == |SimpleDelivered(mq, n)|
      && Agree(Receive(s, Handed(q, s, max)), DeliverQueue(q, s, max), Receive(m, SimpleDelivered(mq, n)),
        SimpleDeliver(mq, n))
  {
    hide SetAll, Indexes, StillHolding, Messages, Delivered, SimpleDelivered, Count, TagsAscend;
    var n := Grant(s, max);
    GrantsAgree(s, max);
    DeliverSameCounts(q, mq, n);
    ReceiveOwned(s, q, max);
    if n == 0 {
      NothingSimple(mq);
      NothingReceived(s);
      NothingReceived(m);
    } else {
      DeliverKeeps(q, n);
      SimpleDeliverKeeps(mq, n);
      DeliveredAre(q, n);
      ReceiveKeeps(s, Delivered(q, n));
      ReceiveKeeps(m, SimpleDelivered(mq, n));
      SimpleReceiveOwned(m, mq, n);
    }
  }

  lemma SimpleReceiveOwned(m: Session, q: SimpleQueue, n: nat)
    requires SimpleOk(q) && Owns(m, AsQueue(q))
    ensures Owns(Receive(m, SimpleDelivered(q, n)), AsQueue(SimpleDeliver(q, n)))
  {
    hide SetAll, SimpleDelivered, Messages, Count;
    var msgs := SimpleDelivered(q, n);
    SimpleDeliveredAre(q, n);
    MessagesConcat(m.list, Tagged(m.nextTag, msgs));
    TaggedMessages(m.nextTag, msgs);
    DistinctConcat(Messages(m.list), msgs);
    assert forall i :: i in Messages(m.list) + msgs ==> i in Messages(m.list) || i in msgs;
  }

  lemma RemembersDelivered(q: SimpleQueue, requeued: set<nat>, n: nat)
    requires SimpleOk(q) && RemembersWaiting(q, requeued)
    ensures RemembersWaiting(SimpleDeliver(q, n), requeued)
  {
    hide SimpleDelivered;
  }

  /** Delivery by delivery, both sides put the redelivered flag on the same tags: the first
      deliveries come first, and everything after them has been delivered before. */
  lemma FlagsAgree(s: Session, q: Queue, m: Session, mq: SimpleQueue, requeued: set<nat>, n: nat, k: nat)
    requires Agree(s, q, m, mq) && RemembersWaiting(mq, requeued) && k < |Delivered(q, n)|
    ensures k < |SimpleDelivered(mq, n)|
    ensures Delivered(q, n)[k] in q.redelivered <==> SimpleDelivered(mq, n)[k] in requeued
  {
    hide Delivered, SimpleDelivered, Count, Indexes, Span;
    DeliverSameCounts(q, mq, n);
    DeliveredAre(q, n);
    SimpleDeliveredAre(mq, n);
    var direct := Min(n, |q.states| - q.head);
    AtPosition(Delivered(q, n), direct, k);
    AtPosition(SimpleDelivered(mq, n), direct, k);
  }

  lemma AtPosition(s: seq<nat>, direct: nat, k: nat)
    requires direct <= |s| && k < |s|
    ensures s[k] in if k < direct then s[..direct] else s[direct..]
  {
    if k < direct { assert s[k] == s[..direct][k]; } else { assert s[k] == s[direct..][k - direct]; }
  }

  // ---- Requests and runs

  datatype Request =
    | PublishReq(count: nat)
    | DeliverReq(max: nat)
    | AckReq(tag: nat, mode: Mode)
    | NackReq(tag: nat, mode: Mode, reason: NackReason)
    | RetryReq

  /** Delivery counts are 32-bit. */
  predicate RequestOk(r: Request) {
    r.DeliverReq? ==> r.max <= U32_MAX
  }

  predicate Settles(r: Request) {
    r.AckReq? || r.NackReq?
  }

  function ReasonOf(r: Request): (reason: NackReason) {
    if r.NackReq? then r.reason else NackReason.Reject
  }

  datatype Hybrid = Hybrid(session: Session, queue: Queue)

  datatype Reference = Reference(session: Session, queue: SimpleQueue)

  /** The window may list the settled messages in any order. */
  ghost predicate OrderFor(s: Session, r: Request, order: seq<nat>) {
    Settles(r) && HasTag(s.list, r.tag) ==> multiset(order) == multiset(Messages(Taken(s, r.tag, r.mode)))
  }

  ghost function HybridAfter(h: Hybrid, r: Request, order: seq<nat>): (n: Hybrid)
    requires h.queue.head <= |h.queue.states|
    ensures n.queue.head <= |n.queue.states|
  {
    var s, q := h.session, h.queue;
    match r
    case PublishReq(count) => h.(queue := Publish(q, count))
    case DeliverReq(max) => Hybrid(Receive(s, Handed(q, s, max)), DeliverQueue(q, s, max))
    case RetryReq => h.(queue := RetryAllNow(q))
    case _ =>
      if SettleError(s, r.tag).Some? then h else Hybrid(Settle(s, r.tag, r.mode), Disposed(q, order, ReasonOf(r)))
  }

  function ReferenceAfter(m: Reference, r: Request): (n: Reference)
    requires m.queue.head <= |m.queue.states|
    ensures n.queue.head <= |n.queue.states|
  {
    var s, q := m.session, m.queue;
    match r
    case PublishReq(count) => m.(queue := q.(states := q.states + Uniform(count, Ready)))
    case DeliverReq(max) =>
      var n := ModelGrant(s.credit.mode, s.credit.inFlight, max);
      Reference(Receive(s, SimpleDelivered(q, n)), SimpleDeliver(q, n))
    case RetryReq => m.(queue := SimpleRetry(q))
    case _ =>
      if !HasTag(s.list, r.tag) then m
      else Reference(Settle(s, r.tag, r.mode), SimpleSettle(q, Messages(Taken(s, r.tag, r.mode)), ReasonOf(r)))
  }

  /** Along the run no more messages are outstanding than a 32-bit credit can count. */
  ghost predicate OutstandingFits(m: Reference, rs: seq<Request>)
    requires m.queue.head <= |m.queue.states|
    decreases |rs|
  {
    rs != [] ==> var n := ReferenceAfter(m, rs[0]); |n.session.list| <= U32_MAX && OutstandingFits(n, rs[1..])
  }

  /** One request keeps the two sides in agreement. */
  lemma RequestAgrees(h: Hybrid, m: Reference, r: Request, order: seq<nat>)
    requires Agree(h.session, h.queue, m.session, m.queue) && !h.session.cancelled
    requires RequestOk(r) && OrderFor(h.session, r, order)
    ensures h.queue.head <= |h.queue.states| && m.queue.head <= |m.queue.states|
    ensures var h', m' := HybridAfter(h, r, order), ReferenceAfter(m, r);
      Agree(h'.session, h'.queue, m'.session, m'.queue) && !h'.session.cancelled
  {
    hide Publish, Receive, DeliverQueue, Handed, RetryAllNow, Settle, Disposed, SimpleDelivered, SimpleDeliver;
    hide SimpleRetry, SimpleSettle, Taken, HasTag;
    var s, q, ms, mq := h.session, h.queue, m.session, m.queue;
    AgreeMeans(s, q, ms, mq);
    match r
    case PublishReq(count) => PublishAgrees(s, q, ms, mq, count);
    case DeliverReq(max) => DeliverAgrees(s, q, ms, mq, max); StillOpenAfter(s, Handed(q, s, max));
    case RetryReq => RetryAgrees(s, q, ms, mq);
    case _ =>
      TagsAgree(s.list, ms.list, r.tag);
      FailsIffNotOutstanding(s, r.tag);
      if HasTag(s.list, r.tag) {
        SettleAgrees(s, q, ms, mq, r.tag, r.mode, order, ReasonOf(r));
        StillOpen(s, r.tag, r.mode);
      }
  }

  /** One request on both sides. */
  ghost predicate Advances(h: Hybrid, m: Reference, r: Request, order: seq<nat>, h': Hybrid, m': Reference) {
    && RequestOk(r) && OrderFor(h.session, r, order)
    && h.queue.head <= |h.queue.states| && m.queue.head <= |m.queue.states|
    && h' == HybridAfter(h, r, order) && m' == ReferenceAfter(m, r)
  }

  /** The pairs that a sequence of requests leads to from a new session and an empty queue on both sides. */
  ghost predicate Reached(mode: Prefetch, rs: seq<Request>, h: Hybrid, m: Reference)
    decreases |rs|
  {
    if rs == [] then
      h == Hybrid(NewSession(mode), EMPTY_QUEUE) && m == Reference(NewSession(mode), SimpleQueue([], 0, []))
    else
      var init, last := rs[..|rs| - 1], rs[|rs| - 1];
      exists h0, m0, order :: Reached(mode, init, h0, m0) && Advances(h0, m0, last, order, h, m)
  }

  lemma ReachNext(mode: Prefetch, rs: seq<Request>, h: Hybrid, m: Reference, r: Request, order: seq<nat>, h': Hybrid,
      m': Reference)
    requires Reached(mode, rs, h, m) && Advances(h, m, r, order, h', m')
    ensures Reached(mode, rs + [r], h', m')
  {
    hide Advances;
    var all := rs + [r];
    assert all[..|all| - 1] == rs && all[|all| - 1] == r;
  }

  /** Every reachable pair agrees on all that can be observed. */
  lemma {:induction false} ReachedAgree(mode: Prefetch, rs: seq<Request>, h: Hybrid, m: Reference)
    requires (mode.Limited? ==> mode.limit <= U32_MAX) && Reached(mode, rs, h, m)
    ensures Agree(h.session, h.queue, m.session, m.queue) && !h.session.cancelled
    decreases |rs|
  {
    hide Agree, HybridAfter, ReferenceAfter, OrderFor;
    if rs == [] {
      AgreeInitially(mode);
    } else {
      var init, last := rs[..|rs| - 1], rs[|rs| - 1];
      var h0, m0, order :| Reached(mode, init, h0, m0) && Advances(h0, m0, last, order, h, m);
      ReachedAgree(mode, init, h0, m0);
      RequestAgrees(h0, m0, last, order);
    }
  }

  lemma StillOpenAfter(s: Session, msgs: seq<nat>)
    ensures Receive(s, msgs).cancelled == s.cancelled
  {
  }

  lemma AgreeMeans(s: Session, q: Queue, m: Session, mq: SimpleQueue)
    requires Agree(s, q, m, mq)
    ensures SessionOk(s) && SessionOk(m) && !m.cancelled
    ensures Owns(s, q) && Owns(m, AsQueue(mq)) && QueueSpec.Valid(q) && SimpleOk(mq)
    ensures SameTags(s.list, m.list) && s.credit == m.credit && s.nextTag == m.nextTag
    ensures Counts(q.states) == Counts(mq.states) && ReadyCount(q) == ReadyCount(AsQueue(mq))
  {
    CountsAgree(q.states, mq.states);
  }
}
