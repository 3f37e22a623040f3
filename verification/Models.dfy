/** The repository's reference implementations: a queue that is a vector of states with a FIFO of
    retried messages, and a session that is a plain list of deliveries. */
module ReferenceModels {
  import opened Kernels
  import opened IntrusiveList
  import opened QueueSpec
  import opened Deliveries
  import opened SessionSpec

  /** The reference queue's state. */
  datatype SimpleQueue = SimpleQueue(states: seq<MsgState>, head: nat, sparse: seq<nat>)

  /** The FIFO holds the sparse-ready messages, once each; the sequential window the ready ones. */
  ghost predicate SimpleOk(q: SimpleQueue) {
    && q.head <= |q.states|
    && (forall i :: 0 <= i < |q.states| ==> (q.states[i] == Ready <==> i >= q.head))
    && Distinct(q.sparse)
    && (forall i :: i in q.sparse <==> 0 <= i < |q.states| && q.states[i] == SparseReady)
  }

  function SimpleDelivered(q: SimpleQueue, max: nat): (r: seq<nat>)
    requires q.head <= |q.states|
  {
    var direct := Min(max, |q.states| - q.head);
    Span(q.head, direct) + q.sparse[..Min(max - direct, |q.sparse|)]
  }

  function SimpleDeliver(q: SimpleQueue, max: nat): (r: SimpleQueue)
    requires q.head <= |q.states|
  {
    var direct := Min(max, |q.states| - q.head);
    SimpleQueue(SetAll(q.states, SimpleDelivered(q, max), Inflight), q.head + direct,
      q.sparse[Min(max - direct, |q.sparse|)..])
  }

  function SimpleRetry(q: SimpleQueue): (r: SimpleQueue) {
    var waiting := Select(q.states, Retry, 0, |q.states|);
    q.(states := SetAll(q.states, waiting, SparseReady), sparse := q.sparse + waiting)
  }

  function SimpleSettle(q: SimpleQueue, msgs: seq<nat>, reason: NackReason): (r: SimpleQueue) {
    q.(states := SetAll(q.states, msgs, SettledState(reason)))
  }

  /** The requeued messages a session remembers, so as to flag their redelivery. */
  function Remembered(requeued: set<nat>, msgs: seq<nat>, reason: NackReason): (r: set<nat>) {
    if reason == Requeue then requeued + (set i | i in msgs) else requeued - (set i | i in msgs)
  }

  class ModelQueue {
    var states: seq<MsgState>
    var sequentialHead: nat
    var sequentialTail: nat
    var sparseReady: seq<nat>

    ghost predicate Valid()
      reads this
    {
      sequentialHead <= sequentialTail == |states| && forall k :: 0 <= k < |sparseReady| ==> sparseReady[k] < |states|
    }

    function Abs(): (q: SimpleQueue)
      reads this
    {
      SimpleQueue(states, sequentialHead, sparseReady)
    }

    constructor ()
      ensures Valid() && Abs() == SimpleQueue([], 0, [])
    {
      states, sequentialHead, sequentialTail, sparseReady := [], 0, 0, [];
    }

    method Publish(count: nat)
      requires Valid()
      modifies this
      ensures Valid() && Abs() == old(Abs()).(states := old(states) + Uniform(count, Ready))
    {
      var end := sequentialTail + count;
      while |states| < end
        invariant |old(states)| <= |states| <= end && states == old(states) + Uniform(|states| - |old(states)|, Ready)
        invariant sequentialHead == old(sequentialHead) && sparseReady == old(sparseReady)
      {
        states := states + [Ready];
      }
      sequentialTail := end;
    }

    method DeliverDirect(max: nat) returns (out: seq<nat>, remaining: nat)
      requires Valid()
      modifies this`states, this`sequentialHead
      ensures Valid() && remaining <= max && out == Span(old(sequentialHead), max - remaining)
      ensures max - remaining == Min(max, |old(states)| - old(sequentialHead))
      ensures Abs() ==
        old(Abs()).(states := SetAll(old(states), out, Inflight), head := old(sequentialHead) + (max - remaining))
    {
      out, remaining := [], max;
      while remaining > 0 && sequentialHead < sequentialTail
        invariant Valid() && old(sequentialHead) <= sequentialHead
        invariant remaining + (sequentialHead - old(sequentialHead)) == max
        invariant out == Span(old(sequentialHead), sequentialHead - old(sequentialHead))
        invariant states == SetAll(old(states), out, Inflight)
      {
        SpanNext(old(sequentialHead), sequentialHead);
        SetOneMore(old(states), out, sequentialHead, Inflight);
        states := states[sequentialHead := Inflight];
        out := out + [sequentialHead];
        sequentialHead := sequentialHead + 1;
        remaining := remaining - 1;
      }
    }

    method DeliverSparse(max: nat) returns (out: seq<nat>)
      requires Valid()
      modifies this`states, this`sparseReady
      ensures Valid() && var n := Min(max, |old(sparseReady)|);
        && out == old(sparseReady)[..n]
        && Abs() == old(Abs()).(states := SetAll(old(states), out, Inflight), sparse := old(sparseReady)[n..])
    {
      out := [];
      var remaining: nat := max;
      while remaining > 0 && sparseReady != []
        invariant Valid() && remaining + |out| == max && old(sparseReady) == out + sparseReady
        invariant states == SetAll(old(states), out, Inflight)
      {
        var msg := sparseReady[0];
        SetOneMore(old(states), out, msg, Inflight);
        sparseReady := sparseReady[1..];
        states := states[msg := Inflight];
        out := out + [msg];
        remaining := remaining - 1;
      }
      assert old(sparseReady)[..|out|] == out && old(sparseReady)[|out|..] == sparseReady;
    }

    /** `deliver`: the sequential window first, then the FIFO of retried messages. */
    method Deliver(max: nat) returns (out: seq<nat>)
      requires Valid()
      modifies this
      ensures Valid() && out == SimpleDelivered(old(Abs()), max) && Abs() == SimpleDeliver(old(Abs()), max)
    {
      var direct, remaining := DeliverDirect(max);
      var sparse := DeliverSparse(remaining);
      SetAllTwice(old(states), direct, sparse, Inflight);
      out := direct + sparse;
    }

    /** `ack_id` and `nack_id_to_retry`. */
    method SettleId(msg: nat, reason: NackReason)
      requires Valid()
      modifies this`states
      ensures Valid()
      ensures states == (if msg < |old(states)| then old(states)[msg := SettledState(reason)] else old(states))
    {
      if msg < |states| {
        states := states[msg := SettledState(reason)];
      }
    }

    method RetryAllNow() returns (count: nat)
      requires Valid()
      modifies this
      ensures Valid() && Abs() == SimpleRetry(old(Abs())) && count == Count(old(states), Retry)
    {
      hide SetAll, Select;
      count := 0;
      ghost var q := Abs();
      NoneSelected(q.states, Retry, SparseReady);
      for k := 0 to |states|
        invariant Valid() && |states| == |q.states| && sequentialHead == q.head
        invariant sparseReady == q.sparse + Select(q.states, Retry, 0, k)
        invariant count == |Select(q.states, Retry, 0, k)|
        invariant states == SetAll(q.states, Select(q.states, Retry, 0, k), SparseReady)
      {
        SelectNext(q.states, Retry, k);
        SetOneMore(q.states, Select(q.states, Retry, 0, k), k, SparseReady);
        if states[k] == Retry {
          states := states[k := SparseReady];
          sparseReady := sparseReady + [k];
          count := count + 1;
        }
      }
      AscendingDistinct(Select(q.states, Retry, 0, |q.states|));
      CountIsLength(q.states, Retry, Select(q.states, Retry, 0, |q.states|));
    }

    method CountStates() returns (c: QueueCounts)
      requires Valid()
      ensures c == Counts(states)
    {
      hide Count;
      c := QueueCounts(|states|, 0, 0, 0, 0);
      NoCounts();
      for k := 0 to |states|
        invariant c == Counts(states[..k]).(published := |states|)
      {
        CountsNext(states, k);
        c := match states[k]
          case Ready => c.(ready := c.ready + 1)
          case SparseReady => c.(ready := c.ready + 1)
          case Inflight => c.(inflight := c.inflight + 1)
          case Acked => c.(acked := c.acked + 1)
          case Retry => c.(retry := c.retry + 1);
      }
      assert states[..|states|] == states;
    }
  }

  lemma SpanNext(start: nat, next: nat)
    requires start <= next
    ensures Span(start, next + 1 - start) == Span(start, next - start) + [next]
  {
  }

  lemma SetOneMore(states: seq<MsgState>, seqs: seq<nat>, i: nat, st: MsgState)
    requires i < |states|
    ensures SetAll(states, seqs + [i], st) == SetAll(states, seqs, st)[i := st]
  {
  }

  lemma NoCounts()
    ensures Counts([]) == QueueCounts(0, 0, 0, 0, 0)
  {
  }

  /** One more message adds one to the count of its state. */
  lemma CountsNext(states: seq<MsgState>, k: nat)
    requires k < |states|
    ensures var c := Counts(states[..k]);
      Counts(states[..k + 1]).(published := c.published) == match states[k]
        case Ready => c.(ready := c.ready + 1)
        case SparseReady => c.(ready := c.ready + 1)
        case Inflight => c.(inflight := c.inflight + 1)
        case Acked => c.(acked := c.acked + 1)
        case Retry => c.(retry := c.retry + 1)
  {
    assert states[..k + 1][..k] == states[..k];
  }

  lemma NoneSelected(states: seq<MsgState>, st: MsgState, to: MsgState)
    ensures Select(states, st, 0, 0) == [] && SetAll(states, [], to) == states
  {
  }

  lemma SelectNext(states: seq<MsgState>, st: MsgState, k: nat)
    requires k < |states|
    ensures Select(states, st, 0, k + 1) == Select(states, st, 0, k) + (if states[k] == st then [k] else [])
  {
  }

  datatype ModelDelivery = ModelDelivery(tag: nat, msg: nat, redelivered: bool)

  /** Deliveries without their flags. */
  function Plain(list: seq<ModelDelivery>): (r: seq<Entry>)
    ensures |r| == |list| && forall k :: 0 <= k < |r| ==> r[k] == Entry(list[k].tag, list[k].msg)
  {
    seq(|list|, k requires 0 <= k < |list| => Entry(list[k].tag, list[k].msg))
  }

  lemma PlainConcat(a: seq<ModelDelivery>, b: seq<ModelDelivery>)
    ensures Plain(a + b) == Plain(a) + Plain(b)
  {
  }

  function ModelGrant(prefetch: Prefetch, inFlight: nat, max: nat): (n: nat) {
    match prefetch
    case Unlimited => max
    case Limited(limit) => Min(max, SaturatingSub(limit, inFlight))
  }

  ghost predicate Flagged(list: seq<ModelDelivery>, requeued: set<nat>) {
    forall k :: 0 <= k < |list| ==> (list[k].redelivered <==> list[k].msg in requeued)
  }

  class ModelConsumerSession {
    var nextTag: nat
    const prefetch: Prefetch
    var inFlight: nat
    var unacked: seq<ModelDelivery>
    var requeued: set<nat>

    ghost predicate Valid()
      reads this
    {
      SessionOk(Abs())
    }

    function Abs(): (s: Session)
      reads this
    {
      Session(nextTag, Credit(prefetch, inFlight), Plain(unacked), false)
    }

    constructor (mode: Prefetch)
      requires mode.Limited? ==> mode.limit <= U32_MAX
      ensures Valid() && Abs() == NewSession(mode) && requeued == {}
    {
      nextTag, prefetch, inFlight, unacked, requeued := 1, mode, 0, [], {};
    }

    method DeliverFromQueue(queue: ModelQueue, max: nat) returns (delivered: seq<ModelDelivery>)
      requires Valid() && queue.Valid()
      modifies this`nextTag, this`inFlight, this`unacked, queue
      ensures queue.Valid() && var n := ModelGrant(prefetch, old(inFlight), max);
        && Plain(delivered) == Tagged(old(nextTag), SimpleDelivered(old(queue.Abs()), n))
        && Abs() == Receive(old(Abs()), SimpleDelivered(old(queue.Abs()), n))
        && queue.Abs() == SimpleDeliver(old(queue.Abs()), n)
      ensures Flagged(delivered, requeued)
    {
      hide SessionOk, Tagged, Receive, SimpleDeliver, SimpleDelivered;
      var available := ModelGrant(prefetch, inFlight, max);
      delivered := [];
      if available == 0 {
        NothingSimple(queue.Abs());
        NothingReceived(Abs());
        return;
      }
      var seqs := queue.Deliver(available);
      delivered := Record(seqs);
    }

    method Record(seqs: seq<nat>) returns (delivered: seq<ModelDelivery>)
      modifies this`nextTag, this`inFlight, this`unacked
      ensures Plain(delivered) == Tagged(old(nextTag), seqs) && Abs() == Receive(old(Abs()), seqs)
      ensures Flagged(delivered, requeued)
    {
      delivered := [];
      for k := 0 to |seqs|
        invariant |delivered| == k && Flagged(delivered, requeued)
        invariant nextTag == old(nextTag) + k && inFlight == old(inFlight) + k && unacked == old(unacked) + delivered
        invariant Plain(delivered) == Tagged(old(nextTag), seqs[..k])
      {
        assert seqs[..k + 1] == seqs[..k] + [seqs[k]];
        var d := ModelDelivery(nextTag, seqs[k], seqs[k] in requeued);
        nextTag := nextTag + 1;
        inFlight := inFlight + 1;
        unacked := unacked + [d];
        delivered := delivered + [d];
      }
      assert seqs[..|seqs|] == seqs;
      PlainConcat(old(unacked), delivered);
    }

    /** Settle one message in the queue and remember or forget it. */
    method SettleMessage(queue: ModelQueue, msg: nat, reason: NackReason)
      requires queue.Valid()
      modifies this`requeued, queue`states
      ensures queue.Valid() && queue.Abs() == SimpleSettle(old(queue.Abs()), [msg], reason)
      ensures requeued == Remembered(old(requeued), [msg], reason)
    {
      queue.SettleId(msg, reason);
      requeued := if reason == Requeue then requeued + {msg} else requeued - {msg};
    }

    /** `ack_one_inner` and `nack_one_inner`. */
    method SettleOne(queue: ModelQueue, tag: nat, reason: NackReason) returns (count: Option<nat>)
      requires Valid() && queue.Valid()
      modifies this`inFlight, this`unacked, this`requeued, queue`states
      ensures Valid() && queue.Valid()
      ensures count.Some? <==> HasTag(old(Abs()).list, tag)
      ensures count.None? ==> Abs() == old(Abs()) && queue.Abs() == old(queue.Abs()) && requeued == old(requeued)
      ensures count.Some? ==> var msgs := Messages(Taken(old(Abs()), tag, One));
        && count.value == |msgs| && Abs() == Settle(old(Abs()), tag, One)
        && queue.Abs() == SimpleSettle(old(queue.Abs()), msgs, reason)
        && requeued == Remembered(old(requeued), msgs, reason)
    {
      hide SessionOk, HasTag, TagIndex, SetAll;
      var pos := Position(tag);
      if pos == |unacked| {
        return None;
      }
      TagAt(Abs(), pos);
      SettleKeeps(Abs(), tag, One);
      assert Messages(Taken(Abs(), tag, One)) == [unacked[pos].msg];
      var d := unacked[pos];
      PlainWithout(unacked, pos);
      unacked := RemoveAt(unacked, pos);
      SettleMessage(queue, d.msg, reason);
      inFlight := inFlight - 1;
      count := Some(1);
    }

    /** Settle deliveries from the front while their tags are at most `tag`. */
    method SettleFront(queue: ModelQueue, tag: nat, reason: NackReason) returns (count: nat)
      requires queue.Valid() && inFlight == |unacked|
      modifies this`inFlight, this`unacked, this`requeued, queue`states
      ensures queue.Valid() && count <= |old(unacked)| && unacked == old(unacked)[count..] && inFlight == |unacked|
      ensures forall k :: 0 <= k < count ==> old(unacked)[k].tag <= tag
      ensures count < |old(unacked)| ==> old(unacked)[count].tag > tag
      ensures var msgs := Messages(Plain(old(unacked))[..count]);
        && queue.Abs() == SimpleSettle(old(queue.Abs()), msgs, reason)
        && requeued == Remembered(old(requeued), msgs, reason)
    {
      hide SimpleSettle, Remembered, Messages;
      count := 0;
      ghost var list := Plain(unacked);
      SettleNone(queue.Abs(), requeued, list, reason);
      while unacked != [] && unacked[0].tag <= tag
        invariant queue.Valid() && count <= |old(unacked)| && unacked == old(unacked)[count..] && inFlight == |unacked|
        invariant forall k :: 0 <= k < count ==> old(unacked)[k].tag <= tag
        invariant queue.Abs() == SimpleSettle(old(queue.Abs()), Messages(list[..count]), reason)
        invariant requeued == Remembered(old(requeued), Messages(list[..count]), reason)
      {
        SettleNext(old(queue.Abs()), old(requeued), list, count, reason);
        var d := unacked[0];
        unacked := unacked[1..];
        SettleMessage(queue, d.msg, reason);
        inFlight := inFlight - 1;
        count := count + 1;
      }
    }

    /** `ack_multiple_inner` and `nack_multiple_inner`. */
    method SettleMultiple(queue: ModelQueue, tag: nat, reason: NackReason) returns (count: Option<nat>)
      requires Valid() && queue.Valid()
      modifies this`inFlight, this`unacked, this`requeued, queue`states
      ensures Valid() && queue.Valid()
      ensures count.Some? <==> HasTag(old(Abs()).list, tag)
      ensures count.None? ==> Abs() == old(Abs()) && queue.Abs() == old(queue.Abs()) && requeued == old(requeued)
      ensures count.Some? ==> var msgs := Messages(Taken(old(Abs()), tag, Multiple));
        && count.value == |msgs| && Abs() == Settle(old(Abs()), tag, Multiple)
        && queue.Abs() == SimpleSettle(old(queue.Abs()), msgs, reason)
        && requeued == Remembered(old(requeued), msgs, reason)
    {
      hide HasTag, TagIndex, SimpleSettle, Remembered;
      var pos := Position(tag);
      if pos == |unacked| {
        return None;
      }
      TagAt(Abs(), pos);
      SettleKeeps(Abs(), tag, Multiple);
      PlainFrom(unacked, pos + 1);
      var n := SettleFront(queue, tag, reason);
      FrontLength(old(unacked), pos, n);
      count := Some(n);
    }

    /** `ack`, `nack` and `reject`: acknowledging settles as rejecting does. */
    method SettleTag(queue: ModelQueue, tag: nat, mode: Mode, reason: NackReason) returns (count: Option<nat>)
      requires Valid() && queue.Valid()
      modifies this`inFlight, this`unacked, this`requeued, queue`states
      ensures Valid() && queue.Valid()
      ensures count.Some? <==> HasTag(old(Abs()).list, tag)
      ensures count.None? ==> Abs() == old(Abs()) && queue.Abs() == old(queue.Abs()) && requeued == old(requeued)
      ensures count.Some? ==> var msgs := Messages(Taken(old(Abs()), tag, mode));
        && count.value == |msgs| && Abs() == Settle(old(Abs()), tag, mode)
        && queue.Abs() == SimpleSettle(old(queue.Abs()), msgs, reason)
        && requeued == Remembered(old(requeued), msgs, reason)
    {
      if mode == One {
        count := SettleOne(queue, tag, reason);
      } else {
        count := SettleMultiple(queue, tag, reason);
      }
    }

    method Cancel(queue: ModelQueue, disposition: Disposition) returns (total: nat)
      requires Valid() && queue.Valid()
      modifies this`inFlight, this`unacked, this`requeued, queue`states
      ensures Valid() && queue.Valid() && total == |old(Abs()).list|
      ensures Abs() == Cancelled(old(Abs())).(cancelled := false)
      ensures var msgs, reason := Messages(old(Abs()).list), CancelReason(disposition);
        && queue.Abs() == SimpleSettle(old(queue.Abs()), msgs, reason)
        && requeued == Remembered(old(requeued), msgs, reason)
    {
      hide SimpleSettle, Remembered, Messages;
      total := |unacked|;
      ghost var list := Plain(unacked);
      var all := unacked;
      unacked := [];
      inFlight := inFlight - total;
      SettleNone(queue.Abs(), requeued, list, CancelReason(disposition));
      for k := 0 to |all|
        invariant queue.Valid() && unacked == [] && inFlight == 0
        invariant queue.Abs() == SimpleSettle(old(queue.Abs()), Messages(list[..k]), CancelReason(disposition))
        invariant requeued == Remembered(old(requeued), Messages(list[..k]), CancelReason(disposition))
      {
        SettleNext(old(queue.Abs()), old(requeued), list, k, CancelReason(disposition));
        SettleMessage(queue, all[k].msg, CancelReason(disposition));
      }
      assert list[..|list|] == list;
    }

    method Position(tag: nat) returns (pos: nat)
      ensures pos <= |unacked| && (pos < |unacked| ==> unacked[pos].tag == tag)
      ensures pos < |unacked| <==> HasTag(Plain(unacked), tag)
    {
      pos := 0;
      while pos < |unacked| && unacked[pos].tag != tag
        invariant pos <= |unacked| && forall k :: 0 <= k < pos ==> unacked[k].tag != tag
      {
        pos := pos + 1;
      }
    }
  }

  lemma SettleNext(q: SimpleQueue, requeued: set<nat>, entries: seq<Entry>, k: nat, reason: NackReason)
    requires k < |entries|
    ensures var a, b, e := Messages(entries[..k]), Messages(entries[..k + 1]), [entries[k].msg];
      && SimpleSettle(SimpleSettle(q, a, reason), e, reason) == SimpleSettle(q, b, reason)
      && Remembered(Remembered(requeued, a, reason), e, reason) == Remembered(requeued, b, reason)
  {
    assert Messages(entries[..k + 1]) == Messages(entries[..k]) + [entries[k].msg];
    SetAllTwice(q.states, Messages(entries[..k]), [entries[k].msg], SettledState(reason));
  }

  lemma SettleNone(q: SimpleQueue, requeued: set<nat>, entries: seq<Entry>, reason: NackReason)
    ensures SimpleSettle(q, Messages(entries[..0]), reason) == q
    ensures Remembered(requeued, Messages(entries[..0]), reason) == requeued
  {
  }

  lemma NothingSimple(q: SimpleQueue)
    requires q.head <= |q.states|
    ensures SimpleDelivered(q, 0) == [] && SimpleDeliver(q, 0) == q
  {
  }

  lemma TagAt(s: Session, k: nat)
    requires SessionOk(s) && k < |s.list|
    ensures HasTag(s.list, s.list[k].tag) && TagIndex(s.list, s.list[k].tag) == k && s.credit.inFlight > 0
  {
    TagIndexIs(s.list, k);
  }

  lemma FrontLength(list: seq<ModelDelivery>, pos: nat, n: nat)
    requires TagsAscend(Plain(list)) && pos < |list| && n <= |list|
    requires forall k :: 0 <= k < n ==> list[k].tag <= list[pos].tag
    requires n < |list| ==> list[n].tag > list[pos].tag
    ensures n == pos + 1
  {
    var p := Plain(list);
    assert n < |list| ==> p[n].tag > p[pos].tag;
    assert pos + 1 < |list| ==> p[pos + 1].tag > p[pos].tag;
  }

  lemma PlainFrom(list: seq<ModelDelivery>, k: nat)
    requires k <= |list|
    ensures Plain(list[k..]) == Plain(list)[k..]
  {
  }

  lemma PlainWithout(list: seq<ModelDelivery>, k: nat)
    requires k < |list|
    ensures Plain(RemoveAt(list, k)) == RemoveAt(Plain(list), k)
  {
  }
}
