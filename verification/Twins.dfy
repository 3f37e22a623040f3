/** The random differential test of the repository, for every request sequence: the hybrid pair
    and the reference pair are driven side by side and their replies compared. */
module TwinDrive {
  import opened Words
  import opened Kernels
  import opened IntrusiveList
  import opened QueueSpec
  import opened Blocks
  import opened Deliveries
  import opened DeliveryWindow
  import opened HybridQueue
  import opened SessionSpec
  import opened ConsumerSessions
  import opened ReferenceModels
  import opened Differential

  /** Everything the comparison looks at after a request. */
  datatype Reply = Reply(
    ok: bool, count: nat, delivered: seq<(nat, bool)>, counts: QueueCounts, unacked: nat, outstanding: seq<nat>,
    inFlight: nat, nextTag: nat)

  /** The tags of one announced segment with its redelivered flag. */
  function SegmentTags(s: TaggedSegment): (r: seq<(nat, bool)>) {
    var n := if s.TaggedRange? then s.range.len else PopCount(s.mask.mask);
    seq(n, k requires 0 <= k => (s.firstTag + k, s.redelivered))
  }

  /** The tags of a delivery, flagged. */
  function FlaggedTags(out: seq<TaggedSegment>): (r: seq<(nat, bool)>) {
    if out == [] then [] else FlaggedTags(out[..|out| - 1]) + SegmentTags(out[|out| - 1])
  }

  lemma {:induction false} FlaggedTagsAre(out: seq<TaggedSegment>, redelivered: set<nat>)
    requires OutOk(out) && FlagsRight(out, redelivered)
    ensures var all := Announced(out);
      |FlaggedTags(out)| == |all|
      && forall k :: 0 <= k < |all| ==> FlaggedTags(out)[k] == (all[k].tag, all[k].msg in redelivered)
  {
    hide MaskSeqs, Span, PopCount;
    if out == [] {
    } else {
      var init, last := out[..|out| - 1], out[|out| - 1];
      FlaggedTagsAre(init, redelivered);
      SegmentTagsAre(last, redelivered);
    }
  }

  lemma SegmentTagsAre(s: TaggedSegment, redelivered: set<nat>)
    requires s.TaggedMask? ==> s.mask.word < WORDS_PER_BLOCK
    requires forall i :: i in s.Seqs() ==> (s.redelivered <==> i in redelivered)
    ensures var all := Tagged(s.firstTag, s.Seqs());
      |SegmentTags(s)| == |all|
      && forall k :: 0 <= k < |all| ==> SegmentTags(s)[k] == (all[k].tag, all[k].msg in redelivered)
  {
    hide MaskSeqs, Span, PopCount;
    var seqs := s.Seqs();
    forall k | 0 <= k < |seqs| ensures s.redelivered <==> seqs[k] in redelivered { assert seqs[k] in seqs; }
  }

  function ModelTags(list: seq<ModelDelivery>): (r: seq<(nat, bool)>) {
    seq(|list|, k requires 0 <= k < |list| => (list[k].tag, list[k].redelivered))
  }

  function Published(requests: seq<Request>): (n: nat) {
    if requests == [] then 0 else
      Published(requests[..|requests| - 1]) +
        (if requests[|requests| - 1].PublishReq? then requests[|requests| - 1].count else 0)
  }

  /** `None` acknowledges. */
  function Settlement(tag: nat, mode: Mode, reason: Option<NackReason>): (r: Request) {
    if reason.None? then AckReq(tag, mode) else NackReq(tag, mode, reason.value)
  }

  lemma SameFlaggedTags(out: seq<TaggedSegment>, delivered: seq<ModelDelivery>, redelivered: set<nat>)
    requires OutOk(out) && FlagsRight(out, redelivered) && SameTags(Announced(out), Plain(delivered))
    requires forall k :: 0 <= k < |delivered| ==>
      (delivered[k].redelivered <==> Announced(out)[k].msg in redelivered)
    ensures FlaggedTags(out) == ModelTags(delivered)
  {
    hide FlaggedTags, Announced, FlagsRight, OutOk;
    FlaggedTagsAre(out, redelivered);
    var all := Announced(out);
    forall k | 0 <= k < |delivered| ensures FlaggedTags(out)[k] == ModelTags(delivered)[k] {
      assert all[k].tag == Plain(delivered)[k].tag;
    }
  }

  class Twins {
    const queue: HybridRangeBlockQueue
    const session: ConsumerSession
    const modelQueue: ModelQueue
    const modelSession: ModelConsumerSession

    ghost predicate Agreed()
      reads queue, queue.Repr, session, session.window, modelQueue, modelSession
    {
      && session !in queue.Repr && session.window !in queue.Repr && modelQueue !in queue.Repr
        && modelSession !in queue.Repr
      && queue.Inv() && session.Valid() && modelQueue.Valid() && modelSession.Valid()
      && Agree(session.Abs(), queue.Abs(), modelSession.Abs(), modelQueue.Abs())
      && RemembersWaiting(modelQueue.Abs(), modelSession.requeued)
    }

    ghost function Modelled(): (m: Reference)
      reads modelQueue, modelSession
    {
      Reference(modelSession.Abs(), modelQueue.Abs())
    }

    ghost predicate Open()
      reads session
    {
      !session.cancelled
    }

    constructor (mode: Prefetch)
      requires mode.Limited? ==> mode.limit <= U32_MAX
      ensures Agreed() && Open() && queue.nextSeq == 0 && modelSession.prefetch == mode
      ensures Modelled() == Reference(NewSession(mode), SimpleQueue([], 0, []))
      ensures fresh(queue.Repr) && fresh(session) && fresh(session.window) && fresh(modelQueue) && fresh(modelSession)
    {
      hide ListOk, BlocksOk, States, Redelivered, Realises, Outstanding, SegmentsOk, AllBelow, Agree, RemembersWaiting;
      var q := new HybridRangeBlockQueue.Empty();
      var s := new ConsumerSession(mode);
      var mq := new ModelQueue();
      var ms := new ModelConsumerSession(mode);
      queue, session, modelQueue, modelSession := q, s, mq, ms;
      new;
      AgreeInitially(mode);
    }

    /** Both sides tag the same deliveries and flag the same ones as redelivered. */
    method Deliver(max: nat) returns (r: Result<nat>, out: seq<TaggedSegment>, delivered: seq<ModelDelivery>)
      requires Agreed() && Open() && max <= U32_MAX
      requires session.credit.mode.Unlimited? ==> session.credit.inFlight + Min(max, ReadyCount(queue.Abs())) <= U32_MAX
      modifies queue.Repr, session, session.window, modelQueue, modelSession
      ensures Agreed() && Open() && queue.nextSeq == old(queue.nextSeq)
      ensures Modelled() == ReferenceAfter(old(Modelled()), DeliverReq(max))
      ensures r == Success(|delivered|) && OutOk(out) && SameTags(Announced(out), Plain(delivered))
      ensures FlagsRight(out, old(queue.Abs()).redelivered)
      ensures forall k :: 0 <= k < |delivered| ==>
        (delivered[k].redelivered <==> Announced(out)[k].msg in old(queue.Abs()).redelivered)
    {
      hide Agree, ListOk, BlocksOk, States, Redelivered, Realises, Outstanding, SegmentsOk, AllBelow, Announced, OutOk,
        FlagsRight, SessionOk, RemembersWaiting, SimpleDelivered, SimpleDeliver, Handed, DeliverQueue, Receive, Count;
      ghost var s, q, m, mq := session.Abs(), queue.Abs(), modelSession.Abs(), modelQueue.Abs();
      DeliverReady(s, q, m, mq, modelSession.requeued, max);
      r, out := session.DeliverFromQueue(queue, max);
      label Mid:
      delivered := modelSession.DeliverFromQueue(modelQueue, max);
      assert unchanged@Mid(queue.Repr);
      assert queue.Inv() && queue.Abs() == old@Mid(queue.Abs());
      AgreeMeans(session.Abs(), queue.Abs(), modelSession.Abs(), modelQueue.Abs());
    }

    method Publish(count: nat)
      requires Agreed() && queue.nextSeq + count <= U32_MAX * MSGS_PER_BLOCK
      modifies queue, queue.blocks, modelQueue
      ensures Agreed() && queue.nextSeq == old(queue.nextSeq) + count
      ensures Modelled() == ReferenceAfter(old(Modelled()), PublishReq(count))
    {
      hide Agree, ListOk, BlocksOk, States, Redelivered, Realises, Outstanding, SegmentsOk, AllBelow, SessionOk,
        RemembersWaiting;
      PublishAgrees(session.Abs(), queue.Abs(), modelSession.Abs(), modelQueue.Abs(), count);
      RemembersPublished(modelQueue.Abs(), modelSession.requeued, count);
      var range := queue.PublishContiguous(count);
      label Mid:
      modelQueue.Publish(count);
      assert unchanged@Mid(queue.Repr);
      assert queue.Inv() && queue.Abs() == old@Mid(queue.Abs());
    }

    method Retry() returns (a: nat, b: nat)
      requires Agreed()
      modifies queue.Repr, modelQueue
      ensures Agreed() && queue.nextSeq == old(queue.nextSeq) && a == b
      ensures Modelled() == ReferenceAfter(old(Modelled()), RetryReq)
    {
      hide Agree, ListOk, BlocksOk, States, Redelivered, Realises, Outstanding, SegmentsOk, AllBelow, SessionOk,
        RemembersWaiting, RetryAllNow, SimpleRetry, Count;
      RetryReady(session.Abs(), queue.Abs(), modelSession.Abs(), modelQueue.Abs(), modelSession.requeued);
      a := queue.RetryAllNow();
      label Mid:
      b := modelQueue.RetryAllNow();
      assert unchanged@Mid(queue.Repr);
      assert queue.Inv() && queue.Abs() == old@Mid(queue.Abs());
    }

    /** Both sides accept or refuse a settlement together and settle equally many messages. */
    method Settle(tag: nat, mode: Mode, reason: Option<NackReason>) returns (a: Option<nat>, b: Option<nat>)
      requires Agreed() && Open()
      modifies queue.Repr, session, session.window, modelQueue, modelSession
      ensures Agreed() && Open() && queue.nextSeq == old(queue.nextSeq) && a == b
      ensures Modelled() == ReferenceAfter(old(Modelled()), Settlement(tag, mode, reason))
    {
      hide Agree, ListOk, BlocksOk, States, Redelivered, Realises, Outstanding, SegmentsOk, AllBelow, SessionOk,
        RemembersWaiting, SessionSpec.Settle, SimpleSettle, Remembered, Disposed, Count, HasTag, Taken, Owns, Announced;
      ghost var s, q, m, mq, requeued :=
        session.Abs(), queue.Abs(), modelSession.Abs(), modelQueue.Abs(), modelSession.requeued;
      AgreeMeans(s, q, m, mq);
      TagsAgree(s.list, m.list, tag);
      FailsIffNotOutstanding(s, tag);
      ghost var order;
      a, order := HybridSettle(tag, mode, reason);
      label Mid:
      b := modelSession.SettleTag(modelQueue, tag, mode, if reason.None? then NackReason.Reject else reason.value);
      assert unchanged@Mid(queue.Repr);
      assert queue.Inv() && queue.Abs() == old@Mid(queue.Abs());
      if a.Some? { SettleReady(s, q, m, mq, requeued, tag, mode, order, if reason.None? then NackReason.Reject
        else reason.value); }
    }

    method Cancel(d: Disposition) returns (a: nat, b: nat)
      requires Agreed() && Open()
      modifies queue.Repr, session, session.window, modelQueue, modelSession
      ensures Agreed() && a == b
    {
      hide Agree, ListOk, BlocksOk, States, Redelivered, Realises, Outstanding, SegmentsOk, AllBelow, SessionOk,
        RemembersWaiting, Cancelled, SimpleSettle, Remembered, Disposed, Count, HasTag, Taken, Owns, Announced;
      ghost var s, q, m, mq, requeued :=
        session.Abs(), queue.Abs(), modelSession.Abs(), modelQueue.Abs(), modelSession.requeued;
      AgreeMeans(s, q, m, mq);
      var r;
      ghost var order;
      r, order := session.Cancel(queue, d);
      a := r.requeued + r.dropped;
      label Mid:
      b := modelSession.Cancel(modelQueue, d);
      assert unchanged@Mid(queue.Repr);
      assert queue.Inv() && queue.Abs() == old@Mid(queue.Abs());
      CancelReady(s, q, m, mq, requeued, order, d);
    }

    /** Everything the comparison looks at. */
    method Observe(a: Option<nat>, b: Option<nat>, da: seq<(nat, bool)>, db: seq<(nat, bool)>)
      returns (x: Reply, y: Reply)
      requires Agreed() && a == b && da == db
      ensures x == y
    {
      hide ListOk, BlocksOk, States, Redelivered, Realises, Outstanding, SegmentsOk, AllBelow, Counts, Agree;
      AgreeMeans(session.Abs(), queue.Abs(), modelSession.Abs(), modelQueue.Abs());
      var c := queue.DebugCounts();
      var d := modelQueue.CountStates();
      var n := if a.Some? then a.value else 0;
      var m := if b.Some? then b.value else 0;
      var tags := session.OutstandingTags();
      SameTagLists(session.Abs().list, modelSession.Abs().list);
      x := Reply(a.Some?, n, da, c, session.window.unacked, tags, session.credit.inFlight, session.nextTag);
      y := Reply(b.Some?, m, db, d, |modelSession.unacked|, TagsOf(Plain(modelSession.unacked)),
        modelSession.inFlight, modelSession.nextTag);
    }

    method Apply(r: Request) returns (x: Reply, y: Reply)
      requires Agreed() && Open() && RequestOk(r) && queue.nextSeq + Published([r]) <= U32_MAX * MSGS_PER_BLOCK
      requires modelSession.prefetch.Unlimited? ==> OutstandingFits(Modelled(), [r])
      modifies queue.Repr, session, session.window, modelQueue, modelSession
      ensures Agreed() && Open() && queue.nextSeq == old(queue.nextSeq) + Published([r])
      ensures Modelled() == ReferenceAfter(old(Modelled()), r) && x == y
    {
      hide ListOk, BlocksOk, States, Redelivered, Realises, Outstanding, SegmentsOk, AllBelow, Agree, SessionOk,
        RemembersWaiting, Announced, OutOk, FlagsRight, ReferenceAfter, Count;
      var a, b;
      var da, db: seq<(nat, bool)> := [], [];
      match r {
        case PublishReq(count) =>
          Publish(count);
          a, b := Some(count), Some(count);
        case DeliverReq(max) =>
          DeliverFits(session.Abs(), queue.Abs(), modelSession.Abs(), modelQueue.Abs(), max);
          var n, out, delivered := Deliver(max);
          SameFlaggedTags(out, delivered, old(queue.Abs()).redelivered);
          a, b := if n.Success? then Some(n.value) else None, Some(|delivered|);
          da, db := FlaggedTags(out), ModelTags(delivered);
        case AckReq(tag, mode) =>
          a, b := Settle(tag, mode, None);
        case NackReq(tag, mode, reason) =>
          a, b := Settle(tag, mode, Some(reason));
        case RetryReq =>
          var n, m := Retry();
          a, b := Some(n), Some(m);
      }
      x, y := Observe(a, b, da, db);
    }

    /** Every request sequence, up to and including a final cancel, draws equal replies. */
    method Drive(requests: seq<Request>, d: Disposition) returns (xs: seq<Reply>, ys: seq<Reply>)
      requires Agreed() && Open() && (forall k :: 0 <= k < |requests| ==> RequestOk(requests[k]))
      requires queue.nextSeq + Published(requests) <= U32_MAX * MSGS_PER_BLOCK
      requires modelSession.prefetch.Unlimited? ==> OutstandingFits(Modelled(), requests)
      modifies queue.Repr, session, session.window, modelQueue, modelSession
      ensures Agreed() && xs == ys && |xs| == |requests| + 1
    {
      hide ListOk, BlocksOk, States, Redelivered, Realises, Outstanding, SegmentsOk, AllBelow, Agree, SessionOk,
        RemembersWaiting;
      xs, ys := [], [];
      for k := 0 to |requests|
        invariant Agreed() && Open() && xs == ys && |xs| == k
        invariant queue.nextSeq == old(queue.nextSeq) + Published(requests[..k])
        invariant modelSession.prefetch.Unlimited? ==> OutstandingFits(Modelled(), requests[k..])
      {
        PublishedNext(requests, k);
        assert requests[k..][1..] == requests[k + 1..];
        var x, y := Apply(requests[k]);
        xs, ys := xs + [x], ys + [y];
      }
      var a, b := Cancel(d);
      var x, y := Observe(Some(a), Some(b), [], []);
      xs, ys := xs + [x], ys + [y];
    }

    method HybridSettle(tag: nat, mode: Mode, reason: Option<NackReason>)
      returns (a: Option<nat>, ghost order: seq<nat>)
      requires Agreed() && Open()
      modifies queue.blocks, queue.retryBlocks, session`credit, session.window
      ensures queue.Inv() && session.Valid() && Open()
      ensures a.None? <==> SettleError(old(session.Abs()), tag).Some?
      ensures a.None? ==> session.Abs() == old(session.Abs()) && queue.Abs() == old(queue.Abs())
      ensures a.Some? ==>
        multiset(order) == multiset(Messages(Taken(old(session.Abs()), tag, mode))) && a.value == |order|
      ensures a.Some? ==> session.Abs() == SessionSpec.Settle(old(session.Abs()), tag, mode)
      ensures a.Some? ==>
        queue.Abs() == Disposed(old(queue.Abs()), order, if reason.None? then NackReason.Reject else reason.value)
    {
      hide Agree, ListOk, BlocksOk, States, Redelivered, Realises, Outstanding, SegmentsOk, AllBelow, SessionOk,
        RemembersWaiting, SessionSpec.Settle, Count, HasTag, Taken, Owns, SetAll, NackToRetry;
      AgreeMeans(session.Abs(), queue.Abs(), modelSession.Abs(), modelQueue.Abs());
      if reason.None? {
        var r;
        r, order := session.Ack(queue, tag, mode);
        a := if r.Failure? then None else Some(r.value.acked);
      } else {
        var r;
        r, order := session.Nack(queue, tag, mode, reason.value);
        a := if r.Failure? then None else Some(r.value.nacked);
      }
    }
  }

  /** The whole comparison, from new structures on both sides. */
  method RunBoth(mode: Prefetch, requests: seq<Request>, d: Disposition) returns (xs: seq<Reply>, ys: seq<Reply>)
    requires (mode.Limited? ==> mode.limit <= U32_MAX) && forall k :: 0 <= k < |requests| ==> RequestOk(requests[k])
    requires Published(requests) <= U32_MAX * MSGS_PER_BLOCK
    requires mode.Unlimited? ==> OutstandingFits(Reference(NewSession(mode), SimpleQueue([], 0, [])), requests)
    ensures xs == ys && |xs| == |requests| + 1
  {
    hide OutstandingFits;
    var twins := new Twins(mode);
    xs, ys := twins.Drive(requests, d);
  }

  lemma SameTagLists(a: seq<Entry>, b: seq<Entry>)
    requires SameTags(a, b)
    ensures TagsOf(a) == TagsOf(b)
  {
  }

  /** What the delivery of both sides rests on. */
  lemma DeliverReady(s: Session, q: Queue, m: Session, mq: SimpleQueue, requeued: set<nat>, max: nat)
    requires Agree(s, q, m, mq) && !s.cancelled && max <= U32_MAX && RemembersWaiting(mq, requeued)
    ensures |DeliverQueue(q, s, max).states| == |q.states|
    ensures s.nextTag == m.nextTag && q.head <= |q.states| && mq.head <= |mq.states|
    ensures var n, x := ModelGrant(m.credit.mode, m.credit.inFlight, max), Handed(q, s, max);
      && |x| == |SimpleDelivered(mq, n)|
      && (forall k :: 0 <= k < |x| ==> (x[k] in q.redelivered <==> SimpleDelivered(mq, n)[k] in requeued))
      && Agree(Receive(s, x), DeliverQueue(q, s, max), Receive(m, SimpleDelivered(mq, n)), SimpleDeliver(mq, n))
      && RemembersWaiting(SimpleDeliver(mq, n), requeued)
  {
    hide Agree, Delivered, SimpleDelivered, SimpleDeliver, Receive, Count;
    AgreeMeans(s, q, m, mq);
    DeliverAgrees(s, q, m, mq, max);
    GrantsAgree(s, max);
    var n := Grant(s, max);
    RemembersDelivered(mq, requeued, n);
    if n > 0 {
      forall k | 0 <= k < |Delivered(q, n)|
        ensures Delivered(q, n)[k] in q.redelivered <==> SimpleDelivered(mq, n)[k] in requeued
      {
        FlagsAgree(s, q, m, mq, requeued, n, k);
      }
    }
  }

  /** What the reference side has outstanding afterwards bounds the hybrid side's credit. */
  lemma DeliverFits(s: Session, q: Queue, m: Session, mq: SimpleQueue, max: nat)
    requires Agree(s, q, m, mq) && (m.credit.mode.Unlimited? ==> OutstandingFits(Reference(m, mq), [DeliverReq(max)]))
    ensures s.credit.mode.Unlimited? ==> s.credit.inFlight + Min(max, ReadyCount(q)) <= U32_MAX
  {
    hide Agree, SimpleDelivered, SimpleDeliver, Count;
    AgreeMeans(s, q, m, mq);
    SimpleDeliveredAre(mq, max);
  }

  lemma RemembersPublished(mq: SimpleQueue, requeued: set<nat>, count: nat)
    requires RemembersWaiting(mq, requeued)
    ensures RemembersWaiting(mq.(states := mq.states + Uniform(count, Ready)), requeued)
  {
  }

  lemma RetryReady(s: Session, q: Queue, m: Session, mq: SimpleQueue, requeued: set<nat>)
    requires Agree(s, q, m, mq) && RemembersWaiting(mq, requeued)
    ensures Agree(s, RetryAllNow(q), m, SimpleRetry(mq)) && RemembersWaiting(SimpleRetry(mq), requeued)
    ensures Count(q.states, Retry) == Count(mq.states, Retry)
  {
    RetryAgrees(s, q, m, mq);
    RemembersRetried(mq, requeued);
  }

  lemma SettleReady(s: Session, q: Queue, m: Session, mq: SimpleQueue, requeued: set<nat>, tag: nat, mode: Mode,
      order: seq<nat>, reason: NackReason)
    requires Agree(s, q, m, mq) && RemembersWaiting(mq, requeued) && HasTag(s.list, tag)
    requires multiset(order) == multiset(Messages(Taken(s, tag, mode)))
    ensures HasTag(m.list, tag) && |Taken(m, tag, mode)| == |order|
    ensures var msgs := Messages(Taken(m, tag, mode));
      && Agree(Settle(s, tag, mode), Disposed(q, order, reason), Settle(m, tag, mode), SimpleSettle(mq, msgs, reason))
      && RemembersWaiting(SimpleSettle(mq, msgs, reason), Remembered(requeued, msgs, reason))
  {
    hide RemembersWaiting, Agree, Settle, Disposed, SimpleSettle, Remembered, Messages, Taken;
    SettleAgrees(s, q, m, mq, tag, mode, order, reason);
    AgreeMeans(s, q, m, mq);
    SettleOwned(m, AsQueue(mq), tag, mode, Messages(Taken(m, tag, mode)), reason);
    RemembersSettled(mq, requeued, Messages(Taken(m, tag, mode)), reason);
  }

  lemma CancelReady(s: Session, q: Queue, m: Session, mq: SimpleQueue, requeued: set<nat>, order: seq<nat>,
      d: Disposition)
    requires Agree(s, q, m, mq) && RemembersWaiting(mq, requeued) && multiset(order) == multiset(Messages(s.list))
    ensures |s.list| == |m.list| == |order| && Distinct(order) && AllInflight(q, order)
    ensures var msgs, reason := Messages(m.list), CancelReason(d);
      && Agree(Cancelled(s), Disposed(q, order, reason), Cancelled(m).(cancelled := false),
        SimpleSettle(mq, msgs, reason))
      && RemembersWaiting(SimpleSettle(mq, msgs, reason), Remembered(requeued, msgs, reason))
    ensures var x := Disposed(q, order, CancelReason(d)).states;
      Count(x, Retry) - Count(q.states, Retry) + (Count(x, Acked) - Count(q.states, Acked)) == |order|
  {
    hide RemembersWaiting, Disposed, SimpleSettle, Remembered, Messages, Count;
    CancelAgrees(s, q, m, mq, order, d);
    SameMultiset(order, Messages(s.list));
    RemembersSettled(mq, requeued, Messages(m.list), CancelReason(d));
    DisposedCounts(q, order, CancelReason(d));
  }

  lemma {:induction false} PublishedNext(requests: seq<Request>, k: nat)
    requires k < |requests|
    ensures Published(requests[..k + 1]) == Published(requests[..k]) + Published([requests[k]])
    ensures Published(requests[..k + 1]) <= Published(requests)
    decreases |requests| - k
  {
    assert requests[..k + 1][..k] == requests[..k];
    assert [requests[k]][..0] == [];
    if k + 1 == |requests| {
      assert requests[..k + 1] == requests;
    } else {
      PublishedNext(requests, k + 1);
    }
  }
}
