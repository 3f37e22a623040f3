/** The consumer session (aurum-core): tags and credit around a segment window, driving a hybrid
    queue. Every operation is proved against the simple session next to the simple queue. */
module ConsumerSessions {
  import opened Words
  import opened Kernels
  import opened IntrusiveList
  import opened QueueSpec
  import opened Blocks
  import opened Deliveries
  import opened DeliveryWindow
  import opened HybridQueue
  import opened SessionSpec

  datatype TaggedSegment =
    | TaggedRange(firstTag: nat, range: Range, redelivered: bool)
    | TaggedMask(firstTag: nat, mask: WordMask, count: nat, redelivered: bool)
  {
    ghost function Seqs(): (r: seq<nat>)
      requires TaggedMask? ==> mask.word < WORDS_PER_BLOCK
    {
      match this
      case TaggedRange(_, range, _) => Span(range.start, range.len)
      case TaggedMask(_, mask, _, _) => MaskSeqs(mask)
    }
  }

  /** A mask announces as many messages as it has. */
  ghost predicate SegmentOk(s: TaggedSegment) {
    s.TaggedMask? ==> s.mask.word < WORDS_PER_BLOCK && s.count == |MaskSeqs(s.mask)|
  }

  ghost predicate OutOk(out: seq<TaggedSegment>) {
    forall k :: 0 <= k < |out| ==> SegmentOk(out[k])
  }

  /** The deliveries an output batch announces. */
  ghost function Announced(out: seq<TaggedSegment>): (r: seq<Entry>)
    requires OutOk(out)
  {
    if out == [] then [] else
      var n := |out| - 1;
      Announced(out[..n]) + Tagged(out[n].firstTag, out[n].Seqs())
  }

  /** Every announced segment carries the redelivered flag exactly when its messages do. */
  ghost predicate FlagsRight(out: seq<TaggedSegment>, redelivered: set<nat>)
    requires OutOk(out)
  {
    forall k, i :: 0 <= k < |out| && i in out[k].Seqs() ==> (out[k].redelivered <==> i in redelivered)
  }

  lemma AnnounceOne(out: seq<TaggedSegment>, s: TaggedSegment, redelivered: set<nat>)
    requires OutOk(out) && SegmentOk(s)
    requires FlagsRight(out, redelivered) && forall i :: i in s.Seqs() ==> (s.redelivered <==> i in redelivered)
    ensures OutOk(out + [s]) && Announced(out + [s]) == Announced(out) + Tagged(s.firstTag, s.Seqs())
    ensures FlagsRight(out + [s], redelivered)
  {
    hide MaskSeqs, Span;
    assert (out + [s])[..|out|] == out;
  }

  /** `acked_messages` and `batch_nacked_count`. */
  function WorkCount(w: Work): (n: nat) {
    RangesCount(w.ranges) + MasksCount(w.masks)
  }

  function RangesCount(ranges: seq<Range>): (n: nat) {
    if ranges == [] then 0 else RangesCount(ranges[..|ranges| - 1]) + ranges[|ranges| - 1].len
  }

  function MasksCount(masks: seq<WordMask>): (n: nat) {
    if masks == [] then 0 else MasksCount(masks[..|masks| - 1]) + PopCount(masks[|masks| - 1].mask)
  }

  lemma WorkCountIsLength(w: Work)
    requires MasksOk(w.masks)
    ensures WorkCount(w) == |WorkSeqs(w)|
  {
    RangesCountIsLength(w.ranges);
    MasksCountIsLength(w.masks);
  }

  lemma {:induction false} RangesCountIsLength(ranges: seq<Range>)
    ensures RangesCount(ranges) == |RangesSeqs(ranges)|
  {
    if ranges == [] {
    } else {
      RangesCountIsLength(ranges[..|ranges| - 1]);
    }
  }

  lemma {:induction false} MasksCountIsLength(masks: seq<WordMask>)
    requires MasksOk(masks)
    ensures MasksCount(masks) == |MasksSeqs(masks)|
  {
    hide MaskSeqs, PopCount;
    if masks == [] {
    } else {
      MasksCountIsLength(masks[..|masks| - 1]);
    }
  }

  ghost predicate RangesPositive(ranges: seq<Range>) {
    forall k :: 0 <= k < |ranges| ==> ranges[k].len > 0
  }

  ghost predicate NoneIn(seqs: seq<nat>, marked: set<nat>) {
    forall i :: i in seqs ==> i !in marked
  }

  ghost predicate AllIn(seqs: seq<nat>, marked: set<nat>, total: nat) {
    forall i :: i in seqs ==> i in marked && i < total
  }

  datatype AckApply = AckApply(acked: nat, ranges: seq<Range>)

  datatype NackApply = NackApply(nacked: nat, requeued: nat, dropped: nat, deadLettered: nat)

  datatype CancelApply = CancelApply(requeued: nat, dropped: nat)

  class ConsumerSession {
    var nextTag: nat
    var credit: Credit
    var cancelled: bool
    const window: SegmentDeliveryWindow

    /** The session as its users see it. */
    ghost function Abs(): (s: Session)
      reads this, window
    {
      Session(nextTag, credit, window.List(), cancelled)
    }

    ghost predicate Valid()
      reads this, window
    {
      window.Valid() && window.Below(nextTag) && SessionOk(Abs())
    }

    /** The window keeps first deliveries and redeliveries apart. */
    ghost predicate Marks(redelivered: set<nat>)
      reads this, window
    {
      Matches(window.segments, redelivered)
    }

    constructor (mode: Prefetch)
      requires mode.Limited? ==> mode.limit <= U32_MAX
      ensures Valid() && fresh(window) && Abs() == NewSession(mode)
      ensures forall redelivered :: Marks(redelivered)
    {
      nextTag, credit, cancelled := 1, Credit(mode, 0), false;
      window := new SegmentDeliveryWindow();
    }

    /** Tag the delivered ranges in order and record them in the window. */
    method RecordRanges(ranges: seq<Range>, ghost marked: set<nat>) returns (out: seq<TaggedSegment>)
      requires window.Valid() && window.Below(nextTag)
      requires RangesPositive(ranges) && NoneIn(RangesSeqs(ranges), marked)
      modifies this`nextTag, window
      ensures window.Valid() && window.Below(nextTag) && nextTag == old(nextTag) + |RangesSeqs(ranges)|
      ensures window.List() == old(window.List()) + Tagged(old(nextTag), RangesSeqs(ranges))
      ensures OutOk(out) && Announced(out) == Tagged(old(nextTag), RangesSeqs(ranges)) && FlagsRight(out, marked)
      ensures old(Marks(marked)) ==> Marks(marked)
    {
      hide Matches, OfKind, Outstanding, Span, Tagged, SegmentsOk, AllBelow, Announced, FlagsRight, OutOk, RangesSeqs,
        RangesPositive, NoneIn;
      ghost var first := nextTag;
      out := [];
      RecordStarts(first, ranges, marked);
      for k := 0 to |ranges|
        invariant window.Valid() && window.Below(nextTag) && nextTag == first + |RangesSeqs(ranges[..k])|
        invariant window.List() == old(window.List()) + Tagged(first, RangesSeqs(ranges[..k]))
        invariant OutOk(out) && Announced(out) == Tagged(first, RangesSeqs(ranges[..k])) && FlagsRight(out, marked)
        invariant old(Marks(marked)) ==> Marks(marked)
      {
        ghost var before := window.segments;
        var s := TaggedRange(nextTag, ranges[k], false);
        RangeAt(ranges, k, first, marked);
        AnnounceOne(out, s, marked);
        window.PushRange(nextTag, ranges[k], false);
        if old(Marks(marked)) {
          MatchesPushed(before, window.segments, marked, Span(ranges[k].start, ranges[k].len), true);
        }
        out := out + [s];
        nextTag := nextTag + ranges[k].len;
      }
      assert ranges[..|ranges|] == ranges;
    }

    /** Tag the delivered masks in order, flagged by the queue's redelivery bits. */
    method RecordMasks(queue: HybridRangeBlockQueue, masks: seq<WordMask>, before: seq<TaggedSegment>)
      returns (out: seq<TaggedSegment>)
      requires window.Valid() && window.Below(nextTag) && queue.Inv() && this !in queue.Repr && window !in queue.Repr
      requires MasksOk(masks) && AllIn(MasksSeqs(masks), queue.Abs().redelivered, |queue.Abs().states|)
      requires OutOk(before) && FlagsRight(before, queue.Abs().redelivered)
      modifies this`nextTag, window
      ensures window.Valid() && window.Below(nextTag) && nextTag == old(nextTag) + |MasksSeqs(masks)|
      ensures window.List() == old(window.List()) + Tagged(old(nextTag), MasksSeqs(masks))
      ensures queue.Inv() && queue.Abs() == old(queue.Abs())
      ensures OutOk(out) && Announced(out) == Announced(before) + Tagged(old(nextTag), MasksSeqs(masks))
      ensures FlagsRight(out, queue.Abs().redelivered)
      ensures old(Marks(queue.Abs().redelivered)) ==> Marks(queue.Abs().redelivered)
    {
      hide Matches, OfKind, Outstanding, MaskSeqs, Tagged, SegmentsOk, AllBelow, Announced, FlagsRight, OutOk,
        MasksSeqs, MasksOk, AllIn, ListOk, BlocksOk, States, Redelivered, Realises;
      ghost var first, marked := nextTag, queue.Abs().redelivered;
      out := before;
      MasksStart(first, masks);
      for k := 0 to |masks|
        invariant window.Valid() && window.Below(nextTag)
        invariant MasksOk(masks[..k]) && nextTag == first + |MasksSeqs(masks[..k])|
        invariant window.List() == old(window.List()) + Tagged(first, MasksSeqs(masks[..k]))
        invariant OutOk(out) && Announced(out) == Announced(before) + Tagged(first, MasksSeqs(masks[..k]))
        invariant FlagsRight(out, marked)
        invariant old(Marks(queue.Abs().redelivered)) ==> Marks(marked)
      {
        ghost var before := window.segments;
        var m := masks[k];
        MaskAt(masks, k, first, marked, |queue.Abs().states|);
        MaskInBounds(queue, m);
        var count := PopCount(m.mask);
        var flag := queue.RedeliveredMask(m);
        var s := TaggedMask(nextTag, m, count, flag != 0);
        MaskFlag(m, marked, |queue.Abs().states|, s);
        AnnounceOne(out, s, marked);
        window.PushMask(nextTag, m, count, flag != 0);
        if old(Marks(queue.Abs().redelivered)) { MaskPushed(before, window.segments, marked, m, |queue.Abs().states|); }
        out := out + [s];
        nextTag := nextTag + count;
      }
      assert masks[..|masks|] == masks;
    }

    method Record(queue: HybridRangeBlockQueue, work: Work) returns (out: seq<TaggedSegment>)
      requires window.Valid() && window.Below(nextTag) && queue.Inv() && this !in queue.Repr && window !in queue.Repr
      requires MasksOk(work.masks) && AllIn(MasksSeqs(work.masks), queue.Abs().redelivered, |queue.Abs().states|)
      requires RangesPositive(work.ranges) && NoneIn(RangesSeqs(work.ranges), queue.Abs().redelivered)
      modifies this`nextTag, window
      ensures window.Valid() && window.Below(nextTag) && nextTag == old(nextTag) + |WorkSeqs(work)|
      ensures window.List() == old(window.List()) + Tagged(old(nextTag), WorkSeqs(work))
      ensures queue.Inv() && queue.Abs() == old(queue.Abs())
      ensures OutOk(out) && Announced(out) == Tagged(old(nextTag), WorkSeqs(work))
      ensures FlagsRight(out, queue.Abs().redelivered)
      ensures old(Marks(queue.Abs().redelivered)) ==> Marks(queue.Abs().redelivered)
    {
      hide Matches, ListOk, BlocksOk, States, Redelivered, Realises, Announced, FlagsRight, OutOk, Tagged, Outstanding,
        SegmentsOk, AllBelow, RangesSeqs, MasksSeqs, NoneIn, AllIn, MasksOk, RangesPositive;
      var ranges := RecordRanges(work.ranges, queue.Abs().redelivered);
      out := RecordMasks(queue, work.masks, ranges);
      TaggedConcat(old(nextTag), RangesSeqs(work.ranges), MasksSeqs(work.masks));
    }

    /** `deliver_from_queue`: within the credit, hand over exactly what the queue serves, under
        fresh consecutive tags, each announced segment flagged redelivered exactly when its
        messages have been. */
    method DeliverFromQueue(queue: HybridRangeBlockQueue, max: nat) returns (r: Result<nat>, out: seq<TaggedSegment>)
      requires Valid() && queue.Inv() && this !in queue.Repr && window !in queue.Repr
      requires credit.mode.Unlimited? ==> credit.inFlight + Min(max, ReadyCount(queue.Abs())) <= U32_MAX
      modifies this`nextTag, this`credit, window, queue, queue.blocks, queue.sparseBlocks
      ensures Valid() && queue.Inv()
      ensures cancelled ==> r == Failure(ConsumerCancelled)
      ensures !cancelled ==> r == Success(|Handed(old(queue.Abs()), old(Abs()), max)|)
      ensures Abs() == Receive(old(Abs()), Handed(old(queue.Abs()), old(Abs()), max))
      ensures queue.Abs() == DeliverQueue(old(queue.Abs()), old(Abs()), max)
      ensures OutOk(out) && Announced(out) == Tagged(old(nextTag), Handed(old(queue.Abs()), old(Abs()), max))
      ensures FlagsRight(out, old(queue.Abs()).redelivered)
      ensures old(Marks(queue.Abs().redelivered)) ==> Marks(queue.Abs().redelivered)
    {
      hide Matches, ListOk, BlocksOk, States, Redelivered, Realises, Delivered, QueueSpec.Deliver, Announced,
        FlagsRight, OutOk, Tagged, Outstanding, SegmentsOk, AllBelow, SessionOk, WorkSeqs, ReadyCount, QueueSpec.Valid;
      out := [];
      RecordStarts(nextTag, [], queue.Abs().redelivered);
      NothingReceived(Abs());
      queue.AbsIsValid();
      if cancelled {
        return Failure(ConsumerCancelled), [];
      }
      var available := Min(credit.Available(), max);
      if available == 0 {
        return Success(0), [];
      }
      ghost var q, s := queue.Abs(), Abs();
      var work, n := queue.Deliver(available);
      WorkIsMarked(q, available, work);
      if n == 0 {
        return Success(0), [];
      }
      out := Record(queue, work);
      ReceiveKeeps(s, WorkSeqs(work));
      ReserveFits(s, n);
      var reserved := credit.Reserve(n);
      if reserved.Success? { credit := reserved.value; }
      r := Success(n);
    }

    /** The tags for which `contains_tag` holds, in ascending order. */
    method OutstandingTags() returns (tags: seq<nat>)
      requires Valid()
      ensures tags == TagsOf(Abs().list)
    {
      hide Outstanding, SegmentsOk, AllBelow, HasTag;
      tags := [];
      for t := 1 to nextTag
        invariant Ascending(tags) && forall x :: x in tags <==> 1 <= x < t && HasTag(Abs().list, x)
      {
        var idx := window.FindSegmentIdx(t);
        assert forall k :: 0 <= k < |tags| ==> tags[k] in tags;
        if idx.Some? { tags := tags + [t]; }
      }
      KnownTags(Abs(), tags);
    }

    /** The checks `ack` and `nack` share, and the batch the window gives up. */
    method TakeBatch(tag: nat, mode: Mode, ghost redelivered: set<nat>) returns (r: Result<Work>)
      requires Valid()
      modifies window
      ensures window.Valid() && window.Below(nextTag)
      ensures r.Failure? <==> SettleError(old(Abs()), tag).Some?
      ensures r.Failure? ==> SettleError(old(Abs()), tag) == Some(r.error) && window.List() == old(window.List())
      ensures r.Success? ==> MasksOk(r.value.masks) && window.List() == Unsettled(old(Abs()), tag, mode)
      ensures r.Success? ==> multiset(WorkSeqs(r.value)) == multiset(Messages(Taken(old(Abs()), tag, mode)))
      ensures old(Marks(redelivered)) ==> Marks(redelivered)
      ensures r.Success? && old(Marks(redelivered)) ==>
        SplitAs(r.value, Messages(Taken(old(Abs()), tag, mode)), redelivered)
    {
      hide Outstanding, SegmentsOk, AllBelow, TagIndex, HasTag, WorkSeqs, MasksOk, TagsAscend;
      hide Matches, Balanced, Drawn, SplitAs, Taken, Unsettled;
      if cancelled {
        return Failure(ConsumerCancelled);
      }
      if tag < 1 || tag >= nextTag {
        return Failure(InvalidDeliveryTag);
      }
      ghost var s, before := Abs(), window.segments;
      var batch;
      if mode == One {
        batch := window.SettleOne(tag);
        if batch.Some? { TakenOne(s, tag, before, batch.value, window.segments, redelivered); }
      } else {
        batch := window.SettleMultiple(tag);
        if batch.Some? { TakenUpTo(s, tag, before, batch.value, window.segments, redelivered); }
      }
      r := if batch.None? then Failure(DeliveryTagAlreadySettled) else Success(batch.value);
    }

    /** Hand a batch to the queue: requeued messages go to retry, all others are acked. */
    method Dispose(queue: HybridRangeBlockQueue, batch: Work, reason: NackReason)
      requires queue.Inv() && MasksOk(batch.masks)
      requires Distinct(WorkSeqs(batch)) && AllInflight(queue.Abs(), WorkSeqs(batch))
      modifies queue.blocks, queue.retryBlocks
      ensures queue.Inv() && queue.Abs() == Disposed(old(queue.Abs()), WorkSeqs(batch), reason)
    {
      hide ListOk, BlocksOk, States, Redelivered, Realises, NackToRetry, QueueSpec.Ack, WorkSeqs, MasksOk;
      if reason == Requeue {
        queue.ApplyNackBatch(batch);
      } else {
        queue.ApplyAckBatch(batch);
      }
    }

    /** `ack`: exactly the messages of the tag, or of all tags up to it, are settled, first deliveries
        before redeliveries, and the reported ranges are exactly the first deliveries. */
    method Ack(queue: HybridRangeBlockQueue, tag: nat, mode: Mode) returns (r: Result<AckApply>, ghost order: seq<nat>)
      requires Valid() && queue.Inv() && this !in queue.Repr && window !in queue.Repr && Owns(Abs(), queue.Abs())
      modifies this`credit, window, queue.blocks
      ensures Valid() && queue.Inv() && Owns(Abs(), queue.Abs())
      ensures r.Failure? <==> SettleError(old(Abs()), tag).Some?
      ensures r.Failure? ==>
        SettleError(old(Abs()), tag) == Some(r.error) && Abs() == old(Abs()) && queue.Abs() == old(queue.Abs())
      ensures r.Failure? ==> order == []
      ensures r.Success? ==>
        Abs() == Settle(old(Abs()), tag, mode) && queue.Abs() == QueueSpec.Ack(old(queue.Abs()), order)
      ensures r.Success? ==>
        multiset(order) == multiset(Messages(Taken(old(Abs()), tag, mode))) && r.value.acked == |order|
      ensures r.Success? ==> RangesSeqs(r.value.ranges) <= order
      ensures old(Marks(queue.Abs().redelivered)) ==> Marks(queue.Abs().redelivered)
      ensures r.Success? && old(Marks(queue.Abs().redelivered)) ==> var msgs := Messages(Taken(old(Abs()), tag, mode));
        && order == SettleOrder(msgs, queue.Abs().redelivered)
        && RangesSeqs(r.value.ranges) == Pick(msgs, queue.Abs().redelivered, true)
    {
      hide ListOk, BlocksOk, States, Redelivered, Realises, Outstanding, SegmentsOk, AllBelow, TagsAscend, Owns, Taken,
        Unsettled, HasTag, MasksOk;
      hide Matches, Pick;
      order := [];
      ghost var s, q := Abs(), queue.Abs();
      var taken := TakeBatch(tag, mode, q.redelivered);
      if taken.Failure? {
        return Failure(taken.error), order;
      }
      var batch := taken.value;
      order := WorkSeqs(batch);
      SettleOwned(s, q, tag, mode, order, NackReason.Reject);
      SettleKeeps(s, tag, mode);
      WorkCountIsLength(batch);
      var acked := WorkCount(batch);
      queue.ApplyAckBatch(batch);
      credit := credit.Release(acked);
      r := Success(AckApply(acked, batch.ranges));
    }

    /** `nack`: as `ack`, but requeued messages go to retry; rejected and dead-lettered ones are
        dropped, and the result counts say which it was. */
    method Nack(queue: HybridRangeBlockQueue, tag: nat, mode: Mode, reason: NackReason)
      returns (r: Result<NackApply>, ghost order: seq<nat>)
      requires Valid() && queue.Inv() && this !in queue.Repr && window !in queue.Repr && Owns(Abs(), queue.Abs())
      modifies this`credit, window, queue.blocks, queue.retryBlocks
      ensures Valid() && queue.Inv() && Owns(Abs(), queue.Abs())
      ensures r.Failure? <==> SettleError(old(Abs()), tag).Some?
      ensures r.Failure? ==>
        SettleError(old(Abs()), tag) == Some(r.error) && Abs() == old(Abs()) && queue.Abs() == old(queue.Abs())
      ensures r.Failure? ==> order == []
      ensures r.Success? ==>
        Abs() == Settle(old(Abs()), tag, mode) && queue.Abs() == Disposed(old(queue.Abs()), order, reason)
      ensures r.Success? ==>
        multiset(order) == multiset(Messages(Taken(old(Abs()), tag, mode))) && r.value.nacked == |order|
      ensures r.Success? ==>
        r.value.requeued == Count(queue.Abs().states, Retry) - Count(old(queue.Abs()).states, Retry)
      ensures r.Success? ==>
        r.value.dropped + r.value.deadLettered ==
          Count(queue.Abs().states, Acked) - Count(old(queue.Abs()).states, Acked)
      ensures r.Success? ==>
        (r.value.dropped > 0 ==> reason == NackReason.Reject) && (r.value.deadLettered > 0 ==> reason == DeadLetter)
      ensures old(Marks(queue.Abs().redelivered)) ==> Marks(queue.Abs().redelivered)
      ensures r.Success? && old(Marks(queue.Abs().redelivered)) ==>
        order == SettleOrder(Messages(Taken(old(Abs()), tag, mode)), queue.Abs().redelivered)
    {
      hide Matches, SplitAs, SettleOrder, ListOk, BlocksOk, States, Redelivered, Realises, Disposed, Outstanding,
        SegmentsOk, AllBelow, TagsAscend, Owns, Taken, Unsettled, HasTag, WorkSeqs, MasksOk, Count;
      order := [];
      ghost var s, q := Abs(), queue.Abs();
      var taken := TakeBatch(tag, mode, q.redelivered);
      if taken.Failure? {
        return Failure(taken.error), order;
      }
      var batch := taken.value;
      order := WorkSeqs(batch);
      SettleOwned(s, q, tag, mode, order, reason);
      SettleKeeps(s, tag, mode);
      SplitOrder(batch, Messages(Taken(s, tag, mode)), q.redelivered);
      SameMarks(q, order, reason);
      WorkCountIsLength(batch);
      DisposedCounts(q, order, reason);
      var count := WorkCount(batch);
      Dispose(queue, batch, reason);
      credit := credit.Release(count);
      r := match reason
        case Requeue => Success(NackApply(count, count, 0, 0))
        case Reject => Success(NackApply(count, 0, count, 0))
        case DeadLetter => Success(NackApply(count, 0, 0, count));
    }

    /** `reject`: a negative acknowledgement of one tag. */
    method Reject(queue: HybridRangeBlockQueue, tag: nat, reason: NackReason)
      returns (r: Result<NackApply>, ghost order: seq<nat>)
      requires Valid() && queue.Inv() && this !in queue.Repr && window !in queue.Repr && Owns(Abs(), queue.Abs())
      modifies this`credit, window, queue.blocks, queue.retryBlocks
      ensures Valid() && queue.Inv() && Owns(Abs(), queue.Abs())
      ensures r.Failure? <==> SettleError(old(Abs()), tag).Some?
      ensures r.Failure? ==>
        SettleError(old(Abs()), tag) == Some(r.error) && Abs() == old(Abs()) && queue.Abs() == old(queue.Abs())
      ensures r.Failure? ==> order == []
      ensures r.Success? ==>
        Abs() == Settle(old(Abs()), tag, One) && queue.Abs() == Disposed(old(queue.Abs()), order, reason)
      ensures r.Success? ==> order == Messages(Taken(old(Abs()), tag, One)) && r.value.nacked == 1
      ensures old(Marks(queue.Abs().redelivered)) ==> Marks(queue.Abs().redelivered)
    {
      hide ListOk, BlocksOk, States, Redelivered, Realises, Disposed, Outstanding, SegmentsOk, AllBelow, TagsAscend,
        Owns, HasTag, Count;
      ghost var s := Abs();
      r, order := Nack(queue, tag, One, reason);
      if r.Success? { OneMessage(order, Messages(Taken(s, tag, One))); }
    }

    /** `cancel`: everything outstanding is settled by the disposition, and the session is over. */
    method Cancel(queue: HybridRangeBlockQueue, disposition: Disposition)
      returns (r: CancelApply, ghost order: seq<nat>)
      requires Valid() && queue.Inv() && this !in queue.Repr && window !in queue.Repr && Owns(Abs(), queue.Abs())
      modifies this`credit, this`cancelled, window, queue.blocks, queue.retryBlocks
      ensures Valid() && queue.Inv() && Abs() == Cancelled(old(Abs()))
      ensures queue.Abs() == Disposed(old(queue.Abs()), order, CancelReason(disposition))
      ensures multiset(order) == multiset(Messages(old(Abs()).list)) && r.requeued + r.dropped == |order|
      ensures r.requeued == Count(queue.Abs().states, Retry) - Count(old(queue.Abs()).states, Retry)
      ensures r.dropped == Count(queue.Abs().states, Acked) - Count(old(queue.Abs()).states, Acked)
      ensures Marks(queue.Abs().redelivered)
      ensures old(Marks(queue.Abs().redelivered)) ==>
        order == SettleOrder(Messages(old(Abs()).list), queue.Abs().redelivered)
    {
      hide Matches, Balanced, SettleOrder, Messages, ListOk, BlocksOk, States, Redelivered, Realises, Disposed,
        Outstanding, SegmentsOk, AllBelow, WorkSeqs, MasksOk, Count;
      cancelled := true;
      ghost var q, msgs, before := queue.Abs(), Messages(window.List()), window.segments;
      var batch := window.DrainAll();
      order := WorkSeqs(batch);
      AllDrained(before, batch, q.redelivered);
      SameMarks(q, order, CancelReason(disposition));
      SameMultiset(order, msgs);
      WorkCountIsLength(batch);
      DisposedCounts(q, order, CancelReason(disposition));
      var total := WorkCount(batch);
      Dispose(queue, batch, CancelReason(disposition));
      credit := credit.Release(total);
      r := if disposition == RequeueUnacked then CancelApply(total, 0) else CancelApply(0, total);
    }
  }

  /** The batch lists the first deliveries among the messages as ranges and the others as masks. */
  ghost predicate SplitAs(batch: Work, msgs: seq<nat>, redelivered: set<nat>)
    requires MasksOk(batch.masks)
  {
    && RangesSeqs(batch.ranges) == Pick(msgs, redelivered, true)
    && MasksSeqs(batch.masks) == Pick(msgs, redelivered, false)
  }

  lemma SplitOrder(batch: Work, msgs: seq<nat>, redelivered: set<nat>)
    requires MasksOk(batch.masks)
    ensures SplitAs(batch, msgs, redelivered) ==> WorkSeqs(batch) == SettleOrder(msgs, redelivered)
  {
    hide Pick, RangesSeqs, MasksSeqs;
  }

  lemma TakenOne(s: Session, tag: nat, before: seq<Segment>, batch: Work, after: seq<Segment>, redelivered: set<nat>)
    requires MasksOk(batch.masks) && Drawn(before, batch, after) && HasTag(s.list, tag)
    requires WorkSeqs(batch) == [s.list[TagIndex(s.list, tag)].msg]
    ensures Matches(before, redelivered) ==>
      Matches(after, redelivered) && SplitAs(batch, Messages(Taken(s, tag, One)), redelivered)
    ensures Taken(s, tag, One) == [s.list[TagIndex(s.list, tag)]]
    ensures Unsettled(s, tag, One) == RemoveAt(s.list, TagIndex(s.list, tag))
  {
    hide Matches, Drawn, TagIndex, HasTag, Pick, RangesSeqs, MasksSeqs;
    var msg := s.list[TagIndex(s.list, tag)].msg;
    assert Messages(Taken(s, tag, One)) == [msg];
    if Matches(before, redelivered) {
      DrawnSplit(before, batch, after, msg, redelivered);
      assert Batched(batch, true) == Pick([msg], redelivered, true)
        && Batched(batch, false) == Pick([msg], redelivered, false);
    }
  }

  lemma TakenUpTo(s: Session, tag: nat, before: seq<Segment>, batch: Work, after: seq<Segment>, redelivered: set<nat>)
    requires MasksOk(batch.masks) && Balanced(before, batch, after) && HasTag(s.list, tag)
    requires s.list == Outstanding(before) && Outstanding(after) == s.list[TagIndex(s.list, tag) + 1..]
    ensures Matches(before, redelivered) ==>
      Matches(after, redelivered) && SplitAs(batch, Messages(Taken(s, tag, Multiple)), redelivered)
    ensures var k := TagIndex(s.list, tag);
      Taken(s, tag, Multiple) == s.list[..k + 1] && Unsettled(s, tag, Multiple) == s.list[k + 1..]
  {
    hide Matches, Balanced, Outstanding, TagIndex, HasTag, Pick, RangesSeqs, MasksSeqs, Messages;
    var k := TagIndex(s.list, tag) + 1;
    if Matches(before, redelivered) {
      assert s.list == s.list[..k] + s.list[k..];
      BalancedSplit(before, batch, after, s.list[..k], redelivered);
      assert forall first :: Batched(batch, first) == Pick(Messages(s.list[..k]), redelivered, first);
      assert Batched(batch, true) == Pick(Messages(s.list[..k]), redelivered, true);
      assert Batched(batch, false) == Pick(Messages(s.list[..k]), redelivered, false);
    }
  }

  lemma AllDrained(before: seq<Segment>, batch: Work, redelivered: set<nat>)
    requires MasksOk(batch.masks) && Balanced(before, batch, [])
    ensures Matches([], redelivered)
    ensures Matches(before, redelivered) ==> WorkSeqs(batch) == SettleOrder(Messages(Outstanding(before)), redelivered)
  {
    hide Balanced, Matches, Pick, RangesSeqs, MasksSeqs, Messages;
    NothingMatches(redelivered);
    if Matches(before, redelivered) {
      var list := Outstanding(before);
      assert list == list + Outstanding([]);
      BalancedSplit(before, batch, [], list, redelivered);
      assert Batched(batch, true) == Pick(Messages(list), redelivered, true);
      assert Batched(batch, false) == Pick(Messages(list), redelivered, false);
    }
  }

  lemma SameMarks(q: Queue, order: seq<nat>, reason: NackReason)
    ensures Disposed(q, order, reason).redelivered == q.redelivered
  {
  }

  lemma OneMessage(a: seq<nat>, b: seq<nat>)
    requires multiset(a) == multiset(b) && |b| == 1
    ensures a == b
  {
    SameMultiset(a, b);
    assert a[0] in b;
  }

  /** What a disposal adds to the counts. */
  lemma DisposedCounts(q: Queue, order: seq<nat>, reason: NackReason)
    requires Distinct(order) && AllInflight(q, order)
    ensures var d := Disposed(q, order, reason);
      && Count(d.states, Retry) == Count(q.states, Retry) + (if reason == Requeue then |order| else 0)
      && Count(d.states, Acked) == Count(q.states, Acked) + (if reason == Requeue then 0 else |order|)
  {
    hide SetAll, Count;
    CountSetAll(q.states, order, Inflight, Retry);
    CountSetAll(q.states, order, Inflight, Acked);
  }

  /** Ranges are first deliveries and masks are redeliveries. */
  lemma WorkIsMarked(q: Queue, max: nat, work: Work)
    requires QueueSpec.Valid(q) && MasksOk(work.masks) && WorkSeqs(work) == Delivered(q, max)
    requires RangesSeqs(work.ranges) == Span(q.head, Min(|q.states| - q.head, max))
    ensures var d := QueueSpec.Deliver(q, max);
      && d.redelivered == q.redelivered
      && NoneIn(RangesSeqs(work.ranges), d.redelivered)
      && AllIn(MasksSeqs(work.masks), d.redelivered, |d.states|)
    ensures |WorkSeqs(work)| == Min(max, ReadyCount(q))
  {
    hide Delivered, Span, RangesSeqs, MasksSeqs, Indexes;
    DeliveredAre(q, max);
    var direct := Min(max, |q.states| - q.head);
    assert WorkSeqs(work)[direct..] == MasksSeqs(work.masks);
  }

  lemma KnownTags(s: Session, tags: seq<nat>)
    requires SessionOk(s) && Ascending(tags)
    requires forall x :: x in tags <==> 1 <= x < s.nextTag && HasTag(s.list, x)
    ensures tags == TagsOf(s.list)
  {
    var all := TagsOf(s.list);
    forall x ensures x in all <==> 1 <= x < s.nextTag && HasTag(s.list, x) {
      if x in all { var k :| 0 <= k < |all| && all[k] == x; }
      if 1 <= x && HasTag(s.list, x) {
        var k :| 0 <= k < |s.list| && s.list[k].tag == x;
        assert all[k] == x;
      }
    }
    AscendingUnique(tags, all);
  }

  /** Within the available credit a reservation succeeds. */
  lemma ReserveFits(s: Session, n: nat)
    requires SessionOk(s) && n <= s.credit.Available()
    requires s.credit.mode.Unlimited? ==> s.credit.inFlight + n <= U32_MAX
    ensures s.credit.Reserve(n) == Success(s.credit.(inFlight := s.credit.inFlight + n))
  {
  }

  lemma RecordStarts(first: nat, ranges: seq<Range>, marked: set<nat>)
    ensures OutOk([]) && Announced([]) == [] && FlagsRight([], marked) && Tagged(first, []) == []
    ensures RangesSeqs(ranges[..0]) == []
  {
  }

  lemma MasksStart(first: nat, masks: seq<WordMask>)
    ensures Tagged(first, []) == [] && MasksOk(masks[..0]) && MasksSeqs(masks[..0]) == []
  {
  }

  lemma RangeAt(ranges: seq<Range>, k: nat, first: nat, marked: set<nat>)
    requires k < |ranges| && RangesPositive(ranges) && NoneIn(RangesSeqs(ranges), marked)
    ensures ranges[k].len > 0
    ensures RangesSeqs(ranges[..k + 1]) == RangesSeqs(ranges[..k]) + Span(ranges[k].start, ranges[k].len)
    ensures forall i :: i in Span(ranges[k].start, ranges[k].len) ==> i !in marked
    ensures Tagged(first, RangesSeqs(ranges[..k + 1])) ==
      Tagged(first, RangesSeqs(ranges[..k]))
      + Tagged(first + |RangesSeqs(ranges[..k])|, Span(ranges[k].start, ranges[k].len))
  {
    hide Span;
    NextRange(ranges, k);
    RangesPrefix(ranges, k + 1);
    TaggedConcat(first, RangesSeqs(ranges[..k]), Span(ranges[k].start, ranges[k].len));
  }

  lemma MaskAt(masks: seq<WordMask>, k: nat, first: nat, marked: set<nat>, total: nat)
    requires k < |masks| && MasksOk(masks) && AllIn(MasksSeqs(masks), marked, total)
    ensures masks[k].word < WORDS_PER_BLOCK && masks[k].mask != 0 && MasksOk(masks[..k]) && MasksOk(masks[..k + 1])
    ensures AllIn(MaskSeqs(masks[k]), marked, total)
    ensures Tagged(first, MasksSeqs(masks[..k + 1])) ==
      Tagged(first, MasksSeqs(masks[..k])) + Tagged(first + |MasksSeqs(masks[..k])|, MaskSeqs(masks[k]))
    ensures |MasksSeqs(masks[..k + 1])| == |MasksSeqs(masks[..k])| + PopCount(masks[k].mask)
    ensures |MaskSeqs(masks[k])| == PopCount(masks[k].mask)
  {
    hide MasksSeqs;
    NextMask(masks, k);
    assert AllIn(MaskSeqs(masks[k]), marked, total) by {
      hide MaskSeqs;
      forall i | i in MaskSeqs(masks[k]) ensures i in marked && i < total { assert i in MasksSeqs(masks[..k + 1]); }
    }
    TaggedConcat(first, MasksSeqs(masks[..k]), MaskSeqs(masks[k]));
  }

  lemma MaskPushed(before: seq<Segment>, after: seq<Segment>, marked: set<nat>, m: WordMask, total: nat)
    requires m.word < WORDS_PER_BLOCK && AllIn(MaskSeqs(m), marked, total) && Matches(before, marked)
    requires OfKind(after, false) == OfKind(before, false) + MaskSeqs(m) && OfKind(after, true) == OfKind(before, true)
    ensures Matches(after, marked)
  {
    hide MaskSeqs, Matches;
    MatchesPushed(before, after, marked, MaskSeqs(m), false);
  }

  lemma MaskInBounds(queue: HybridRangeBlockQueue, m: WordMask)
    requires queue.Inv() && m.word < WORDS_PER_BLOCK && m.mask != 0
    requires AllIn(MaskSeqs(m), queue.Abs().redelivered, |queue.Abs().states|)
    ensures m.block < |queue.blocks.nodes| && forall i :: i in MaskSeqs(m) ==> i < queue.nextSeq
  {
    hide ListOk, BlocksOk, States, Redelivered, Realises;
    var i := MaskSeqs(m)[0];
    assert i in MaskSeqs(m);
    queue.InRange(m.block, i);
  }

  lemma MaskFlag(m: WordMask, marked: set<nat>, total: nat, s: TaggedSegment)
    requires m.word < WORDS_PER_BLOCK && m.mask != 0 && s.TaggedMask? && s.mask == m
    requires AllIn(MaskSeqs(m), marked, total)
    requires s.redelivered <==> exists i :: i in MaskSeqs(m) && i in marked
    ensures forall i :: i in s.Seqs() ==> (s.redelivered <==> i in marked)
  {
  }
}
