/** The simple meaning of a consumer session: the next tag, the credit in use, and the list of
    outstanding deliveries, next to the simple queue. */
module SessionSpec {
  import opened Kernels
  import opened IntrusiveList
  import opened QueueSpec
  import opened Deliveries

  datatype Prefetch = Limited(limit: nat) | Unlimited

  datatype ConsumerError =
    | InvalidDeliveryTag
    | DeliveryTagAlreadySettled
    | ConsumerCancelled
    | InsufficientCredit

  datatype Result<+T> = Success(value: T) | Failure(error: ConsumerError)

  datatype Mode = One | Multiple

  datatype NackReason = Requeue | Reject | DeadLetter

  datatype Disposition = RequeueUnacked | DropUnacked

  function SaturatingSub(a: nat, b: nat): (r: nat) {
    if a >= b then a - b else 0
  }

  /** `ConsumerCredit`: prefetch mode and messages in flight, with 32-bit saturation. */
  datatype Credit = Credit(mode: Prefetch, inFlight: nat) {
    function Available(): (n: nat) {
      match mode
      case Unlimited => U32_MAX
      case Limited(limit) => SaturatingSub(limit, inFlight)
    }

    function Reserve(n: nat): (r: Result<Credit>)
      ensures r.Success? ==> r.value.mode == mode && r.value.inFlight <= inFlight + n
      ensures n <= Available() && inFlight + n <= U32_MAX && (mode.Limited? ==> inFlight <= mode.limit) ==>
        r == Success(Credit(mode, inFlight + n))
      ensures mode.Unlimited? ==> r.Success?
      ensures mode.Limited? && inFlight <= mode.limit && inFlight + n <= U32_MAX ==>
        (r == Failure(InsufficientCredit) <==> n > Available())
    {
      match mode
      case Unlimited => Success(Credit(mode, Min(inFlight + n, U32_MAX)))
      case Limited(limit) =>
        if Min(inFlight + n, U32_MAX) > limit then Failure(InsufficientCredit) else Success(Credit(mode, inFlight + n))
    }

    function Release(n: nat): (r: Credit) {
      Credit(mode, SaturatingSub(inFlight, n))
    }
  }

  /** Releasing what was reserved restores the credit. */
  lemma ReserveReleases(c: Credit, n: nat)
    requires c.inFlight + n <= U32_MAX
    ensures c.Reserve(n).Success? ==> c.Reserve(n).value.Release(n) == c
  {
  }

  /** A session as its users see it. */
  datatype Session = Session(nextTag: nat, credit: Credit, list: seq<Entry>, cancelled: bool)

  function NewSession(mode: Prefetch): (s: Session) {
    Session(1, Credit(mode, 0), [], false)
  }

  /** Tags ascend below the next tag, and the credit in use is the number of outstanding tags,
      which never exceeds a limited prefetch. */
  predicate SessionOk(s: Session) {
    && s.nextTag >= 1
    && TagsAscend(s.list)
    && (forall k :: 0 <= k < |s.list| ==> 1 <= s.list[k].tag < s.nextTag)
    && s.credit.inFlight == |s.list|
    && (s.credit.mode.Limited? ==> |s.list| <= s.credit.mode.limit <= U32_MAX)
    && (s.cancelled ==> s.list == [])
  }

  /** The session holds its messages once each, and the queue has them inflight. */
  ghost predicate Owns(s: Session, q: Queue) {
    Distinct(Messages(s.list)) && AllInflight(q, Messages(s.list))
  }

  // ---- Delivery

  function Grant(s: Session, max: nat): (n: nat) {
    if s.cancelled then 0 else Min(s.credit.Available(), max)
  }

  /** The messages a delivery request hands to the session. */
  function Handed(q: Queue, s: Session, max: nat): (msgs: seq<nat>)
    requires q.head <= |q.states|
  {
    if Grant(s, max) == 0 then [] else Delivered(q, Grant(s, max))
  }

  function DeliverQueue(q: Queue, s: Session, max: nat): (r: Queue)
    requires q.head <= |q.states|
  {
    if Grant(s, max) == 0 then q else Deliver(q, Grant(s, max))
  }

  function Receive(s: Session, msgs: seq<nat>): (r: Session) {
    s.(nextTag := s.nextTag + |msgs|, list := s.list + Tagged(s.nextTag, msgs),
       credit := s.credit.(inFlight := s.credit.inFlight + |msgs|))
  }

  lemma NothingReceived(s: Session)
    ensures Tagged(s.nextTag, []) == [] && Receive(s, []) == s
  {
  }

  lemma ReceiveKeeps(s: Session, msgs: seq<nat>)
    requires SessionOk(s) && !s.cancelled && |msgs| <= s.credit.Available()
    ensures SessionOk(Receive(s, msgs))
  {
  }

  // ---- Settlement

  /** Which error a settlement request meets, if any, in the order of the checks. */
  function SettleError(s: Session, tag: nat): (e: Option<ConsumerError>)
    ensures e == None ==> HasTag(s.list, tag)
  {
    if s.cancelled then Some(ConsumerCancelled)
    else if tag < 1 || tag >= s.nextTag then Some(InvalidDeliveryTag)
    else if !HasTag(s.list, tag) then Some(DeliveryTagAlreadySettled)
    else None
  }

  /** A request fails exactly when its tag is not outstanding. */
  lemma FailsIffNotOutstanding(s: Session, tag: nat)
    requires SessionOk(s)
    ensures SettleError(s, tag).Some? <==> !HasTag(s.list, tag)
  {
  }

  function Taken(s: Session, tag: nat, mode: Mode): (r: seq<Entry>)
    requires HasTag(s.list, tag)
    ensures |r| > 0
  {
    var k := TagIndex(s.list, tag);
    if mode == One then [s.list[k]] else s.list[..k + 1]
  }

  function Unsettled(s: Session, tag: nat, mode: Mode): (r: seq<Entry>)
    requires HasTag(s.list, tag)
    ensures |r| + |Taken(s, tag, mode)| == |s.list|
  {
    var k := TagIndex(s.list, tag);
    if mode == One then RemoveAt(s.list, k) else s.list[k + 1..]
  }

  function Settle(s: Session, tag: nat, mode: Mode): (r: Session)
    requires HasTag(s.list, tag)
  {
    s.(list := Unsettled(s, tag, mode), credit := s.credit.Release(|Taken(s, tag, mode)|))
  }

  /** The state a settled message ends in. */
  function SettledState(reason: NackReason): (st: MsgState) {
    if reason == Requeue then Retry else Acked
  }

  /** What the queue makes of a settled list of messages. */
  function Disposed(q: Queue, order: seq<nat>, reason: NackReason): (r: Queue) {
    if reason == Requeue then NackToRetry(q, order) else Ack(q, order)
  }

  function Cancelled(s: Session): (r: Session) {
    s.(list := [], credit := s.credit.Release(|s.list|), cancelled := true)
  }

  function CancelReason(d: Disposition): (r: NackReason) {
    if d == RequeueUnacked then Requeue else Reject
  }

  /** Taken and kept entries are the outstanding ones, split. */
  lemma SettleSplits(s: Session, tag: nat, mode: Mode)
    requires HasTag(s.list, tag)
    ensures multiset(s.list) == multiset(Taken(s, tag, mode)) + multiset(Unsettled(s, tag, mode))
    ensures forall e :: e in s.list <==> e in Taken(s, tag, mode) || e in Unsettled(s, tag, mode)
  {
    hide TagIndex, HasTag;
    var k := TagIndex(s.list, tag);
    var a, e, b := s.list[..k], s.list[k], s.list[k + 1..];
    assert s.list == a + [e] + b;
    assert s.list[..k + 1] == a + [e];
    assert RemoveAt(s.list, k) == a + b;
    SplitThree(a, e, b);
  }

  lemma SplitThree(a: seq<Entry>, e: Entry, b: seq<Entry>)
    ensures multiset(a + [e] + b) == multiset([e]) + multiset(a + b) == multiset(a + [e]) + multiset(b)
    ensures forall x :: x in a + [e] + b <==> x in [e] || x in a + b
    ensures forall x :: x in a + [e] + b <==> x in a + [e] || x in b
  {
  }

  /** One-mode takes the entry of the tag, multiple-mode all entries up to it. */
  lemma TakenAre(s: Session, tag: nat, mode: Mode)
    requires TagsAscend(s.list) && HasTag(s.list, tag)
    ensures forall e ::
      e in Taken(s, tag, mode) <==> e in s.list && (if mode == One then e.tag == tag else e.tag <= tag)
  {
    hide TagIndex, HasTag;
    var k := TagIndex(s.list, tag);
    forall e ensures e in Taken(s, tag, mode) <==> e in s.list && (if mode == One then e.tag == tag else e.tag <= tag) {
      if e in s.list {
        var j :| 0 <= j < |s.list| && s.list[j] == e;
        if j <= k && mode == Multiple { assert s.list[..k + 1][j] == e; }
      }
    }
  }

  lemma KeptAscends(s: Session, tag: nat, mode: Mode)
    requires TagsAscend(s.list) && HasTag(s.list, tag)
    ensures TagsAscend(Unsettled(s, tag, mode))
    ensures forall k :: 0 <= k < |Unsettled(s, tag, mode)| ==> Unsettled(s, tag, mode)[k] in s.list
  {
    hide TagIndex, HasTag;
  }

  lemma SettleKeeps(s: Session, tag: nat, mode: Mode)
    requires SessionOk(s) && HasTag(s.list, tag)
    ensures SessionOk(Settle(s, tag, mode))
  {
    hide TagIndex, HasTag, Unsettled, Taken;
    KeptAscends(s, tag, mode);
    var r := Settle(s, tag, mode);
    forall k | 0 <= k < |r.list| ensures 1 <= r.list[k].tag < r.nextTag { assert r.list[k] in s.list; }
  }

  lemma StillOpen(s: Session, tag: nat, mode: Mode)
    requires HasTag(s.list, tag)
    ensures Settle(s, tag, mode).cancelled == s.cancelled
  {
  }

  lemma SettledMessages(s: Session, tag: nat, mode: Mode)
    requires HasTag(s.list, tag)
    ensures multiset(Messages(s.list)) ==
      multiset(Messages(Taken(s, tag, mode))) + multiset(Messages(Unsettled(s, tag, mode)))
  {
    hide TagIndex, HasTag, Messages;
    var k := TagIndex(s.list, tag);
    var a, e, b := s.list[..k], s.list[k], s.list[k + 1..];
    assert s.list == (a + [e]) + b && s.list[..k + 1] == a + [e] && RemoveAt(s.list, k) == a + b;
    MessagesConcat(a + [e], b);
    MessagesConcat(a, [e]);
    MessagesConcat(a, b);
  }

  /** A settlement batch that stands for the taken messages touches only inflight messages, once
      each, and leaves the session owning the rest. */
  lemma SettleOwned(s: Session, q: Queue, tag: nat, mode: Mode, order: seq<nat>, reason: NackReason)
    requires Owns(s, q) && HasTag(s.list, tag) && multiset(order) == multiset(Messages(Taken(s, tag, mode)))
    ensures Distinct(order) && AllInflight(q, order) && |order| == |Taken(s, tag, mode)|
    ensures Owns(Settle(s, tag, mode), Disposed(q, order, reason))
  {
    hide TagIndex, HasTag, Messages, Taken, Unsettled, SetAll, MergeBlocks;
    SettledMessages(s, tag, mode);
    SplitOwned(q, Messages(s.list), order, Messages(Unsettled(s, tag, mode)), reason);
    SameMultiset(order, Messages(Taken(s, tag, mode)));
  }

  /** A session holds no more than is inflight, so its credit fits where the queue's size does. */
  lemma OwnedAreInflight(s: Session, q: Queue)
    requires Owns(s, q)
    ensures |s.list| <= Count(q.states, Inflight) && |s.list| + ReadyCount(q) <= |q.states|
  {
    CountSetAll(q.states, Messages(s.list), Inflight, Acked);
    CountsCover(q.states);
  }

  lemma DisposedKeeps(q: Queue, order: seq<nat>, reason: NackReason)
    requires QueueSpec.Valid(q) && AllInflight(q, order)
    ensures QueueSpec.Valid(Disposed(q, order, reason))
  {
    NackKeeps(q, order);
    AckKeeps(q, order);
  }

  lemma SplitOwned(q: Queue, all: seq<nat>, order: seq<nat>, rest: seq<nat>, reason: NackReason)
    requires Distinct(all) && AllInflight(q, all) && multiset(all) == multiset(order) + multiset(rest)
    ensures Distinct(order) && AllInflight(q, order)
    ensures Distinct(rest) && AllInflight(Disposed(q, order, reason), rest)
  {
    DistinctIsMultiset(all);
    DistinctIsMultiset(order);
    DistinctIsMultiset(rest);
    forall i ensures multiset(order)[i] <= 1 && multiset(rest)[i] <= 1 {
      assert multiset(all)[i] == multiset(order)[i] + multiset(rest)[i];
    }
    forall i ensures i in order ==> i in all && i !in rest ensures i in rest ==> i in all {
      assert multiset(all)[i] == multiset(order)[i] + multiset(rest)[i];
      assert multiset(all)[i] <= 1;
      assert i in order <==> multiset(order)[i] > 0;
      assert i in rest <==> multiset(rest)[i] > 0;
      assert i in all <==> multiset(all)[i] > 0;
    }
  }

  /** What a session receives it owns, next to what it had. */
  lemma ReceiveOwned(s: Session, q: Queue, max: nat)
    requires QueueSpec.Valid(q) && Owns(s, q)
    ensures Owns(Receive(s, Handed(q, s, max)), DeliverQueue(q, s, max))
  {
    hide Messages;
    var msgs := Handed(q, s, max);
    MessagesConcat(s.list, Tagged(s.nextTag, msgs));
    TaggedMessages(s.nextTag, msgs);
    if Grant(s, max) != 0 {
      DeliveredAre(q, Grant(s, max));
      DeliverKeeps(q, Grant(s, max));
      FreshOwned(q, Messages(s.list), msgs, Grant(s, max));
    } else {
      DistinctConcat(Messages(s.list), msgs);
    }
  }

  lemma TaggedMessages(first: nat, msgs: seq<nat>)
    ensures Messages(Tagged(first, msgs)) == msgs
  {
  }

  lemma FreshOwned(q: Queue, held: seq<nat>, msgs: seq<nat>, n: nat)
    requires QueueSpec.Valid(q) && Distinct(held) && AllInflight(q, held) && msgs == Delivered(q, n)
    ensures Distinct(held + msgs) && AllInflight(Deliver(q, n), held + msgs)
  {
    hide Delivered, StillHolding, QueueSpec.Valid;
    DeliveredAre(q, n);
    NotInflightBefore(q, n);
    DistinctConcat(held, msgs);
    assert forall i :: i in held + msgs ==> i in held || i in msgs;
  }

  lemma NotInflightBefore(q: Queue, n: nat)
    requires QueueSpec.Valid(q)
    ensures forall i :: i in Delivered(q, n) ==> i < |q.states| && q.states[i] != Inflight
  {
    hide Delivered, Span;
    DeliveredAre(q, n);
    var seqs, direct := Delivered(q, n), Min(n, |q.states| - q.head);
    assert seqs == seqs[..direct] + seqs[direct..];
  }
}
