/** Requests to many sessions on one queue, and the world that a list of them leads to. Which messages a
    settlement hands the queue, and in which order, follows from the request. */
module Traces {
  import opened Kernels
  import opened IntrusiveList
  import opened QueueSpec
  import opened Deliveries
  import opened SessionSpec
  import opened Runs

  datatype Operation =
    | PublishOp(count: nat)
    | OpenOp(prefetch: Prefetch)
    | DeliverOp(sid: nat, max: nat)
    | AckOp(sid: nat, tag: nat, mode: Mode)
    | NackOp(sid: nat, tag: nat, mode: Mode, reason: NackReason)
    | CancelOp(sid: nat, disposition: Disposition)
    | RetryOp

  /** The session exists and a prefetch limit fits; any other request is passed over. */
  predicate Possible(w: World, op: Operation) {
    match op
    case PublishOp(_) => true
    case OpenOp(prefetch) => prefetch.Limited? ==> prefetch.limit <= U32_MAX
    case RetryOp => true
    case _ => op.sid < |w.sessions|
  }

  /** What a settlement of the tag hands the queue: first deliveries, then redeliveries. */
  function SettledBy(s: Session, tag: nat, mode: Mode, redelivered: set<nat>): (order: seq<nat>) {
    if HasTag(s.list, tag) then SettleOrder(Messages(Taken(s, tag, mode)), redelivered) else []
  }

  ghost function StepOf(w: World, op: Operation): (step: Step)
    requires Possible(w, op)
    ensures Enabled(w, step)
  {
    var red := w.queue.redelivered;
    match op
    case PublishOp(count) => PublishStep(count)
    case OpenOp(prefetch) => OpenStep(prefetch)
    case DeliverOp(sid, max) => DeliverStep(sid, max)
    case AckOp(sid, tag, mode) =>
      SettledComplete(w.sessions[sid], tag, mode, red);
      SettleStep(sid, tag, mode, NackReason.Reject, SettledBy(w.sessions[sid], tag, mode, red))
    case NackOp(sid, tag, mode, reason) =>
      SettledComplete(w.sessions[sid], tag, mode, red);
      SettleStep(sid, tag, mode, reason, SettledBy(w.sessions[sid], tag, mode, red))
    case CancelOp(sid, disposition) =>
      SettleOrderComplete(Messages(w.sessions[sid].list), red);
      CancelStep(sid, disposition, SettleOrder(Messages(w.sessions[sid].list), red))
    case RetryOp => RetryStep
  }

  lemma SettledComplete(s: Session, tag: nat, mode: Mode, redelivered: set<nat>)
    ensures HasTag(s.list, tag) ==>
      multiset(SettledBy(s, tag, mode, redelivered)) == multiset(Messages(Taken(s, tag, mode)))
  {
    if HasTag(s.list, tag) { SettleOrderComplete(Messages(Taken(s, tag, mode)), redelivered); }
  }

  ghost function After(w: World, op: Operation): (r: World) {
    if w.queue.head <= |w.queue.states| && Possible(w, op) then Next(w, StepOf(w, op)) else w
  }

  /** The world that the requests lead to. */
  ghost function WorldAfter(ops: seq<Operation>): (w: World) {
    if ops == [] then START else After(WorldAfter(ops[..|ops| - 1]), ops[|ops| - 1])
  }

  lemma WorldAfterNext(ops: seq<Operation>, op: Operation)
    ensures WorldAfter(ops + [op]) == After(WorldAfter(ops), op)
  {
    assert (ops + [op])[..|ops|] == ops;
  }

  lemma AfterOk(w: World, op: Operation)
    requires WorldOk(w)
    ensures WorldOk(After(w, op)) && w.queue.head <= |w.queue.states|
  {
    hide WorldOk, Next, StepOf;
    HeadInRange(w);
    if Possible(w, op) { StepOk(w, StepOf(w, op)); }
  }

  /** Whatever is requested, the world stays consistent. */
  lemma {:induction false} WorldAfterOk(ops: seq<Operation>)
    ensures WorldOk(WorldAfter(ops)) && WorldAfter(ops).queue.head <= |WorldAfter(ops).queue.states|
  {
    hide WorldOk, After;
    if ops == [] {
      StartOk();
    } else {
      WorldAfterOk(ops[..|ops| - 1]);
      AfterOk(WorldAfter(ops[..|ops| - 1]), ops[|ops| - 1]);
    }
    HeadInRange(WorldAfter(ops));
  }

  // ---- Redelivery

  /** The messages a request hands to a session. */
  ghost function HandedTo(w: World, op: Operation): (msgs: seq<nat>) {
    if op.DeliverOp? && op.sid < |w.sessions| && w.queue.head <= |w.queue.states|
    then Handed(w.queue, w.sessions[op.sid], op.max)
    else []
  }

  ghost predicate DeliveredBy(ops: seq<Operation>, i: nat) {
    exists k :: 0 <= k < |ops| && HandedAtRequest(ops, k, i)
  }

  ghost predicate HandedAtRequest(ops: seq<Operation>, k: nat, i: nat)
    requires k < |ops|
  {
    i in HandedTo(WorldAfter(ops[..k]), ops[k])
  }

  lemma DeliveredNext(ops: seq<Operation>, op: Operation, i: nat)
    ensures DeliveredBy(ops + [op], i) <==> DeliveredBy(ops, i) || i in HandedTo(WorldAfter(ops), op)
  {
    hide WorldAfter, HandedTo;
    var all := ops + [op];
    assert all[..|ops|] == ops;
    forall k: nat | k < |ops| ensures HandedAtRequest(all, k, i) <==> HandedAtRequest(ops, k, i) {
      assert all[..k] == ops[..k];
    }
    assert HandedAtRequest(all, |ops|, i) <==> i in HandedTo(WorldAfter(ops), op);
    if DeliveredBy(ops, i) {
      var k :| 0 <= k < |ops| && HandedAtRequest(ops, k, i);
      assert HandedAtRequest(all, k, i);
    }
  }

  lemma HandedMoves(w: World, op: Operation, i: nat)
    requires WorldOk(w)
    ensures i < After(w, op).queue.head <==> i < w.queue.head || i in HandedTo(w, op)
    ensures i in HandedTo(w, op) ==> (i in w.queue.redelivered <==> i < w.queue.head)
  {
    hide WorldOk, Next, Handed;
    HeadInRange(w);
    if Possible(w, op) {
      HeadMoves(w, StepOf(w, op), i);
      assert HandedBy(w, StepOf(w, op)) == HandedTo(w, op);
    }
  }

  /** The messages behind the sequential head are exactly those delivered so far. */
  lemma {:induction false} HeadIsDelivered(ops: seq<Operation>, i: nat)
    ensures i < WorldAfter(ops).queue.head <==> DeliveredBy(ops, i)
  {
    hide After, HandedTo, DeliveredBy;
    if ops == [] {
      NothingDeliveredYet(i);
    } else {
      var init, last := ops[..|ops| - 1], ops[|ops| - 1];
      assert ops == init + [last];
      HeadIsDelivered(init, i);
      WorldAfterOk(init);
      HandedMoves(WorldAfter(init), last, i);
      DeliveredNext(init, last, i);
    }
  }

  lemma NothingDeliveredYet(i: nat)
    ensures !DeliveredBy([], i)
  {
  }

  /** A delivered message is marked redelivered exactly when an earlier request delivered it. */
  lemma MarkTellsHistory(ops: seq<Operation>, op: Operation, i: nat)
    requires i in HandedTo(WorldAfter(ops), op)
    ensures i in WorldAfter(ops).queue.redelivered <==> DeliveredBy(ops, i)
  {
    hide HandedTo, DeliveredBy, WorldAfter;
    WorldAfterOk(ops);
    HandedMoves(WorldAfter(ops), op, i);
    HeadIsDelivered(ops, i);
  }

  // ---- How messages end

  /** Acknowledged on the first delivery, acknowledged on a redelivery, or dropped by a negative
      acknowledgement or a cancel. */
  datatype Ending = AckedFirst | AckedAgain | Dropped

  /** What a request that is carried out ends the message as, if it does. */
  function EndedBy(w: World, op: Operation, i: nat): (e: Option<Ending>) {
    var red := w.queue.redelivered;
    if !Possible(w, op) then None else
    match op
    case AckOp(sid, tag, mode) =>
      if i !in SettledBy(w.sessions[sid], tag, mode, red) then None
      else if i in red then Some(AckedAgain) else Some(AckedFirst)
    case NackOp(sid, tag, mode, reason) =>
      if reason != Requeue && i in SettledBy(w.sessions[sid], tag, mode, red) then Some(Dropped) else None
    case CancelOp(sid, d) =>
      if d == DropUnacked && i in SettleOrder(Messages(w.sessions[sid].list), red) then Some(Dropped) else None
    case _ => None
  }

  ghost function EndingOf(ops: seq<Operation>, i: nat): (e: Option<Ending>) {
    if ops == [] then None else
      var init, last := ops[..|ops| - 1], ops[|ops| - 1];
      var e := EndedBy(WorldAfter(init), last, i);
      if e.Some? then e else EndingOf(init, i)
  }

  lemma EndingNext(ops: seq<Operation>, op: Operation, i: nat)
    ensures EndingOf(ops + [op], i) ==
      var e := EndedBy(WorldAfter(ops), op, i); if e.Some? then e else EndingOf(ops, i)
  {
    hide WorldAfter, EndedBy;
    assert (ops + [op])[..|ops|] == ops;
  }

  ghost predicate HasEnded(q: Queue, i: nat) {
    i < |q.states| && q.states[i] == Acked
  }

  /** A settled batch ends exactly its messages, unless it requeues them. */
  lemma DisposedEnds(q: Queue, order: seq<nat>, reason: NackReason, i: nat)
    requires AllInflight(q, order)
    ensures HasEnded(Disposed(q, order, reason), i) <==> HasEnded(q, i) || (reason != Requeue && i in order)
    ensures i in order ==> !HasEnded(q, i)
  {
  }

  lemma DeliverEnds(q: Queue, n: nat, i: nat)
    requires QueueSpec.Valid(q)
    ensures HasEnded(Deliver(q, n), i) <==> HasEnded(q, i)
  {
    hide Delivered, Indexes, StillHolding;
    DeliveredWaiting(q, n);
  }

  lemma SettleEnds(w: World, sid: nat, tag: nat, mode: Mode, reason: NackReason, i: nat)
    requires WorldOk(w) && sid < |w.sessions| && w.queue.head <= |w.queue.states|
    ensures var order := SettledBy(w.sessions[sid], tag, mode, w.queue.redelivered);
      && Enabled(w, SettleStep(sid, tag, mode, reason, order))
      && (i in order ==> !HasEnded(w.queue, i))
      && (HasEnded(Next(w, SettleStep(sid, tag, mode, reason, order)).queue, i) <==>
        HasEnded(w.queue, i) || (reason != Requeue && i in order))
  {
    hide Taken, Messages, SettleOrder, Settle, SetAll, HasTag;
    var s := w.sessions[sid];
    var order := SettledBy(s, tag, mode, w.queue.redelivered);
    assert SessionOk(s) && Owns(s, w.queue);
    SettledComplete(s, tag, mode, w.queue.redelivered);
    FailsIffNotOutstanding(s, tag);
    if HasTag(s.list, tag) {
      SettleOwned(s, w.queue, tag, mode, order, reason);
      DisposedEnds(w.queue, order, reason, i);
    }
  }

  lemma CancelEnds(w: World, sid: nat, d: Disposition, i: nat)
    requires WorldOk(w) && sid < |w.sessions| && w.queue.head <= |w.queue.states|
    ensures var order := SettleOrder(Messages(w.sessions[sid].list), w.queue.redelivered);
      && Enabled(w, CancelStep(sid, d, order))
      && (i in order ==> !HasEnded(w.queue, i))
      && (HasEnded(Next(w, CancelStep(sid, d, order)).queue, i) <==>
        HasEnded(w.queue, i) || (d == DropUnacked && i in order))
  {
    hide Messages, SettleOrder, SetAll;
    var msgs := Messages(w.sessions[sid].list);
    assert Owns(w.sessions[sid], w.queue);
    SettleOrderComplete(msgs, w.queue.redelivered);
    SameMultiset(SettleOrder(msgs, w.queue.redelivered), msgs);
    DisposedEnds(w.queue, SettleOrder(msgs, w.queue.redelivered), CancelReason(d), i);
  }

  lemma OtherEnds(w: World, op: Operation, i: nat)
    requires WorldOk(w) && w.queue.head <= |w.queue.states|
    requires op.PublishOp? || op.OpenOp? || op.DeliverOp? || op.RetryOp?
    ensures HasEnded(After(w, op).queue, i) <==> HasEnded(w.queue, i)
  {
    hide Deliver, Select, MergeBlocks, Handed, Receive;
    if op.DeliverOp? && Possible(w, op) { DeliverEnds(w.queue, Grant(w.sessions[op.sid], op.max), i); }
  }

  /** A request ends exactly the messages that it says, and none twice. */
  lemma OneEnds(w: World, op: Operation, i: nat)
    requires WorldOk(w)
    ensures HasEnded(After(w, op).queue, i) <==> HasEnded(w.queue, i) || EndedBy(w, op, i).Some?
    ensures EndedBy(w, op, i).Some? ==> !HasEnded(w.queue, i)
  {
    hide WorldOk, Next, HasEnded, SettledBy, SettleOrder;
    HeadInRange(w);
    if Possible(w, op) {
      match op
      case AckOp(sid, tag, mode) => SettleEnds(w, sid, tag, mode, NackReason.Reject, i);
      case NackOp(sid, tag, mode, reason) => SettleEnds(w, sid, tag, mode, reason, i);
      case CancelOp(sid, d) => CancelEnds(w, sid, d, i);
      case _ => OtherEnds(w, op, i);
    }
  }

  /** A message is acked exactly when some request ended it. */
  lemma {:induction false} EndedIffAcked(ops: seq<Operation>, i: nat)
    ensures HasEnded(WorldAfter(ops).queue, i) <==> EndingOf(ops, i).Some?
  {
    hide After, EndedBy, HasEnded;
    if ops == [] {
      assert !HasEnded(START.queue, i) by { StartHasNone(i); }
    } else {
      var init, last := ops[..|ops| - 1], ops[|ops| - 1];
      EndedIffAcked(init, i);
      WorldAfterOk(init);
      OneEnds(WorldAfter(init), last, i);
    }
  }

  lemma StartHasNone(i: nat)
    ensures !HasEnded(START.queue, i)
  {
  }

  /** How a message ended stays as it was. */
  lemma EndingStays(ops: seq<Operation>, op: Operation, i: nat)
    requires EndingOf(ops, i).Some?
    ensures EndingOf(ops + [op], i) == EndingOf(ops, i)
  {
    hide EndingOf, EndedBy, HasEnded, WorldAfter;
    EndedIffAcked(ops, i);
    WorldAfterOk(ops);
    OneEnds(WorldAfter(ops), op, i);
    EndingNext(ops, op, i);
  }

  // ---- Refusals

  /** Request `k` issued the tag to the session: it was not outstanding before and is after. */
  ghost predicate IssuedAt(ops: seq<Operation>, k: nat, sid: nat, tag: nat)
    requires k < |ops|
  {
    var w, r := WorldAfter(ops[..k]), WorldAfter(ops[..k + 1]);
    && sid < |w.sessions| && sid < |r.sessions|
    && !HasTag(w.sessions[sid].list, tag) && HasTag(r.sessions[sid].list, tag)
  }

  ghost predicate IssuedBy(ops: seq<Operation>, sid: nat, tag: nat) {
    exists k :: 0 <= k < |ops| && IssuedAt(ops, k, sid, tag)
  }

  /** Request `k` cancelled the session. */
  ghost predicate CancelledAt(ops: seq<Operation>, k: nat, sid: nat)
    requires k < |ops|
  {
    ops[k].CancelOp? && ops[k].sid == sid && sid < |WorldAfter(ops[..k]).sessions|
  }

  ghost predicate CancelledBy(ops: seq<Operation>, sid: nat) {
    exists k :: 0 <= k < |ops| && CancelledAt(ops, k, sid)
  }

  /** What one request makes of one session's tags: those it issues are the next ones. */
  lemma TagsOfOne(w: World, op: Operation, sid: nat, tag: nat)
    requires WorldOk(w) && sid < |w.sessions|
    ensures var r := After(w, op);
      && sid < |r.sessions| && r.sessions[sid].nextTag >= w.sessions[sid].nextTag >= 1
      && (!HasTag(w.sessions[sid].list, tag) && HasTag(r.sessions[sid].list, tag) <==>
        w.sessions[sid].nextTag <= tag < r.sessions[sid].nextTag)
      && (r.sessions[sid].cancelled <==> w.sessions[sid].cancelled || (op.CancelOp? && op.sid == sid))
  {
    hide Deliver, Delivered, Disposed, RetryAllNow, Publish, SettleOrder, HasTag, Taken, Unsettled, Messages, Tagged;
    HeadInRange(w);
    var s := w.sessions[sid];
    assert SessionOk(s);
    OldTags(s, tag);
    if op.DeliverOp? && op.sid == sid { NewTags(s, Handed(w.queue, s, op.max), tag); }
    if (op.AckOp? || op.NackOp?) && op.sid == sid && HasTag(s.list, op.tag) { FewerTags(s, op.tag, op.mode, tag); }
    NoTagsAtAll(tag);
  }

  lemma OldTags(s: Session, tag: nat)
    requires SessionOk(s)
    ensures HasTag(s.list, tag) ==> 1 <= tag < s.nextTag
  {
  }

  lemma NoTagsAtAll(tag: nat)
    ensures !HasTag([], tag)
  {
  }

  lemma NewTags(s: Session, msgs: seq<nat>, tag: nat)
    ensures HasTag(Receive(s, msgs).list, tag) <==> HasTag(s.list, tag) || s.nextTag <= tag < s.nextTag + |msgs|
  {
    var list := Receive(s, msgs).list;
    if HasTag(s.list, tag) {
      var k :| 0 <= k < |s.list| && s.list[k].tag == tag;
      assert list[k].tag == tag;
    }
    if s.nextTag <= tag < s.nextTag + |msgs| { assert list[|s.list| + tag - s.nextTag].tag == tag; }
  }

  lemma FewerTags(s: Session, tag: nat, mode: Mode, x: nat)
    requires HasTag(s.list, tag)
    ensures HasTag(Settle(s, tag, mode).list, x) ==> HasTag(s.list, x)
  {
    hide Taken, Unsettled;
    SettleSplits(s, tag, mode);
    var rest := Unsettled(s, tag, mode);
    if HasTag(rest, x) {
      var k :| 0 <= k < |rest| && rest[k].tag == x;
      assert rest[k] in s.list;
    }
  }

  /** The tags issued to a session are exactly those below its next tag. */
  lemma {:induction false} IssuedIffBelow(ops: seq<Operation>, sid: nat, tag: nat)
    ensures IssuedBy(ops, sid, tag) <==>
      sid < |WorldAfter(ops).sessions| && 1 <= tag < WorldAfter(ops).sessions[sid].nextTag
  {
    hide After, HasTag, WorldOk;
    if ops == [] {
    } else {
      var n := |ops| - 1;
      var init, w, r := ops[..n], WorldAfter(ops[..n]), WorldAfter(ops);
      assert ops[..n + 1] == ops;
      IssuedIffBelow(init, sid, tag);
      IssuedNext(ops, sid, tag);
      WorldAfterOk(init);
      if sid < |w.sessions| {
        TagsOfOne(w, ops[n], sid, tag);
      } else {
        JustOpened(w, ops[n], sid);
      }
    }
  }

  lemma JustOpened(w: World, op: Operation, sid: nat)
    requires |w.sessions| <= sid
    ensures sid < |After(w, op).sessions| ==> op.OpenOp? && After(w, op).sessions[sid] == NewSession(op.prefetch)
  {
    hide Deliver, Delivered, Disposed, RetryAllNow, Publish, SettleOrder, HasTag, Taken, Unsettled, Messages;
  }

  lemma IssuedNext(ops: seq<Operation>, sid: nat, tag: nat)
    requires ops != []
    ensures var n := |ops| - 1; IssuedBy(ops, sid, tag) <==> IssuedBy(ops[..n], sid, tag) || IssuedAt(ops, n, sid, tag)
  {
    hide WorldAfter, HasTag;
    var n := |ops| - 1;
    forall k: nat | k < n ensures IssuedAt(ops, k, sid, tag) <==> IssuedAt(ops[..n], k, sid, tag) {
      assert ops[..n][..k] == ops[..k] && ops[..n][..k + 1] == ops[..k + 1];
    }
    if IssuedBy(ops[..n], sid, tag) {
      var k :| 0 <= k < n && IssuedAt(ops[..n], k, sid, tag);
      assert IssuedAt(ops, k, sid, tag);
    }
  }

  lemma {:induction false} CancelledIffAsked(ops: seq<Operation>, sid: nat)
    ensures CancelledBy(ops, sid) <==> sid < |WorldAfter(ops).sessions| && WorldAfter(ops).sessions[sid].cancelled
  {
    hide After, WorldOk;
    if ops == [] {
    } else {
      var n := |ops| - 1;
      var init, w := ops[..n], WorldAfter(ops[..n]);
      CancelledIffAsked(init, sid);
      CancelledNext(ops, sid);
      WorldAfterOk(init);
      if sid < |w.sessions| {
        TagsOfOne(w, ops[n], sid, 0);
      } else {
        JustOpened(w, ops[n], sid);
      }
    }
  }

  lemma CancelledNext(ops: seq<Operation>, sid: nat)
    requires ops != []
    ensures var n := |ops| - 1; CancelledBy(ops, sid) <==> CancelledBy(ops[..n], sid) || CancelledAt(ops, n, sid)
  {
    hide WorldAfter;
    var n := |ops| - 1;
    forall k: nat | k < n ensures CancelledAt(ops, k, sid) <==> CancelledAt(ops[..n], k, sid) {
      assert ops[..n][..k] == ops[..k];
    }
    if CancelledBy(ops[..n], sid) {
      var k :| 0 <= k < n && CancelledAt(ops[..n], k, sid);
      assert CancelledAt(ops, k, sid);
    }
  }

  /** The refusal of a settlement that follows the given requests: a cancelled session refuses everything,
      a tag that was never issued is invalid, and one that was issued and is no longer outstanding is
      settled already. */
  ghost predicate RefusedFor(ops: seq<Operation>, sid: nat, tag: nat, e: Option<ConsumerError>)
    requires sid < |WorldAfter(ops).sessions|
  {
    var outstanding := HasTag(WorldAfter(ops).sessions[sid].list, tag);
    && (e == Some(ConsumerCancelled) <==> CancelledBy(ops, sid))
    && (e == Some(InvalidDeliveryTag) <==> !CancelledBy(ops, sid) && !IssuedBy(ops, sid, tag))
    && (e == Some(DeliveryTagAlreadySettled) <==>
      !CancelledBy(ops, sid) && IssuedBy(ops, sid, tag) && !outstanding)
    && (e == None <==> outstanding)
  }

  /** Which refusal is given tells what became of the tag. */
  lemma RefusalTells(ops: seq<Operation>, sid: nat, tag: nat)
    requires sid < |WorldAfter(ops).sessions|
    ensures RefusedFor(ops, sid, tag, SettleError(WorldAfter(ops).sessions[sid], tag))
  {
    hide WorldAfter, HasTag, IssuedBy, CancelledBy;
    WorldAfterOk(ops);
    IssuedIffBelow(ops, sid, tag);
    CancelledIffAsked(ops, sid);
    assert SessionOk(WorldAfter(ops).sessions[sid]);
    FailsIffNotOutstanding(WorldAfter(ops).sessions[sid], tag);
  }
}
