/** Every run of many sessions on one queue. */
module Runs {
  import opened Kernels
  import opened IntrusiveList
  import opened QueueSpec
  import opened Deliveries
  import opened SessionSpec

  datatype World = World(queue: Queue, sessions: seq<Session>)

  datatype Step =
    | PublishStep(count: nat)
    | OpenStep(prefetch: Prefetch)
    | DeliverStep(sid: nat, max: nat)
    | SettleStep(sid: nat, tag: nat, mode: Mode, reason: NackReason, order: seq<nat>)
    | CancelStep(sid: nat, disposition: Disposition, order: seq<nat>)
    | RetryStep

  const START := World(EMPTY_QUEUE, [])

  /** A settlement hands the queue its messages in whatever order the window keeps them. */
  ghost predicate Enabled(w: World, step: Step) {
    match step
    case PublishStep(_) => true
    case OpenStep(prefetch) => prefetch.Limited? ==> prefetch.limit <= U32_MAX
    case DeliverStep(sid, _) => sid < |w.sessions|
    case SettleStep(sid, tag, mode, _, order) =>
      sid < |w.sessions| && (HasTag(w.sessions[sid].list, tag) ==>
        multiset(order) == multiset(Messages(Taken(w.sessions[sid], tag, mode))))
    case CancelStep(sid, _, order) => sid < |w.sessions| && multiset(order) == multiset(Messages(w.sessions[sid].list))
    case RetryStep => true
  }

  ghost function HandedBy(w: World, step: Step): (msgs: seq<nat>)
    requires Enabled(w, step) && w.queue.head <= |w.queue.states|
  {
    if step.DeliverStep? then Handed(w.queue, w.sessions[step.sid], step.max) else []
  }

  ghost function Next(w: World, step: Step): (r: World)
    requires Enabled(w, step) && w.queue.head <= |w.queue.states|
  {
    match step
    case PublishStep(count) => w.(queue := Publish(w.queue, count))
    case OpenStep(prefetch) => w.(sessions := w.sessions + [NewSession(prefetch)])
    case DeliverStep(sid, max) =>
      var s := w.sessions[sid];
      World(DeliverQueue(w.queue, s, max), w.sessions[sid := Receive(s, Handed(w.queue, s, max))])
    case SettleStep(sid, tag, mode, reason, order) =>
      var s := w.sessions[sid];
      if SettleError(s, tag).Some? then w else
      World(Disposed(w.queue, order, reason), w.sessions[sid := Settle(s, tag, mode)])
    case CancelStep(sid, disposition, order) =>
      World(Disposed(w.queue, order, CancelReason(disposition)), w.sessions[sid := Cancelled(w.sessions[sid])])
    case RetryStep => w.(queue := RetryAllNow(w.queue))
  }

  function Held(w: World, sid: nat): (r: seq<nat>)
    requires sid < |w.sessions|
  {
    Messages(w.sessions[sid].list)
  }

  ghost predicate Apart(a: seq<nat>, b: seq<nat>) {
    forall i :: i in a ==> i !in b
  }

  /** Some session holds the message. */
  ghost predicate HeldBySome(w: World, i: nat) {
    exists sid :: 0 <= sid < |w.sessions| && i in Held(w, sid)
  }

  ghost predicate WorldOk(w: World) {
    && QueueSpec.Valid(w.queue)
    && (forall sid :: 0 <= sid < |w.sessions| ==> SessionOk(w.sessions[sid]) && Owns(w.sessions[sid], w.queue))
    && (forall a, b :: 0 <= a < |w.sessions| && 0 <= b < |w.sessions| && a != b ==> Apart(Held(w, a), Held(w, b)))
    && (forall i :: 0 <= i < |w.queue.states| && w.queue.states[i] == Inflight ==> HeldBySome(w, i))
  }

  ghost predicate HeldAt(w: World, sid: nat, k: nat, i: nat) {
    sid < |w.sessions| && k < |w.sessions[sid].list| && w.sessions[sid].list[k].msg == i
  }

  /** A message is inflight exactly when a session holds it, and then it is one session, under
      one tag. */
  lemma InflightIsHeldOnce(w: World, i: nat)
    requires WorldOk(w)
    ensures i < |w.queue.states| && w.queue.states[i] == Inflight <==> exists sid: nat, k: nat :: HeldAt(w, sid, k, i)
    ensures forall a: nat, j: nat, b: nat, k: nat :: HeldAt(w, a, j, i) && HeldAt(w, b, k, i) ==> a == b && j == k
  {
    forall a: nat, j: nat, b: nat, k: nat | HeldAt(w, a, j, i) && HeldAt(w, b, k, i) ensures a == b && j == k {
      HeldIsIn(w, a, j, i);
      HeldIsIn(w, b, k, i);
      assert a != b ==> Apart(Held(w, a), Held(w, b));
      assert Owns(w.sessions[a], w.queue) && Distinct(Held(w, a));
    }
    if i < |w.queue.states| && w.queue.states[i] == Inflight {
      assert HeldBySome(w, i);
      var sid: nat :| sid < |w.sessions| && i in Held(w, sid);
      var k: nat :| k < |Held(w, sid)| && Held(w, sid)[k] == i;
      assert HeldAt(w, sid, k, i);
    }
    if exists sid: nat, k: nat :: HeldAt(w, sid, k, i) {
      var sid: nat, k: nat :| HeldAt(w, sid, k, i);
      HeldIsIn(w, sid, k, i);
      assert Owns(w.sessions[sid], w.queue) && AllInflight(w.queue, Held(w, sid));
    }
  }

  lemma HeldIsIn(w: World, sid: nat, k: nat, i: nat)
    requires HeldAt(w, sid, k, i)
    ensures k < |Held(w, sid)| && Held(w, sid)[k] == i && i in Held(w, sid)
  {
  }

  // ---- Every step keeps the invariant

  ghost predicate IsInflight(q: Queue, i: nat) {
    i < |q.states| && q.states[i] == Inflight
  }

  /** Changing one session and the queue, while the others keep what they hold. */
  lemma ReplaceOk(w: World, q: Queue, sid: nat, s: Session)
    requires WorldOk(w) && sid < |w.sessions| && QueueSpec.Valid(q) && SessionOk(s) && Owns(s, q)
    requires forall b :: 0 <= b < |w.sessions| && b != sid ==>
      AllInflight(q, Held(w, b)) && Apart(Messages(s.list), Held(w, b))
    requires forall i :: IsInflight(q, i) ==> i in Messages(s.list) || (IsInflight(w.queue, i) && i !in Held(w, sid))
    ensures WorldOk(World(q, w.sessions[sid := s]))
  {
    hide SessionOk, QueueSpec.Valid, Messages, Distinct;
    var r := World(q, w.sessions[sid := s]);
    assert Held(r, sid) == Messages(s.list) && forall b :: 0 <= b < |w.sessions| && b != sid ==>
      Held(r, b) == Held(w, b);
    forall b | 0 <= b < |r.sessions| ensures SessionOk(r.sessions[b]) && Owns(r.sessions[b], q) {
      assert Owns(w.sessions[b], w.queue) && SessionOk(w.sessions[b]);
      if b != sid { assert AllInflight(q, Held(w, b)); }
    }
    forall a, b | 0 <= a < |r.sessions| && 0 <= b < |r.sessions| && a != b ensures Apart(Held(r, a), Held(r, b)) {
      if a != sid && b != sid { assert Apart(Held(w, a), Held(w, b)); }
    }
    forall i | 0 <= i < |q.states| && q.states[i] == Inflight ensures HeldBySome(r, i) {
      assert IsInflight(q, i);
      if i in Messages(s.list) {
        assert i in Held(r, sid);
      } else {
        assert HeldBySome(w, i);
        var b :| 0 <= b < |w.sessions| && i in Held(w, b);
        assert i in Held(r, b);
      }
    }
  }

  lemma DeliverStepOk(w: World, sid: nat, max: nat)
    requires WorldOk(w) && sid < |w.sessions|
    ensures WorldOk(Next(w, DeliverStep(sid, max)))
  {
    hide SessionOk, Indexes, Messages, Distinct, Delivered, Apart, SetAll;
    var q, s := w.queue, w.sessions[sid];
    var msgs, q', s' := Handed(q, s, max), DeliverQueue(q, s, max), Receive(s, Handed(q, s, max));
    DeliverMoves(q, s, max);
    ReceiveOwned(s, q, max);
    ReceivedMessages(s, msgs);
    forall b | 0 <= b < |w.sessions| && b != sid
      ensures AllInflight(q', Held(w, b)) && Apart(Messages(s'.list), Held(w, b))
    {
      ApartFresh(q, Held(w, sid), Held(w, b), msgs);
    }
    ReplaceOk(w, q', sid, s');
  }

  lemma ReceivedMessages(s: Session, msgs: seq<nat>)
    ensures Messages(Receive(s, msgs).list) == Messages(s.list) + msgs
  {
    MessagesConcat(s.list, Tagged(s.nextTag, msgs));
    TaggedMessages(s.nextTag, msgs);
  }

  lemma ApartFresh(q: Queue, mine: seq<nat>, others: seq<nat>, msgs: seq<nat>)
    requires Apart(mine, others) && AllInflight(q, others) && forall i :: i in msgs ==> !IsInflight(q, i)
    ensures Apart(mine + msgs, others)
  {
  }

  /** A delivery to a session makes exactly the handed messages inflight. */
  lemma DeliverMoves(q: Queue, s: Session, max: nat)
    requires QueueSpec.Valid(q) && SessionOk(s)
    ensures var msgs, r := Handed(q, s, max), DeliverQueue(q, s, max);
      && QueueSpec.Valid(r) && SessionOk(Receive(s, msgs))
      && (forall i :: i in msgs ==> i < |q.states| && !IsInflight(q, i))
      && (forall i :: IsInflight(r, i) <==> IsInflight(q, i) || i in msgs)
  {
    hide Delivered, StillHolding, Indexes, Count;
    var n := Grant(s, max);
    if n > 0 {
      DeliverKeeps(q, n);
      DeliveredAre(q, n);
      NotInflightBefore(q, n);
      ReceiveKeeps(s, Delivered(q, n));
    } else {
      assert s.list + Tagged(s.nextTag, []) == s.list;
    }
  }

  lemma SettleStepOk(w: World, sid: nat, tag: nat, mode: Mode, reason: NackReason, order: seq<nat>)
    requires WorldOk(w) && Enabled(w, SettleStep(sid, tag, mode, reason, order))
    ensures WorldOk(Next(w, SettleStep(sid, tag, mode, reason, order)))
  {
    hide SessionOk, QueueSpec.Valid, Messages, Distinct, HasTag, Taken, Unsettled, SetAll, MergeBlocks;
    var s := w.sessions[sid];
    if SettleError(s, tag).None? {
      SettledMessages(s, tag, mode);
      SettleOwned(s, w.queue, tag, mode, order, reason);
      SettleKeeps(s, tag, mode);
      DisposedKeeps(w.queue, order, reason);
      DisposeOk(w, sid, order, Messages(Unsettled(s, tag, mode)), reason);
      ReplaceOk(w, Disposed(w.queue, order, reason), sid, Settle(s, tag, mode));
    }
  }

  lemma CancelStepOk(w: World, sid: nat, d: Disposition, order: seq<nat>)
    requires WorldOk(w) && Enabled(w, CancelStep(sid, d, order))
    ensures WorldOk(Next(w, CancelStep(sid, d, order)))
  {
    hide QueueSpec.Valid, Messages, SetAll, MergeBlocks;
    SameMultiset(order, Held(w, sid));
    assert Messages([]) == [];
    DisposedKeeps(w.queue, order, CancelReason(d));
    DisposeOk(w, sid, order, [], CancelReason(d));
    ReplaceOk(w, Disposed(w.queue, order, CancelReason(d)), sid, Cancelled(w.sessions[sid]));
  }

  /** Settling part of what one session holds leaves the others' messages inflight. */
  lemma DisposeOk(w: World, sid: nat, order: seq<nat>, rest: seq<nat>, reason: NackReason)
    requires WorldOk(w) && sid < |w.sessions| && multiset(Held(w, sid)) == multiset(order) + multiset(rest)
    ensures var q := Disposed(w.queue, order, reason);
      && (forall b :: 0 <= b < |w.sessions| && b != sid ==> AllInflight(q, Held(w, b)) && Apart(rest, Held(w, b)))
      && (forall i :: IsInflight(q, i) ==> i in rest || (IsInflight(w.queue, i) && i !in Held(w, sid)))
  {
    hide SessionOk, QueueSpec.Valid, Messages, Distinct, MergeBlocks;
    forall i ensures i in Held(w, sid) <==> i in order || i in rest {
      assert i in multiset(Held(w, sid)) <==> i in multiset(order) + multiset(rest);
    }
  }

  lemma PublishStepOk(w: World, count: nat)
    requires WorldOk(w)
    ensures WorldOk(Next(w, PublishStep(count)))
  {
    hide SessionOk, QueueSpec.Valid, Messages, Distinct;
    PublishKeeps(w.queue, count);
    StatesOnly(w, Publish(w.queue, count));
  }

  lemma RetryStepOk(w: World)
    requires WorldOk(w)
    ensures WorldOk(Next(w, RetryStep))
  {
    hide SessionOk, QueueSpec.Valid, Messages, Distinct, MergeBlocks;
    RetryKeeps(w.queue);
    StatesOnly(w, RetryAllNow(w.queue));
  }

  /** A queue change that leaves the inflight messages as they were. */
  lemma StatesOnly(w: World, q: Queue)
    requires WorldOk(w) && QueueSpec.Valid(q) && forall i :: IsInflight(q, i) <==> IsInflight(w.queue, i)
    ensures WorldOk(w.(queue := q))
  {
    hide SessionOk, QueueSpec.Valid, Messages, Distinct;
    var r := w.(queue := q);
    forall sid | 0 <= sid < |w.sessions| ensures Owns(r.sessions[sid], q) {
      assert Owns(w.sessions[sid], w.queue);
      forall i | i in Messages(w.sessions[sid].list) ensures IsInflight(q, i) { assert IsInflight(w.queue, i); }
    }
    forall a, b | 0 <= a < |r.sessions| && 0 <= b < |r.sessions| && a != b ensures Apart(Held(r, a), Held(r, b)) {
      assert Apart(Held(w, a), Held(w, b));
    }
    forall i | 0 <= i < |q.states| && q.states[i] == Inflight ensures HeldBySome(r, i) {
      assert IsInflight(q, i) && HeldBySome(w, i);
      var sid :| 0 <= sid < |w.sessions| && i in Held(w, sid);
      assert i in Held(r, sid);
    }
  }

  lemma OpenStepOk(w: World, prefetch: Prefetch)
    requires WorldOk(w) && Enabled(w, OpenStep(prefetch))
    ensures WorldOk(Next(w, OpenStep(prefetch)))
  {
    hide Indexes;
    var r := Next(w, OpenStep(prefetch));
    assert Held(r, |w.sessions|) == [] && forall b :: 0 <= b < |w.sessions| ==> Held(r, b) == Held(w, b);
    forall a, b | 0 <= a < |r.sessions| && 0 <= b < |r.sessions| && a != b ensures Apart(Held(r, a), Held(r, b)) {
      if a < |w.sessions| && b < |w.sessions| { assert Apart(Held(w, a), Held(w, b)); }
    }
    forall b | 0 <= b < |r.sessions| ensures SessionOk(r.sessions[b]) && Owns(r.sessions[b], r.queue) {
      if b < |w.sessions| { assert Owns(w.sessions[b], w.queue) && SessionOk(w.sessions[b]); }
    }
    forall i | 0 <= i < |r.queue.states| && r.queue.states[i] == Inflight ensures HeldBySome(r, i) {
      assert HeldBySome(w, i);
      var sid :| 0 <= sid < |w.sessions| && i in Held(w, sid);
      assert i in Held(r, sid);
    }
  }

  /** Every step keeps the queue consistent and every inflight message with one holder. */
  lemma StepOk(w: World, step: Step)
    requires WorldOk(w) && Enabled(w, step)
    ensures WorldOk(Next(w, step))
  {
    hide WorldOk, Next;
    match step
    case PublishStep(count) => PublishStepOk(w, count);
    case OpenStep(prefetch) => OpenStepOk(w, prefetch);
    case DeliverStep(sid, max) => DeliverStepOk(w, sid, max);
    case SettleStep(sid, tag, mode, reason, order) => SettleStepOk(w, sid, tag, mode, reason, order);
    case CancelStep(sid, disposition, order) => CancelStepOk(w, sid, disposition, order);
    case RetryStep => RetryStepOk(w);
  }

  // ---- Whole runs

  ghost predicate IsRun(ws: seq<World>, steps: seq<Step>) {
    && |ws| == |steps| + 1 && ws[0] == START
    && forall k :: 0 <= k < |steps| ==> StepAt(ws, steps, k)
  }

  ghost predicate StepAt(ws: seq<World>, steps: seq<Step>, k: nat)
    requires k < |steps| && |ws| == |steps| + 1
  {
    Enabled(ws[k], steps[k]) && ws[k].queue.head <= |ws[k].queue.states| && ws[k + 1] == Next(ws[k], steps[k])
  }

  lemma HeadInRange(w: World)
    requires WorldOk(w)
    ensures w.queue.head <= |w.queue.states|
  {
  }

  /** One more step makes a longer run. */
  lemma ExtendRun(ws: seq<World>, steps: seq<Step>, step: Step)
    requires IsRun(ws, steps) && Enabled(ws[|steps|], step) && ws[|steps|].queue.head <= |ws[|steps|].queue.states|
    ensures IsRun(ws + [Next(ws[|steps|], step)], steps + [step])
  {
    hide Next, Enabled;
    var ws', steps' := ws + [Next(ws[|steps|], step)], steps + [step];
    forall k | 0 <= k < |steps'| ensures StepAt(ws', steps', k) {
      if k < |steps| { assert StepAt(ws, steps, k); }
    }
  }

  lemma {:induction false} ReachableOk(ws: seq<World>, steps: seq<Step>, k: nat)
    requires IsRun(ws, steps) && k < |ws|
    ensures WorldOk(ws[k])
  {
    hide WorldOk, Next;
    if k == 0 {
      StartOk();
    } else {
      ReachableOk(ws, steps, k - 1);
      assert StepAt(ws, steps, k - 1);
      StepOk(ws[k - 1], steps[k - 1]);
    }
  }

  lemma StartOk()
    ensures WorldOk(START)
  {
  }

  // ---- Redelivery

  ghost predicate HandedAt(ws: seq<World>, steps: seq<Step>, j: nat, i: nat)
    requires j < |steps| && |ws| == |steps| + 1
  {
    StepAt(ws, steps, j) && i in HandedBy(ws[j], steps[j])
  }

  ghost predicate DeliveredBefore(ws: seq<World>, steps: seq<Step>, k: nat, i: nat)
    requires k <= |steps| && |ws| == |steps| + 1
  {
    exists j :: 0 <= j < k && HandedAt(ws, steps, j, i)
  }

  /** One step: the messages behind the sequential head are those that were behind it and those
      handed out now. */
  lemma HeadMoves(w: World, step: Step, i: nat)
    requires WorldOk(w) && Enabled(w, step)
    ensures i < Next(w, step).queue.head <==> i < w.queue.head || i in HandedBy(w, step)
    ensures i in HandedBy(w, step) ==> (i in w.queue.redelivered <==> i < w.queue.head)
  {
    hide Delivered, StillHolding, Indexes, Count, SetAll, MergeBlocks, Apart, HeldBySome, SessionOk, Owns;
    if step.DeliverStep? && Grant(w.sessions[step.sid], step.max) > 0 {
      HandedSplit(w.queue, Grant(w.sessions[step.sid], step.max), i);
    }
  }

  lemma HandedSplit(q: Queue, n: nat, i: nat)
    requires QueueSpec.Valid(q)
    ensures i in Delivered(q, n) ==> (i in q.redelivered <==> i < q.head)
    ensures i < q.head + Min(n, |q.states| - q.head) <==> i < q.head || i in Delivered(q, n)
  {
    hide Delivered, Indexes, Count;
    DeliveredAre(q, n);
    var seqs, direct := Delivered(q, n), Min(n, |q.states| - q.head);
    assert seqs == seqs[..direct] + seqs[direct..];
    assert i in seqs <==> i in seqs[..direct] || i in seqs[direct..];
  }

  lemma {:induction false} HeadIsHistory(ws: seq<World>, steps: seq<Step>, k: nat, i: nat)
    requires IsRun(ws, steps) && k <= |steps|
    ensures i < ws[k].queue.head <==> DeliveredBefore(ws, steps, k, i)
  {
    hide WorldOk, Next, HandedBy;
    if k == 0 {
    } else {
      HeadIsHistory(ws, steps, k - 1, i);
      ReachableOk(ws, steps, k - 1);
      assert StepAt(ws, steps, k - 1);
      HeadMoves(ws[k - 1], steps[k - 1], i);
      if i in HandedBy(ws[k - 1], steps[k - 1]) { assert HandedAt(ws, steps, k - 1, i); }
      assert DeliveredBefore(ws, steps, k, i) <==>
        DeliveredBefore(ws, steps, k - 1, i) || HandedAt(ws, steps, k - 1, i);
    }
  }

  /** In every run, a delivered message is marked redelivered exactly when an earlier step of the
      run delivered it. */
  lemma FlaggedIffDeliveredBefore(ws: seq<World>, steps: seq<Step>, k: nat, i: nat)
    requires IsRun(ws, steps) && k < |steps| && HandedAt(ws, steps, k, i)
    ensures i in ws[k].queue.redelivered <==> DeliveredBefore(ws, steps, k, i)
  {
    hide WorldOk, Next, HandedBy, DeliveredBefore;
    ReachableOk(ws, steps, k);
    HeadMoves(ws[k], steps[k], i);
    HeadIsHistory(ws, steps, k, i);
  }

  /** The same, said of a step about to be taken. */
  lemma FlagsTellHistory(ws: seq<World>, steps: seq<Step>, step: Step, i: nat)
    requires IsRun(ws, steps) && Enabled(ws[|steps|], step) && ws[|steps|].queue.head <= |ws[|steps|].queue.states|
    requires i in HandedBy(ws[|steps|], step)
    ensures i in ws[|steps|].queue.redelivered <==> DeliveredBefore(ws, steps, |steps|, i)
  {
    hide WorldOk, Next, HandedBy, DeliveredBefore;
    ReachableOk(ws, steps, |steps|);
    HeadMoves(ws[|steps|], step, i);
    HeadIsHistory(ws, steps, |steps|, i);
  }

  // ---- Tags

  ghost predicate Issued(ws: seq<World>, steps: seq<Step>, j: nat, sid: nat, tag: nat)
    requires j < |steps| && |ws| == |steps| + 1
  {
    && StepAt(ws, steps, j) && steps[j].DeliverStep? && steps[j].sid == sid
    && ws[j].sessions[sid].nextTag <= tag < ws[j].sessions[sid].nextTag + |HandedBy(ws[j], steps[j])|
  }

  ghost predicate IssuedBefore(ws: seq<World>, steps: seq<Step>, k: nat, sid: nat, tag: nat)
    requires k <= |steps| && |ws| == |steps| + 1
  {
    exists j :: 0 <= j < k && Issued(ws, steps, j, sid, tag)
  }

  ghost function TagsGiven(w: World, step: Step, sid: nat): (n: nat)
    requires Enabled(w, step) && w.queue.head <= |w.queue.states|
  {
    if step.DeliverStep? && step.sid == sid then |HandedBy(w, step)| else 0
  }

  /** One step moves a session's next tag by what it hands to that session; a new session starts
      at tag one. */
  lemma TagsMove(w: World, step: Step, sid: nat)
    requires Enabled(w, step) && w.queue.head <= |w.queue.states| && sid < |Next(w, step).sessions|
    ensures |w.sessions| <= |Next(w, step).sessions|
    ensures sid < |w.sessions| ==>
      Next(w, step).sessions[sid].nextTag == w.sessions[sid].nextTag + TagsGiven(w, step, sid)
    ensures sid >= |w.sessions| ==> Next(w, step).sessions[sid].nextTag == 1 && !(step.DeliverStep? && step.sid == sid)
  {
    hide Handed, DeliverQueue, HasTag, Taken, Unsettled, Disposed, RetryAllNow;
  }

  /** The tags issued to a session so far are exactly one up to its next tag. */
  lemma {:induction false} TagsAreIssued(ws: seq<World>, steps: seq<Step>, k: nat, sid: nat, tag: nat)
    requires IsRun(ws, steps) && k <= |steps| && sid < |ws[k].sessions|
    ensures IssuedBefore(ws, steps, k, sid, tag) <==> 1 <= tag < ws[k].sessions[sid].nextTag
  {
    hide WorldOk, Next, HandedBy;
    if k == 0 {
    } else {
      assert StepAt(ws, steps, k - 1);
      TagsMove(ws[k - 1], steps[k - 1], sid);
      if sid < |ws[k - 1].sessions| {
        TagsAreIssued(ws, steps, k - 1, sid, tag);
        FirstTag(ws, steps, k - 1, sid);
      } else {
        NotIssuedYet(ws, steps, k - 1, sid, tag);
      }
      LastIssue(ws, steps, k, sid, tag);
    }
  }

  lemma LastIssue(ws: seq<World>, steps: seq<Step>, k: nat, sid: nat, tag: nat)
    requires 0 < k <= |steps| && |ws| == |steps| + 1
    ensures IssuedBefore(ws, steps, k, sid, tag) <==>
      IssuedBefore(ws, steps, k - 1, sid, tag) || Issued(ws, steps, k - 1, sid, tag)
  {
    hide Issued;
    if Issued(ws, steps, k - 1, sid, tag) { assert IssuedBefore(ws, steps, k, sid, tag); }
  }

  lemma FirstTag(ws: seq<World>, steps: seq<Step>, k: nat, sid: nat)
    requires IsRun(ws, steps) && k < |ws| && sid < |ws[k].sessions|
    ensures ws[k].sessions[sid].nextTag >= 1
  {
    ReachableOk(ws, steps, k);
    assert SessionOk(ws[k].sessions[sid]);
  }

  lemma {:induction false} NextTagGrows(ws: seq<World>, steps: seq<Step>, j: nat, k: nat, sid: nat)
    requires IsRun(ws, steps) && j <= k < |ws| && sid < |ws[j].sessions|
    ensures sid < |ws[k].sessions| && ws[j].sessions[sid].nextTag <= ws[k].sessions[sid].nextTag
    decreases k - j
  {
    hide Next, HandedBy;
    if j == k {
    } else {
      assert StepAt(ws, steps, k - 1);
      NextTagGrows(ws, steps, j, k - 1, sid);
      SessionsStay(ws[k - 1], steps[k - 1]);
      TagsMove(ws[k - 1], steps[k - 1], sid);
    }
  }

  lemma SessionsStay(w: World, step: Step)
    requires Enabled(w, step) && w.queue.head <= |w.queue.states|
    ensures |w.sessions| <= |Next(w, step).sessions|
  {
    hide Handed, DeliverQueue, HasTag, Taken, Unsettled, Disposed, RetryAllNow;
  }

  lemma NotIssuedYet(ws: seq<World>, steps: seq<Step>, k: nat, sid: nat, tag: nat)
    requires IsRun(ws, steps) && k <= |steps| && sid >= |ws[k].sessions|
    ensures !IssuedBefore(ws, steps, k, sid, tag)
  {
    hide Next, HandedBy;
    forall j | 0 <= j < k && Issued(ws, steps, j, sid, tag) ensures false {
      NextTagGrows(ws, steps, j, k, sid);
    }
  }

  /** A later delivery to the same session issues larger tags, so no tag is ever issued twice. */
  lemma TagsNeverReused(ws: seq<World>, steps: seq<Step>, j: nat, k: nat, sid: nat, early: nat, late: nat)
    requires IsRun(ws, steps) && j < k < |steps| && Issued(ws, steps, j, sid, early) && Issued(ws, steps, k, sid, late)
    ensures early < late
  {
    hide Next, HandedBy;
    SessionsStay(ws[j], steps[j]);
    TagsMove(ws[j], steps[j], sid);
    NextTagGrows(ws, steps, j + 1, k, sid);
  }

  // ---- The life of a message

  predicate Moves(a: MsgState, b: MsgState) {
    a == b || (a == Ready && b == Inflight) || (a == Inflight && (b == Acked || b == Retry))
    || (a == Retry && b == SparseReady) || (a == SparseReady && b == Inflight)
  }

  /** Every step moves every message along the life cycle, and adds only ready ones. */
  lemma StepMoves(w: World, step: Step)
    requires WorldOk(w) && Enabled(w, step)
    ensures var a, b := w.queue.states, Next(w, step).queue.states;
      && |b| == |a| + (if step.PublishStep? then step.count else 0)
      && (forall i :: 0 <= i < |a| ==> Moves(a[i], b[i]))
      && (forall i :: |a| <= i < |b| ==> b[i] == Ready)
  {
    hide Delivered, StillHolding, Indexes, Count, MergeBlocks, Apart, HeldBySome, SessionOk, Messages, Distinct, Taken,
      HasTag;
    match step
    case DeliverStep(sid, max) =>
      if Grant(w.sessions[sid], max) > 0 { DeliveredWaiting(w.queue, Grant(w.sessions[sid], max)); }
    case SettleStep(sid, tag, mode, reason, order) =>
      if SettleError(w.sessions[sid], tag).None? {
        assert Owns(w.sessions[sid], w.queue);
        SettleOwned(w.sessions[sid], w.queue, tag, mode, order, reason);
      }
    case CancelStep(sid, disposition, order) =>
      assert Owns(w.sessions[sid], w.queue);
      SameMultiset(order, Held(w, sid));
    case PublishStep(_) =>
    case OpenStep(_) =>
    case RetryStep =>
  }

  lemma DeliveredWaiting(q: Queue, n: nat)
    requires QueueSpec.Valid(q)
    ensures forall i :: i in Delivered(q, n) ==> i < |q.states| && (q.states[i] == Ready || q.states[i] == SparseReady)
  {
    hide Delivered, Indexes, Count;
    DeliveredAre(q, n);
    var seqs, direct := Delivered(q, n), Min(n, |q.states| - q.head);
    assert seqs == seqs[..direct] + seqs[direct..];
  }

  function TotalPublished(steps: seq<Step>): (n: nat) {
    if steps == [] then 0 else
      TotalPublished(steps[..|steps| - 1]) + (if steps[|steps| - 1].PublishStep? then steps[|steps| - 1].count else 0)
  }

  /** No message is lost or invented. */
  lemma {:induction false} MessagesLast(ws: seq<World>, steps: seq<Step>, k: nat)
    requires IsRun(ws, steps) && k <= |steps|
    ensures |ws[k].queue.states| == TotalPublished(steps[..k])
    ensures Counts(ws[k].queue.states).published == TotalPublished(steps[..k])
  {
    hide WorldOk, Next;
    if k == 0 {
    } else {
      MessagesLast(ws, steps, k - 1);
      ReachableOk(ws, steps, k - 1);
      assert StepAt(ws, steps, k - 1);
      StepMoves(ws[k - 1], steps[k - 1]);
      assert steps[..k][..k - 1] == steps[..k - 1];
    }
  }

  lemma {:induction false} SettledForever(ws: seq<World>, steps: seq<Step>, j: nat, k: nat, i: nat)
    requires IsRun(ws, steps) && j <= k <= |steps| && i < |ws[j].queue.states| && ws[j].queue.states[i] == Acked
    ensures i < |ws[k].queue.states| && ws[k].queue.states[i] == Acked
    decreases k
  {
    hide WorldOk, Next;
    if j == k {
    } else {
      SettledForever(ws, steps, j, k - 1, i);
      ReachableOk(ws, steps, k - 1);
      assert StepAt(ws, steps, k - 1);
      StepMoves(ws[k - 1], steps[k - 1]);
    }
  }
}
