/** Many concrete sessions on one concrete hybrid queue. Each request is a step of the simple
    world, and the fleet carries the run it has made, so what is proved of every run holds of the
    data structures. The queue's own validator accepts every state. */
module SessionFleet {
  import opened Kernels
  import opened IntrusiveList
  import opened QueueSpec
  import opened Blocks
  import opened Deliveries
  import opened DeliveryWindow
  import opened HybridQueue
  import opened SessionSpec
  import opened ConsumerSessions
  import opened Runs
  import opened Traces

  /** Every announced segment is flagged exactly when the run delivered its messages before. */
  ghost predicate FlagsAreHistory(out: seq<TaggedSegment>, worlds: seq<World>, steps: seq<Step>)
    requires OutOk(out) && |worlds| == |steps| + 1
  {
    forall k, i :: 0 <= k < |out| && i in out[k].Seqs() ==>
      (out[k].redelivered <==> DeliveredBefore(worlds, steps, |steps|, i))
  }

  /** What a request is answered with. One that is passed over has no error of its own. */
  datatype Answer = Answer(ok: bool, count: nat, out: seq<TaggedSegment>, error: Option<ConsumerError>)

  ghost predicate Accepts(w: World, op: Operation) {
    && Possible(w, op)
    && (op.DeliverOp? ==> !w.sessions[op.sid].cancelled)
    && (op.AckOp? || op.NackOp? ==> HasTag(w.sessions[op.sid].list, op.tag))
  }

  /** How many messages a request moves. */
  ghost function Moves(w: World, op: Operation): (n: nat) {
    if !Accepts(w, op) then 0 else
    match op
    case PublishOp(count) => count
    case OpenOp(_) => 0
    case DeliverOp(_, _) => |HandedTo(w, op)|
    case CancelOp(sid, _) => |w.sessions[sid].list|
    case RetryOp => Count(w.queue.states, QueueSpec.Retry)
    case _ => |Taken(w.sessions[op.sid], op.tag, op.mode)|
  }

  /** Why a session refuses a request. */
  ghost function Refusal(w: World, op: Operation): (e: Option<ConsumerError>) {
    if !Possible(w, op) then None
    else if op.DeliverOp? then (if w.sessions[op.sid].cancelled then Some(ConsumerCancelled) else None)
    else if op.AckOp? || op.NackOp? then SettleError(w.sessions[op.sid], op.tag)
    else None
  }

  /** The answer is what the world says: accepted or not and why not, how many messages, and which of them
      under which tags, flagged as the queue has them marked. */
  ghost predicate Answers(w: World, op: Operation, a: Answer) {
    && a.ok == Accepts(w, op) && a.count == Moves(w, op) && OutOk(a.out) && FlagsRight(a.out, w.queue.redelivered)
    && Announced(a.out) == Tagged(if op.DeliverOp? && a.ok then w.sessions[op.sid].nextTag else 0, HandedTo(w, op))
    && a.error == Refusal(w, op)
  }

  /** Blocks and unlimited credit fit 32 bits. */
  ghost predicate OpFits(w: World, op: Operation) {
    && (op.PublishOp? ==> |w.queue.states| + op.count <= U32_MAX * MSGS_PER_BLOCK)
    && (op.DeliverOp? && op.sid < |w.sessions| && w.sessions[op.sid].credit.mode.Unlimited? ==>
      w.sessions[op.sid].credit.inFlight + Min(op.max, ReadyCount(w.queue)) <= U32_MAX)
  }

  ghost predicate Fits(ops: seq<Operation>) {
    forall k :: 0 <= k < |ops| ==> OpFits(WorldAfter(ops[..k]), ops[k])
  }

  /** The refusal of a request that follows the given ones, by what those did. */
  ghost predicate ErrorRight(ops: seq<Operation>, op: Operation, e: Option<ConsumerError>) {
    var n := |WorldAfter(ops).sessions|;
    if (op.AckOp? || op.NackOp?) && op.sid < n then RefusedFor(ops, op.sid, op.tag, e)
    else if op.DeliverOp? && op.sid < n then e == if CancelledBy(ops, op.sid) then Some(ConsumerCancelled) else None
    else e == None
  }

  /** The answer to a request that follows the given ones. A segment is flagged redelivered exactly when
      one of those delivered its messages, and an error tells what they made of the session and the tag. */
  ghost predicate Right(ops: seq<Operation>, op: Operation, a: Answer) {
    && Answers(WorldAfter(ops), op, a) && ErrorRight(ops, op, a.error)
    && forall k, i :: 0 <= k < |a.out| && i in a.out[k].Seqs() ==> (a.out[k].redelivered <==> DeliveredBy(ops, i))
  }

  class Fleet {
    const queue: HybridRangeBlockQueue
    var sessions: seq<ConsumerSession>
    ghost var worlds: seq<World>
    ghost var steps: seq<Step>

    ghost predicate Separate()
      reads this`sessions, queue
    {
      && this !in queue.Repr
      && (forall k :: 0 <= k < |sessions| ==> sessions[k] !in queue.Repr && sessions[k].window !in queue.Repr)
      && (forall j, k :: 0 <= j < |sessions| && 0 <= k < |sessions| && j != k ==>
        sessions[j] != sessions[k] && sessions[j].window != sessions[k].window)
    }

    /** The structures are sound, each window keeps first deliveries and redeliveries apart, and
        the state is the last one of the run so far. */
    ghost predicate Valid()
      reads this, queue, queue.Repr, sessions, set s | s in sessions :: s.window
    {
      && Separate() && queue.Inv() && (forall k :: 0 <= k < |sessions| ==> sessions[k].Valid()) && WorldOk(Abs())
      && (forall k :: 0 <= k < |sessions| ==> sessions[k].Marks(queue.Abs().redelivered))
      && IsRun(worlds, steps) && worlds[|steps|] == Abs()
    }

    ghost function Abs(): (w: World)
      reads this`sessions, queue, queue.Repr, sessions, set s | s in sessions :: s.window
      requires queue.Shape()
    {
      var all := sessions;
      World(queue.Abs(), seq(|all|, k requires 0 <= k < |all| reads all, set s | s in all :: s.window => all[k].Abs()))
    }

    lemma Facts()
      requires Valid()
      ensures queue.Inv() && queue.Shape() && Abs().queue == queue.Abs() && Abs().queue.head <= |Abs().queue.states|
      ensures |Abs().sessions| == |sessions| && |queue.Abs().states| == queue.nextSeq
      ensures forall k :: 0 <= k < |sessions| ==> Abs().sessions[k] == sessions[k].Abs()
    {
    }

    constructor ()
      ensures Valid() && Abs() == START && steps == [] && sessions == []
      ensures fresh(queue.Repr)
    {
      hide ListOk, BlocksOk, States, Redelivered, Realises, WorldOk;
      var q := new HybridRangeBlockQueue.Empty();
      queue := q;
      sessions, worlds, steps := [], [START], [];
      new;
      StartOk();
      assert Abs().sessions == [];
    }

    /** What is announced as redelivered is exactly what an earlier step of this run delivered. */
    method Deliver(sid: nat, max: nat) returns (r: Result<nat>, out: seq<TaggedSegment>)
      requires Valid() && sid < |sessions|
      requires sessions[sid].credit.mode.Unlimited? ==>
        sessions[sid].credit.inFlight + Min(max, ReadyCount(queue.Abs())) <= U32_MAX
      modifies this`worlds, this`steps, queue.Repr, sessions, set s | s in sessions :: s.window
      ensures Valid() && Abs() == Next(old(Abs()), DeliverStep(sid, max))
      ensures steps == old(steps) + [DeliverStep(sid, max)]
      ensures OutOk(out) && FlagsAreHistory(out, old(worlds), old(steps))
      ensures FlagsRight(out, old(queue.Abs()).redelivered)
      ensures if old(sessions[sid].cancelled) then r == Failure(ConsumerCancelled)
        else r == Success(|HandedBy(old(Abs()), DeliverStep(sid, max))|)
      ensures Announced(out) == Tagged(old(sessions[sid].nextTag), HandedBy(old(Abs()), DeliverStep(sid, max)))
    {
      hide ListOk, BlocksOk, States, Redelivered, Realises, Outstanding, SegmentsOk, AllBelow, SessionOk, WorldOk,
        ConsumerSession.Marks, ConsumerSession.Valid, ConsumerSession.Abs;
      hide Announced, OutOk, FlagsRight, FlagsAreHistory, Handed, DeliverQueue, Receive, Matches, IsRun;
      ghost var step := DeliverStep(sid, max);
      StepTaken(worlds, steps, step);
      DeliverMarks(queue.Abs(), sessions[sid].Abs(), max);
      r, out := sessions[sid].DeliverFromQueue(queue, max);
      assert Abs().sessions == old(Abs()).sessions[sid := sessions[sid].Abs()];
      worlds, steps := worlds + [Abs()], steps + [step];
      HandedHistory(old(worlds), old(steps), step);
      AnnouncedFlags(out, old(sessions[sid].nextTag), HandedBy(old(Abs()), step), old(queue.Abs()).redelivered,
        old(worlds), old(steps));
    }

    method OpenSession(prefetch: Prefetch)
      requires Valid() && (prefetch.Limited? ==> prefetch.limit <= U32_MAX)
      modifies this
      ensures Valid() && Abs() == Next(old(Abs()), OpenStep(prefetch)) && steps == old(steps) + [OpenStep(prefetch)]
      ensures |sessions| == |old(sessions)| + 1 && sessions[..|old(sessions)|] == old(sessions)
      ensures fresh(sessions[|old(sessions)|]) && fresh(sessions[|old(sessions)|].window)
    {
      hide ListOk, BlocksOk, States, Redelivered, Realises, Outstanding, SegmentsOk, AllBelow, SessionOk, WorldOk,
        ConsumerSession.Marks, ConsumerSession.Valid, ConsumerSession.Abs;
      hide NewSession, Matches, IsRun, Next;
      StepTaken(worlds, steps, OpenStep(prefetch));
      OpenTaken(Abs(), prefetch);
      var s := new ConsumerSession(prefetch);
      worlds, steps := worlds + [World(queue.Abs(), Abs().sessions + [s.Abs()])], steps + [OpenStep(prefetch)];
      sessions := sessions + [s];
      assert Separate() && queue.Inv() && s.Marks(queue.Abs().redelivered);
      assert Abs().sessions == old(Abs()).sessions + [s.Abs()];
    }

    method Publish(count: nat) returns (r: Range)
      requires Valid() && queue.nextSeq + count <= U32_MAX * MSGS_PER_BLOCK
      modifies this`worlds, this`steps, queue, queue.blocks
      ensures Valid() && Abs() == Next(old(Abs()), PublishStep(count)) && steps == old(steps) + [PublishStep(count)]
      ensures r == Range(old(queue.nextSeq), count)
    {
      hide ListOk, BlocksOk, States, Redelivered, Realises, Outstanding, SegmentsOk, AllBelow, SessionOk, WorldOk,
        ConsumerSession.Marks, ConsumerSession.Valid, ConsumerSession.Abs;
      hide Matches, IsRun;
      StepTaken(worlds, steps, PublishStep(count));
      r := queue.PublishContiguous(count);
      assert Abs().sessions == old(Abs()).sessions;
      worlds, steps := worlds + [Abs()], steps + [PublishStep(count)];
    }

    method Retry() returns (moved: nat)
      requires Valid()
      modifies this`worlds, this`steps, queue.Repr
      ensures Valid() && Abs() == Next(old(Abs()), RetryStep) && steps == old(steps) + [RetryStep]
      ensures moved == Count(old(queue.Abs()).states, QueueSpec.Retry)
    {
      hide ListOk, BlocksOk, States, Redelivered, Realises, Outstanding, SegmentsOk, AllBelow, SessionOk, WorldOk;
      hide RetryAllNow, Matches, IsRun;
      StepTaken(worlds, steps, RetryStep);
      ghost var q := queue.Abs();
      forall k | 0 <= k < |sessions| ensures Matches(sessions[k].window.segments, RetryAllNow(q).redelivered) {
        OwnedBy(Abs(), k);
        RetryMatches(sessions[k].window.segments, q);
      }
      moved := queue.RetryAllNow();
      assert Abs().sessions == old(Abs()).sessions;
      worlds, steps := worlds + [Abs()], steps + [RetryStep];
    }

    /** The queue gets the first deliveries among the settled messages before the redeliveries, and
        the reported ranges are exactly the first deliveries. */
    method Ack(sid: nat, tag: nat, mode: Mode) returns (r: Result<AckApply>, ghost order: seq<nat>)
      requires Valid() && sid < |sessions|
      modifies this`worlds, this`steps, queue.Repr, sessions, set s | s in sessions :: s.window
      ensures Enabled(old(Abs()), SettleStep(sid, tag, mode, NackReason.Reject, order))
      ensures Valid() && Abs() == Next(old(Abs()), SettleStep(sid, tag, mode, NackReason.Reject, order))
      ensures steps == old(steps) + [SettleStep(sid, tag, mode, NackReason.Reject, order)]
      ensures r.Success? <==> HasTag(old(sessions[sid].Abs()).list, tag)
      ensures SettleError(old(sessions[sid].Abs()), tag) == if r.Success? then None else Some(r.error)
      ensures r.Success? ==> r.value.acked == |order|
      ensures queue.Abs().redelivered == old(queue.Abs()).redelivered
      ensures r.Failure? ==> order == []
      ensures r.Success? ==> var msgs := Messages(Taken(old(sessions[sid].Abs()), tag, mode));
        && order == SettleOrder(msgs, queue.Abs().redelivered)
        && RangesSeqs(r.value.ranges) == Pick(msgs, queue.Abs().redelivered, true)
    {
      hide ListOk, BlocksOk, States, Redelivered, Realises, Outstanding, SegmentsOk, AllBelow, SessionOk, WorldOk,
        ConsumerSession.Marks, ConsumerSession.Valid, ConsumerSession.Abs;
      hide Settle, HasTag, Taken, Owns, Messages, Matches, IsRun, SettleOrder, Pick, RangesSeqs, Enabled, Next,
        QueueSpec.Ack;
      ghost var w := Abs();
      OwnedBy(w, sid);
      FailsIffNotOutstanding(w.sessions[sid], tag);
      r, order := sessions[sid].Ack(queue, tag, mode);
      SettleTaken(w, sid, tag, mode, NackReason.Reject, order);
      StepTaken(worlds, steps, SettleStep(sid, tag, mode, NackReason.Reject, order));
      assert Abs().sessions == w.sessions[sid := sessions[sid].Abs()];
      assert r.Failure? ==> Abs().sessions == w.sessions;
      worlds, steps := worlds + [Abs()], steps + [SettleStep(sid, tag, mode, NackReason.Reject, order)];
    }

    method Nack(sid: nat, tag: nat, mode: Mode, reason: NackReason)
      returns (r: Result<NackApply>, ghost order: seq<nat>)
      requires Valid() && sid < |sessions|
      modifies this`worlds, this`steps, queue.Repr, sessions, set s | s in sessions :: s.window
      ensures Enabled(old(Abs()), SettleStep(sid, tag, mode, reason, order))
      ensures Valid() && Abs() == Next(old(Abs()), SettleStep(sid, tag, mode, reason, order))
      ensures steps == old(steps) + [SettleStep(sid, tag, mode, reason, order)]
      ensures r.Success? <==> HasTag(old(sessions[sid].Abs()).list, tag)
      ensures SettleError(old(sessions[sid].Abs()), tag) == if r.Success? then None else Some(r.error)
      ensures r.Success? ==> r.value.nacked == |order|
      ensures queue.Abs().redelivered == old(queue.Abs()).redelivered
      ensures r.Failure? ==> order == []
      ensures r.Success? ==>
        order == SettleOrder(Messages(Taken(old(sessions[sid].Abs()), tag, mode)), queue.Abs().redelivered)
    {
      hide ListOk, BlocksOk, States, Redelivered, Realises, Outstanding, SegmentsOk, AllBelow, SessionOk, WorldOk,
        ConsumerSession.Marks, ConsumerSession.Valid, ConsumerSession.Abs;
      hide Settle, Disposed, HasTag, Taken, Owns, Messages, Count, Matches, IsRun, SettleOrder, Enabled, Next;
      ghost var w := Abs();
      OwnedBy(w, sid);
      FailsIffNotOutstanding(w.sessions[sid], tag);
      r, order := sessions[sid].Nack(queue, tag, mode, reason);
      SettleTaken(w, sid, tag, mode, reason, order);
      StepTaken(worlds, steps, SettleStep(sid, tag, mode, reason, order));
      assert Abs().sessions == w.sessions[sid := sessions[sid].Abs()];
      assert r.Failure? ==> Abs().sessions == w.sessions;
      worlds, steps := worlds + [Abs()], steps + [SettleStep(sid, tag, mode, reason, order)];
    }

    method Cancel(sid: nat, d: Disposition) returns (r: CancelApply, ghost order: seq<nat>)
      requires Valid() && sid < |sessions|
      modifies this`worlds, this`steps, queue.Repr, sessions, set s | s in sessions :: s.window
      ensures Enabled(old(Abs()), CancelStep(sid, d, order))
      ensures Valid() && Abs() == Next(old(Abs()), CancelStep(sid, d, order))
      ensures steps == old(steps) + [CancelStep(sid, d, order)]
      ensures order == SettleOrder(Messages(old(sessions[sid].Abs()).list), queue.Abs().redelivered)
      ensures r.requeued + r.dropped == |order| && queue.Abs().redelivered == old(queue.Abs()).redelivered
    {
      hide ListOk, BlocksOk, States, Redelivered, Realises, Outstanding, SegmentsOk, AllBelow, SessionOk, WorldOk,
        ConsumerSession.Marks, ConsumerSession.Valid, ConsumerSession.Abs;
      hide Cancelled, Disposed, Owns, Messages, Count, Matches, IsRun, SettleOrder;
      ghost var w := Abs();
      OwnedBy(w, sid);
      r, order := sessions[sid].Cancel(queue, d);
      StepTaken(worlds, steps, CancelStep(sid, d, order));
      SameMarks(w.queue, order, CancelReason(d));
      assert Abs().sessions == w.sessions[sid := sessions[sid].Abs()];
      worlds, steps := worlds + [Abs()], steps + [CancelStep(sid, d, order)];
    }

    /** Any request: one that names no session or too large a limit is passed over. */
    method Perform(op: Operation) returns (a: Answer)
      requires Valid() && OpFits(Abs(), op)
      modifies this, queue.Repr, sessions, set s | s in sessions :: s.window
      ensures Valid() && Abs() == After(old(Abs()), op) && Answers(old(Abs()), op, a)
      ensures forall k :: 0 <= k < |sessions| ==>
        if k < |old(sessions)| then sessions[k] == old(sessions)[k] else fresh(sessions[k]) && fresh(sessions[k].window)
    {
      hide Fleet.Valid, Fleet.Abs, Fleet.Separate, ConsumerSession.Abs, HybridRangeBlockQueue.Abs;
      hide HybridRangeBlockQueue.Inv;
      hide WorldOk, Answers, After, IsRun, Next, Enabled, SettleOrder, Taken, HasTag, Messages;
      Facts();
      a := Answer(false, 0, [], None);
      ghost var w := Abs();
      PassedOver(w, op);
      match op {
        case PublishOp(count) =>
          var r := Publish(count);
          PublishAnswers(w, count);
          a := Answer(true, count, [], None);
        case OpenOp(prefetch) =>
          if prefetch.Unlimited? || prefetch.limit <= U32_MAX {
            OpenSession(prefetch);
            OpenAnswers(w, prefetch);
            a := Answer(true, 0, [], None);
          }
        case RetryOp =>
          var moved := Retry();
          RetryAnswers(w);
          a := Answer(true, moved, [], None);
        case DeliverOp(sid, _) => if sid < |sessions| { a := PerformDeliver(op); }
        case CancelOp(sid, _) => if sid < |sessions| { a := PerformCancel(op); }
        case _ => if op.sid < |sessions| { a := PerformSettle(op); }
      }
    }

    method PerformDeliver(op: Operation) returns (a: Answer)
      requires Valid() && op.DeliverOp? && op.sid < |sessions| && OpFits(Abs(), op)
      modifies this`worlds, this`steps, queue.Repr, sessions, set s | s in sessions :: s.window
      ensures Valid() && Abs() == After(old(Abs()), op) && Answers(old(Abs()), op, a)
    {
      hide Fleet.Valid, Fleet.Abs, Fleet.Separate, HybridRangeBlockQueue.Abs, HybridRangeBlockQueue.Inv;
      hide WorldOk, Answers, After, IsRun, Next, Enabled, SettleOrder, Taken, HasTag, Messages;
      Facts();
      ghost var w := Abs();
      var r, out := Deliver(op.sid, op.max);
      DeliverAnswers(w, op.sid, op.max, r.Success?, out);
      a := Answer(r.Success?, if r.Success? then r.value else 0, out, if r.Success? then None else Some(r.error));
    }

    method PerformSettle(op: Operation) returns (a: Answer)
      requires Valid() && (op.AckOp? || op.NackOp?) && op.sid < |sessions|
      modifies this`worlds, this`steps, queue.Repr, sessions, set s | s in sessions :: s.window
      ensures Valid() && Abs() == After(old(Abs()), op) && Answers(old(Abs()), op, a)
    {
      hide Fleet.Valid, Fleet.Abs, Fleet.Separate, HybridRangeBlockQueue.Abs, HybridRangeBlockQueue.Inv;
      hide WorldOk, Answers, After, IsRun, Next, Enabled, SettleOrder, Taken, HasTag, Messages;
      Facts();
      ghost var w, order := Abs(), [];
      if op.AckOp? {
        var r;
        r, order := Ack(op.sid, op.tag, op.mode);
        a := if r.Success? then Answer(true, r.value.acked, [], None) else Answer(false, 0, [], Some(r.error));
      } else {
        var r;
        r, order := Nack(op.sid, op.tag, op.mode, op.reason);
        a := if r.Success? then Answer(true, r.value.nacked, [], None) else Answer(false, 0, [], Some(r.error));
      }
      SettleAnswers(w, op, a.ok, order);
    }

    method PerformCancel(op: Operation) returns (a: Answer)
      requires Valid() && op.CancelOp? && op.sid < |sessions|
      modifies this`worlds, this`steps, queue.Repr, sessions, set s | s in sessions :: s.window
      ensures Valid() && Abs() == After(old(Abs()), op) && Answers(old(Abs()), op, a)
    {
      hide Fleet.Valid, Fleet.Abs, Fleet.Separate, HybridRangeBlockQueue.Abs, HybridRangeBlockQueue.Inv;
      hide WorldOk, Answers, After, IsRun, Next, Enabled, SettleOrder, Taken, HasTag, Messages;
      Facts();
      ghost var w, order := Abs(), [];
      var r;
      r, order := Cancel(op.sid, op.disposition);
      CancelAnswers(w, op.sid, op.disposition, order);
      a := Answer(true, r.requeued + r.dropped, [], None);
    }

    /** `validate_invariants` and `debug_counts` in any state the sessions can reach: the validator
        is content and the structural counts partition what was published. */
    method Inspect() returns (problem: Option<InvariantKind>, c: QueueCounts)
      requires Valid()
      ensures problem.None?
      ensures c == Counts(queue.Abs().states) && c.published == queue.nextSeq
      ensures c.ready + c.inflight + c.acked + c.retry == c.published
    {
      hide ListOk, BlocksOk, States, Redelivered, Realises, Outstanding, SegmentsOk, AllBelow, SessionOk, WorldOk,
        ConsumerSession.Marks, ConsumerSession.Valid, ConsumerSession.Abs;
      hide Count, Matches, IsRun;
      queue.InvariantImpliesSound();
      problem := queue.ValidateInvariants();
      c := queue.DebugCounts();
    }
  }

  /** What every step of the fleet rests on. */
  lemma StepTaken(worlds: seq<World>, steps: seq<Step>, step: Step)
    requires IsRun(worlds, steps) && WorldOk(worlds[|steps|]) && Enabled(worlds[|steps|], step)
    ensures |worlds| == |steps| + 1 && worlds[|steps|].queue.head <= |worlds[|steps|].queue.states|
    ensures var w := Next(worlds[|steps|], step);
      WorldOk(w) && IsRun(worlds + [w], steps + [step]) && (worlds + [w])[|steps + [step]|] == w
  {
    hide WorldOk, Next, Enabled;
    HeadInRange(worlds[|steps|]);
    StepOk(worlds[|steps|], step);
    ExtendRun(worlds, steps, step);
  }

  lemma SettleTaken(w: World, sid: nat, tag: nat, mode: Mode, reason: NackReason, order: seq<nat>)
    requires sid < |w.sessions| && SessionOk(w.sessions[sid]) && w.queue.head <= |w.queue.states|
    requires HasTag(w.sessions[sid].list, tag) ==>
      multiset(order) == multiset(Messages(Taken(w.sessions[sid], tag, mode)))
    ensures Enabled(w, SettleStep(sid, tag, mode, reason, order))
    ensures var s, r := w.sessions[sid], Next(w, SettleStep(sid, tag, mode, reason, order));
      && (SettleError(s, tag).Some? ==> r == w)
      && (SettleError(s, tag).None? ==>
        r == World(Disposed(w.queue, order, reason), w.sessions[sid := Settle(s, tag, mode)]))
    ensures Disposed(w.queue, order, reason).redelivered == w.queue.redelivered
    ensures reason != Requeue ==> Disposed(w.queue, order, reason) == QueueSpec.Ack(w.queue, order)
  {
    hide SessionOk, HasTag, Taken, Settle;
  }

  lemma OpenTaken(w: World, prefetch: Prefetch)
    requires Enabled(w, OpenStep(prefetch)) && w.queue.head <= |w.queue.states|
    ensures Next(w, OpenStep(prefetch)) == World(w.queue, w.sessions + [NewSession(prefetch)])
  {
  }

  lemma OwnedBy(w: World, sid: nat)
    requires WorldOk(w) && sid < |w.sessions|
    ensures SessionOk(w.sessions[sid]) && Owns(w.sessions[sid], w.queue) && w.queue.head <= |w.queue.states|
  {
  }

  lemma DeliverMarks(q: Queue, s: Session, max: nat)
    requires q.head <= |q.states|
    ensures DeliverQueue(q, s, max).redelivered == q.redelivered
  {
  }

  /** Outstanding messages do not wait for a retry, so a retry does not change their kind. */
  lemma RetryMatches(segments: seq<Segment>, q: Queue)
    requires Matches(segments, q.redelivered) && AllInflight(q, Messages(Outstanding(segments)))
    ensures Matches(segments, RetryAllNow(q).redelivered)
  {
    hide OfKind, Outstanding, Messages, Select;
    var r := RetryAllNow(q).redelivered;
    forall first, i | i in OfKind(segments, first) ensures first <==> i !in r {
      OfKindOutstanding(segments, first, i);
    }
  }

  lemma AnnouncedLast(out: seq<TaggedSegment>)
    requires OutOk(out) && out != []
    ensures var n := |out| - 1;
      && OutOk(out[..n]) && SegmentOk(out[n])
      && Announced(out) == Announced(out[..n]) + Tagged(out[n].firstTag, out[n].Seqs())
  {
    hide MaskSeqs, Span, Tagged, SegmentOk;
  }

  lemma {:induction false} AnnouncedHas(out: seq<TaggedSegment>, k: nat, i: nat)
    requires OutOk(out) && k < |out| && i in out[k].Seqs()
    ensures i in Messages(Announced(out))
  {
    hide MaskSeqs, Span, Messages, Tagged, Announced;
    var n := |out| - 1;
    AnnouncedLast(out);
    var a, b := Announced(out[..n]), Tagged(out[n].firstTag, out[n].Seqs());
    MessagesConcat(a, b);
    if k < n {
      AnnouncedHas(out[..n], k, i);
    } else {
      TaggedMessages(out[n].firstTag, out[n].Seqs());
    }
  }

  lemma AnnouncedFlags(out: seq<TaggedSegment>, tag: nat, msgs: seq<nat>, redelivered: set<nat>, worlds: seq<World>,
      steps: seq<Step>)
    requires OutOk(out) && FlagsRight(out, redelivered) && Announced(out) == Tagged(tag, msgs)
    requires |worlds| == |steps| + 1
    requires forall i :: i in msgs ==> (i in redelivered <==> DeliveredBefore(worlds, steps, |steps|, i))
    ensures FlagsAreHistory(out, worlds, steps)
  {
    hide DeliveredBefore, Announced, Span, MaskSeqs;
    assert Messages(Announced(out)) == msgs;
    forall k: nat, i: nat | k < |out| && i in out[k].Seqs()
      ensures out[k].redelivered <==> DeliveredBefore(worlds, steps, |steps|, i)
    {
      AnnouncedHas(out, k, i);
    }
  }

  lemma HandedHistory(worlds: seq<World>, steps: seq<Step>, step: Step)
    requires IsRun(worlds, steps) && Enabled(worlds[|steps|], step)
    requires worlds[|steps|].queue.head <= |worlds[|steps|].queue.states|
    ensures |worlds| == |steps| + 1 && forall i :: i in HandedBy(worlds[|steps|], step) ==>
      (i in worlds[|steps|].queue.redelivered <==> DeliveredBefore(worlds, steps, |steps|, i))
  {
    hide HandedBy, DeliveredBefore, Enabled;
    forall i | i in HandedBy(worlds[|steps|], step)
      ensures i in worlds[|steps|].queue.redelivered <==> DeliveredBefore(worlds, steps, |steps|, i)
    {
      FlagsTellHistory(worlds, steps, step, i);
    }
  }

  // ---- Answers

  lemma PassedOver(w: World, op: Operation)
    ensures !Possible(w, op) ==> After(w, op) == w && Answers(w, op, Answer(false, 0, [], None))
  {
    NothingTagged();
  }

  lemma NothingTagged()
    ensures forall t :: Tagged(t, []) == []
  {
  }

  lemma PublishAnswers(w: World, count: nat)
    requires w.queue.head <= |w.queue.states|
    ensures After(w, PublishOp(count)) == Next(w, PublishStep(count))
    ensures Answers(w, PublishOp(count), Answer(true, count, [], None))
  {
    NothingTagged();
  }

  lemma OpenAnswers(w: World, prefetch: Prefetch)
    requires w.queue.head <= |w.queue.states| && Possible(w, OpenOp(prefetch))
    ensures After(w, OpenOp(prefetch)) == Next(w, OpenStep(prefetch))
    ensures Answers(w, OpenOp(prefetch), Answer(true, 0, [], None))
  {
    NothingTagged();
  }

  lemma RetryAnswers(w: World)
    requires w.queue.head <= |w.queue.states|
    ensures After(w, RetryOp) == Next(w, RetryStep)
    ensures Answers(w, RetryOp, Answer(true, Count(w.queue.states, QueueSpec.Retry), [], None))
  {
    hide Count, RetryAllNow;
    NothingTagged();
  }

  lemma DeliverAnswers(w: World, sid: nat, max: nat, ok: bool, out: seq<TaggedSegment>)
    requires w.queue.head <= |w.queue.states| && sid < |w.sessions| && ok == !w.sessions[sid].cancelled
    requires OutOk(out) && FlagsRight(out, w.queue.redelivered)
    requires Announced(out) == Tagged(w.sessions[sid].nextTag, HandedBy(w, DeliverStep(sid, max)))
    ensures After(w, DeliverOp(sid, max)) == Next(w, DeliverStep(sid, max))
    ensures var n := if ok then |HandedBy(w, DeliverStep(sid, max))| else 0;
      Answers(w, DeliverOp(sid, max), Answer(ok, n, out, if ok then None else Some(ConsumerCancelled)))
  {
    hide Announced, FlagsRight, OutOk, Delivered;
    NothingTagged();
  }

  function ReasonOf(op: Operation): (reason: NackReason) {
    if op.NackOp? then op.reason else NackReason.Reject
  }

  lemma SettleAnswers(w: World, op: Operation, ok: bool, order: seq<nat>)
    requires w.queue.head <= |w.queue.states| && (op.AckOp? || op.NackOp?) && op.sid < |w.sessions|
    requires ok <==> HasTag(w.sessions[op.sid].list, op.tag)
    requires !ok ==> order == []
    requires ok ==> order == SettleOrder(Messages(Taken(w.sessions[op.sid], op.tag, op.mode)), w.queue.redelivered)
    ensures Enabled(w, SettleStep(op.sid, op.tag, op.mode, ReasonOf(op), order))
    ensures After(w, op) == Next(w, SettleStep(op.sid, op.tag, op.mode, ReasonOf(op), order))
    ensures Answers(w, op, Answer(ok, |order|, [], SettleError(w.sessions[op.sid], op.tag)))
  {
    hide HasTag, Taken, Next, SettleOrder, Messages;
    NothingTagged();
    if ok {
      var msgs := Messages(Taken(w.sessions[op.sid], op.tag, op.mode));
      SettleOrderComplete(msgs, w.queue.redelivered);
      SameMultiset(order, msgs);
    }
  }

  lemma CancelAnswers(w: World, sid: nat, d: Disposition, order: seq<nat>)
    requires w.queue.head <= |w.queue.states| && sid < |w.sessions|
    requires order == SettleOrder(Messages(w.sessions[sid].list), w.queue.redelivered)
    ensures Enabled(w, CancelStep(sid, d, order)) && After(w, CancelOp(sid, d)) == Next(w, CancelStep(sid, d, order))
    ensures Answers(w, CancelOp(sid, d), Answer(true, |order|, [], None))
  {
    hide Next, SettleOrder, Messages;
    NothingTagged();
    SettleOrderComplete(Messages(w.sessions[sid].list), w.queue.redelivered);
    SameMultiset(order, Messages(w.sessions[sid].list));
  }

  ghost predicate AllRight(ops: seq<Operation>, answers: seq<Answer>) {
    |answers| <= |ops| && forall k :: 0 <= k < |answers| ==> Right(ops[..k], ops[k], answers[k])
  }

  /** Any list of requests to new structures: they end in the world that the requests lead to, and every
      answer was right. */
  method Replay(ops: seq<Operation>) returns (fleet: Fleet, answers: seq<Answer>)
    requires Fits(ops)
    ensures fresh(fleet) && fleet.Valid() && fleet.Abs() == WorldAfter(ops)
    ensures fresh(fleet.queue.Repr)
    ensures forall j :: 0 <= j < |fleet.sessions| ==> fresh(fleet.sessions[j]) && fresh(fleet.sessions[j].window)
    ensures |answers| == |ops| && AllRight(ops, answers)
  {
    hide Fleet.Valid, Fleet.Abs, Fleet.Separate, HybridRangeBlockQueue.Abs, HybridRangeBlockQueue.Inv;
    hide WorldOk, Right, Answers, After, IsRun, Next, OpFits, WorldAfter;
    fleet := new Fleet();
    answers := [];
    Begins(ops);
    fleet.Facts();
    for k := 0 to |ops|
      invariant fresh(fleet) && fresh(fleet.queue.Repr) && fleet.Valid() && fleet.queue.Shape()
      invariant forall j :: 0 <= j < |fleet.sessions| ==> fresh(fleet.sessions[j]) && fresh(fleet.sessions[j].window)
      invariant fleet.Abs() == WorldAfter(ops[..k])
      invariant |answers| == k && AllRight(ops, answers)
    {
      var a := fleet.Perform(ops[k]);
      NextWorld(ops, k);
      RightAnswer(ops[..k], ops[k], a);
      answers := answers + [a];
      fleet.Facts();
    }
    assert ops[..|ops|] == ops;
  }

  /** The whole comparison with the simple world, from new structures to the queue's own validator, which
      is content whatever was requested. */
  method Drive(ops: seq<Operation>)
    returns (answers: seq<Answer>, problem: Option<InvariantKind>, counts: QueueCounts)
    requires Fits(ops)
    ensures |answers| == |ops| && AllRight(ops, answers)
    ensures problem.None? && counts == Counts(WorldAfter(ops).queue.states)
  {
    hide Fleet.Valid, Fleet.Abs, Fleet.Separate, HybridRangeBlockQueue.Abs, HybridRangeBlockQueue.Inv;
    hide WorldOk, Right, Answers, After, IsRun, Next, OpFits, WorldAfter;
    hide Fits;
    var fleet;
    fleet, answers := Replay(ops);
    fleet.Facts();
    problem, counts := fleet.Inspect();
  }

  lemma Begins(ops: seq<Operation>)
    ensures WorldAfter(ops[..0]) == START
  {
  }

  lemma NextWorld(ops: seq<Operation>, k: nat)
    requires k < |ops|
    ensures WorldAfter(ops[..k + 1]) == After(WorldAfter(ops[..k]), ops[k])
  {
    hide After;
    assert ops[..k + 1] == ops[..k] + [ops[k]];
    WorldAfterNext(ops[..k], ops[k]);
  }

  lemma RightError(ops: seq<Operation>, op: Operation)
    ensures ErrorRight(ops, op, Refusal(WorldAfter(ops), op))
  {
    hide WorldAfter, RefusedFor, CancelledBy, SettleError;
    if (op.AckOp? || op.NackOp?) && op.sid < |WorldAfter(ops).sessions| { RefusalTells(ops, op.sid, op.tag); }
    if op.DeliverOp? { CancelledIffAsked(ops, op.sid); }
  }

  lemma RightAnswer(ops: seq<Operation>, op: Operation, a: Answer)
    requires Answers(WorldAfter(ops), op, a)
    ensures Right(ops, op, a)
  {
    hide DeliveredBy, HandedTo, WorldAfter, MaskSeqs, Span, Announced;
    var w := WorldAfter(ops);
    RightError(ops, op);
    forall k: nat, i: nat | k < |a.out| && i in a.out[k].Seqs() ensures a.out[k].redelivered <==> DeliveredBy(ops, i) {
      AnnouncedHas(a.out, k, i);
      assert Messages(Announced(a.out)) == HandedTo(w, op);
      MarkTellsHistory(ops, op, i);
    }
  }
}
