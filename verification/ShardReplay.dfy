/** A shard's queue on the concrete structures: the requests that a run of the shard made lead the hybrid
    queue and its consumer sessions to the shard's own queue and sessions. */
module ShardReplay {
  import opened Kernels
  import opened IntrusiveList
  import opened QueueSpec
  import opened HybridQueue
  import opened SessionSpec
  import opened ConsumerSessions
  import opened Runs
  import opened ShardSpec
  import opened Traces
  import opened ShardTraces
  import opened SessionFleet
  import opened ShardExecutor

  /** One consumer's session, and every session that is nobody's is cancelled. */
  ghost predicate Manned(sh: Shard, h: History, q: nat, sessions: seq<Session>) {
    && (forall c :: Attached(sh, c, q) ==>
      c in h.seats && h.seats[c] < |sessions| && sessions[h.seats[c]] == sh.consumers[c].session)
    && (forall k: nat :: k < |sessions| && !sessions[k].cancelled ==> Occupied(sh, h, q, k))
  }

  lemma HistoryLeadsHere(sh: Shard, h: History, q: nat)
    requires Traced(sh, h) && q in sh.queues
    ensures q in h.traces && WorldAfter(h.traces[q]).queue == sh.queues[q].queue
    ensures Manned(sh, h, q, WorldAfter(h.traces[q]).sessions)
  {
    hide WorldAfter, AllElsewhere, Occupied, AllLined;
    var w := WorldIn(h, q);
    forall c | Attached(sh, c, q)
      ensures c in h.seats && h.seats[c] < |w.sessions| && w.sessions[h.seats[c]] == sh.consumers[c].session
    {
      assert Seated(sh, h, c);
    }
    forall k: nat | k < |w.sessions| && !w.sessions[k].cancelled ensures Occupied(sh, h, q, k) {
      assert StillOpenIn(h, q, k);
    }
  }

  /** Whatever a shard was asked, the concrete queue and sessions that are asked the same end with the
      contents of the shard's queue and of the sessions attached to it, every answer on the way was right,
      and the queue's own validator accepts the result. */
  method Rebuild(shard: InMemoryShardExecutor, q: nat, ops: seq<Operation>)
    returns (fleet: Fleet, answers: seq<Answer>, problem: Option<InvariantKind>, counts: QueueCounts)
    requires shard.Valid() && q in shard.queues && Fits(ops)
    requires q in shard.history.traces && ops == shard.history.traces[q]
    ensures fresh(fleet) && fleet.Valid() && fleet.queue.Shape() && fleet.queue.Abs() == shard.queues[q].queue
    ensures |answers| == |ops| && AllRight(ops, answers)
    ensures problem.None? && counts == Counts(shard.queues[q].queue.states)
    ensures Manned(shard.Abs(), shard.history, q, fleet.Abs().sessions)
    ensures forall k :: 0 <= k < |fleet.sessions| ==> fleet.Abs().sessions[k] == fleet.sessions[k].Abs()
  {
    hide Fleet.Valid, Fleet.Abs, Fleet.Separate, ConsumerSession.Abs, HybridRangeBlockQueue.Abs;
    hide HybridRangeBlockQueue.Inv, AllRight, Fits, WorldAfter, Traced, ShardOk, Manned, LedgerTells;
    HistoryLeadsHere(shard.Abs(), shard.history, q);
    fleet, answers := Replay(ops);
    fleet.Facts();
    problem, counts := fleet.Inspect();
  }
}
