/** The calls a durable shard makes to its storage engine. */
module StoreOps {
  import opened Bytes

  datatype StoreOp =
    | AppendPublish(queueId: nat, base: nat, payloads: seq<bytes>)
    | AppendAckRange(queueId: nat, start: nat, len: nat)

  function PublishedIn(log: seq<StoreOp>, q: nat): (n: nat) {
    if log == [] then 0 else
      var op := log[|log| - 1];
      PublishedIn(log[..|log| - 1], q) + (if op.AppendPublish? && op.queueId == q then |op.payloads| else 0)
  }

  ghost predicate AckedIn(log: seq<StoreOp>, q: nat, i: nat) {
    exists k :: 0 <= k < |log| && log[k].AppendAckRange? && log[k].queueId == q
      && log[k].start <= i < log[k].start + log[k].len
  }

  /** Each batch continues where the queue's earlier batches ended. */
  ghost predicate Contiguous(log: seq<StoreOp>) {
    forall k :: 0 <= k < |log| && log[k].AppendPublish? ==> log[k].base == PublishedIn(log[..k], log[k].queueId)
  }

  lemma PublishedAppend(log: seq<StoreOp>, op: StoreOp, q: nat)
    ensures PublishedIn(log + [op], q) ==
      PublishedIn(log, q) + (if op.AppendPublish? && op.queueId == q then |op.payloads| else 0)
    ensures op.AppendPublish? && Contiguous(log) && op.base == PublishedIn(log, op.queueId) ==> Contiguous(log + [op])
    ensures op.AppendAckRange? && Contiguous(log) ==> Contiguous(log + [op])
  {
    var r := log + [op];
    assert r[..|log|] == log;
    assert forall k :: 0 <= k < |log| ==> r[..k] == log[..k] && r[k] == log[k];
  }

  lemma AckedAppend(log: seq<StoreOp>, op: StoreOp, q: nat, i: nat)
    ensures AckedIn(log + [op], q, i) <==>
      AckedIn(log, q, i) || (op.AppendAckRange? && op.queueId == q && op.start <= i < op.start + op.len)
  {
    var r := log + [op];
    if AckedIn(log, q, i) {
      var k :| 0 <= k < |log| && log[k].AppendAckRange? && log[k].queueId == q
        && log[k].start <= i < log[k].start + log[k].len;
      assert r[k] == log[k];
    }
    if op.AppendAckRange? && op.queueId == q && op.start <= i < op.start + op.len { assert r[|log|] == op; }
  }
}

/** What the storage calls of a durable shard must record of its queues. */
module StoreLog {
  import opened QueueSpec
  import opened ShardSpec
  import opened Bytes
  import opened StoreOps

  ghost predicate IsAcked(sh: Shard, q: nat, i: nat) {
    q in sh.queues && i < |sh.queues[q].queue.states| && sh.queues[q].queue.states[i] == Acked
  }

  /** Everything published is in the log, and the ledger names only settled messages. */
  ghost predicate Recorded(log: seq<StoreOp>, sh: Shard) {
    && Contiguous(log)
    && (forall q :: PublishedIn(log, q) == if q in sh.queues then |sh.queues[q].queue.states| else 0)
    && (forall q, i: nat :: AckedIn(log, q, i) ==> IsAcked(sh, q, i))
  }

  lemma NothingRecorded()
    ensures Recorded([], EMPTY_SHARD)
  {
  }

  /** Work that settles messages but never unsettles one keeps the log truthful. */
  lemma StillRecorded(log: seq<StoreOp>, a: Shard, b: Shard)
    requires Recorded(log, a) && a.queues.Keys == b.queues.Keys
    requires forall q :: q in a.queues ==> SettledKept(a.queues[q].queue, b.queues[q].queue)
    ensures Recorded(log, b)
  {
    forall q, i: nat | AckedIn(log, q, i) ensures IsAcked(b, q, i) {
      assert IsAcked(a, q, i) && SettledKept(a.queues[q].queue, b.queues[q].queue);
    }
  }

  lemma WorkRecorded(log: seq<StoreOp>, a: Shard, b: Shard, q: nat)
    requires Recorded(log, a) && OnlyQueue(a, b, q)
    ensures Recorded(log, b)
  {
    StillRecorded(log, a, b);
  }

  lemma PublishRecorded(log: seq<StoreOp>, sh: Shard, q: nat, payloads: seq<bytes>)
    requires Recorded(log, sh) && q in sh.queues
    ensures Recorded(log + [AppendPublish(q, |sh.queues[q].queue.states|, payloads)], PublishedTo(sh, q, |payloads|))
  {
    hide PublishedIn, AckedIn, Contiguous;
    var op, r := AppendPublish(q, |sh.queues[q].queue.states|, payloads), PublishedTo(sh, q, |payloads|);
    PublishedAppend(log, op, q);
    forall x ensures PublishedIn(log + [op], x) == if x in r.queues then |r.queues[x].queue.states| else 0 {
      PublishedAppend(log, op, x);
    }
    forall x, i: nat | AckedIn(log + [op], x, i) ensures IsAcked(r, x, i) {
      AckedAppend(log, op, x, i);
    }
  }

  lemma AckRecorded(log: seq<StoreOp>, sh: Shard, q: nat, start: nat, len: nat)
    requires Recorded(log, sh) && q in sh.queues
    requires forall i: nat :: start <= i < start + len ==> IsAcked(sh, q, i)
    ensures Recorded(log + [AppendAckRange(q, start, len)], sh)
  {
    hide PublishedIn, AckedIn, Contiguous;
    var op := AppendAckRange(q, start, len);
    PublishedAppend(log, op, q);
    forall x ensures PublishedIn(log + [op], x) == PublishedIn(log, x) { PublishedAppend(log, op, x); }
    forall x, i: nat | AckedIn(log + [op], x, i) ensures IsAcked(sh, x, i) {
      AckedAppend(log, op, x, i);
    }
  }

  lemma DeclareRecorded(log: seq<StoreOp>, sh: Shard, q: nat)
    requires Recorded(log, sh) && q !in sh.queues
    ensures Recorded(log, Declared(sh, q))
  {
  }
}
