/** At-least-once durability: what a durable shard's log recovers after a restart. */
module Durability {
  import opened IntrusiveList
  import opened QueueSpec
  import opened Deliveries
  import opened SessionSpec
  import opened Runs
  import opened ShardSpec
  import opened Turns
  import opened Traces
  import opened ShardTraces
  import opened Bytes
  import opened Records
  import opened SortedMaps
  import opened Recovery
  import opened StoreOps
  import opened StoreLog
  import opened StorageEngine
  import opened ShardExecutor

  lemma {:induction false} PublishedGrows(log: seq<StoreOp>, j: nat, k: nat, q: nat)
    requires j <= k <= |log|
    ensures PublishedIn(log[..j], q) <= PublishedIn(log[..k], q)
    decreases k
  {
    if j == k {
    } else {
      PublishedGrows(log, j, k - 1, q);
      assert log[..k][..k - 1] == log[..k - 1];
    }
  }

  lemma BatchBounds(log: seq<StoreOp>, k: nat, q: nat, i: nat)
    requires Contiguous(log) && PublishedBy(log, k, q, i)
    ensures PublishedIn(log[..k], q) <= i < PublishedIn(log[..k + 1], q)
  {
    assert log[..k + 1][..k] == log[..k];
  }

  /** Batches that each continue the last never overlap. */
  lemma ContiguousNeverOverlaps(log: seq<StoreOp>)
    requires Contiguous(log)
    ensures NonOverlapping(log)
  {
    hide Contiguous;
    forall j: nat, k: nat, q, i | PublishedBy(log, j, q, i) && PublishedBy(log, k, q, i) ensures j == k {
      BatchBounds(log, j, q, i);
      BatchBounds(log, k, q, i);
      if j < k { PublishedGrows(log, j + 1, k, q); }
      if k < j { PublishedGrows(log, k + 1, j, q); }
    }
  }

  /** The published messages are those below the published count. */
  lemma {:induction false} ContiguousPublishes(log: seq<StoreOp>, n: nat, q: nat, i: nat)
    requires Contiguous(log) && n <= |log| && i < PublishedIn(log[..n], q)
    ensures Published(log, q, i)
    decreases n
  {
    if n == 0 {
    } else {
      assert log[..n][..n - 1] == log[..n - 1];
      if i < PublishedIn(log[..n - 1], q) {
        ContiguousPublishes(log, n - 1, q, i);
      } else {
        assert PublishedBy(log, n - 1, q, i);
      }
    }
  }

  lemma PublishedBelow(log: seq<StoreOp>, q: nat, i: nat)
    requires Contiguous(log)
    ensures Published(log, q, i) <==> i < PublishedIn(log, q)
  {
    hide Contiguous;
    assert log[..|log|] == log;
    if i < PublishedIn(log, q) { ContiguousPublishes(log, |log|, q, i); }
    if Published(log, q, i) {
      var k: nat :| PublishedBy(log, k, q, i);
      BatchBounds(log, k, q, i);
      PublishedGrows(log, k + 1, |log|, q);
    }
  }

  /** What is recovered: exactly the published messages that the ledger does not name, among them
      every message that the queue does not hold as acked; numbering continues where it stopped. */
  ghost predicate Restores(log: seq<StoreOp>, states: seq<MsgState>, q: nat, image: Image) {
    && (forall i: nat :: Has(image.ready, i) <==> i < |states| && !AckedIn(log, q, i))
    && (forall i: nat :: i < |states| && states[i] != Acked ==> Has(image.ready, i))
    && image.nextSeq == |states|
  }

  lemma NothingUnsettledIsLost(crc: Checksum, log: seq<StoreOp>, sh: Shard, q: nat, image: Image)
    requires Recorded(log, sh) && q in sh.queues && Recovers(crc, log, q, image)
    ensures Restores(log, sh.queues[q].queue.states, q, image)
  {
    hide PublishedIn, Contiguous, Published, AckedIn, Has, StoredPayload, PayloadLog;
    var states := sh.queues[q].queue.states;
    forall i: nat ensures Published(log, q, i) <==> i < |states| { PublishedBelow(log, q, i); }
    forall i: nat | i < |states| && states[i] != Acked ensures Has(image.ready, i) { assert !IsAcked(sh, q, i); }
    if |states| > 0 { assert Published(log, q, |states| - 1); }
  }

  /** The acked messages are those that a request ended, and of these exactly the ones acknowledged on
      their first delivery stay away: what was acknowledged as a redelivery, or dropped by a negative
      acknowledgement, a rejection or a cancel, is recovered. */
  ghost predicate RestoresEnded(ops: seq<Operation>, states: seq<MsgState>, image: Image) {
    && (forall i: nat :: i < |states| && states[i] == Acked <==> EndingOf(ops, i).Some?)
    && (forall i: nat :: Has(image.ready, i) <==> i < |states| && EndingOf(ops, i) != Some(AckedFirst))
  }

  lemma AckedButRecovered(crc: Checksum, log: seq<StoreOp>, sh: Shard, h: History, q: nat, image: Image)
    requires Recorded(log, sh) && Traced(sh, h) && LedgerTells(log, h)
    requires q in sh.queues && q in h.traces && Recovers(crc, log, q, image)
    ensures RestoresEnded(h.traces[q], sh.queues[q].queue.states, image)
  {
    hide Recorded, Recovers, EndingOf, AckedIn, Has, WorldAfter, AllSeated, AllElsewhere, AllOccupied, AllLined;
    NothingUnsettledIsLost(crc, log, sh, q, image);
    var states := sh.queues[q].queue.states;
    forall i: nat ensures i < |states| && states[i] == Acked <==> EndingOf(h.traces[q], i).Some? {
      EndedIffAcked(h.traces[q], i);
    }
    forall i: nat
      ensures Has(image.ready, i) <==> i < |states| && EndingOf(h.traces[q], i) != Some(AckedFirst)
    {
      assert AckedIn(log, q, i) <==> FirstAcked(h, q, i);
    }
  }

  /** After a batch of acknowledgements by consumer `c`, a restart recovers exactly what one before
      the batch would have, without the first deliveries that the batch settled. Redeliveries that
      it settled come back. */
  lemma RecoveredAfterAcks(crc: Checksum, before: seq<StoreOp>, after: seq<StoreOp>, sh: Shard, sh': Shard, c: nat,
      image: Image, image': Image)
    requires Recorded(before, sh) && Recorded(after, sh') && SettledAs(sh, sh', c, Acked)
    requires var s, r := sh.consumers[c], sh'.consumers[c];
      && Ledgered(true, before, after, s.queueId, s.session.list, r.session.list, RedeliveredFor(sh, c))
      && Recovers(crc, before, s.queueId, image) && Recovers(crc, after, s.queueId, image')
    ensures var s, r := sh.consumers[c], sh'.consumers[c];
      forall i: nat :: Has(image'.ready, i) <==>
        Has(image.ready, i) && !(Gone(s.session.list, r.session.list, i) && i !in RedeliveredFor(sh, c))
  {
    hide Recorded, Recovers, Has, AckedIn, Gone;
    var q := sh.consumers[c].queueId;
    NothingUnsettledIsLost(crc, before, sh, q, image);
    NothingUnsettledIsLost(crc, after, sh', q, image');
  }

  /** Issue a series of storage calls to a fresh engine. */
  method Replay(crc: Checksum, log: seq<StoreOp>) returns (engine: AppendOnlyStorageEngine)
    ensures fresh(engine) && engine.Valid() && engine.crc == crc && engine.ops == log
  {
    hide PayloadLog, IndexLog, AckLog;
    engine := new AppendOnlyStorageEngine(crc);
    for k := 0 to |log|
      invariant fresh(engine) && engine.Valid() && engine.crc == crc && engine.ops == log[..k]
    {
      match log[k] {
        case AppendPublish(p, base, payloads) => engine.AppendPublish(p, base, payloads);
        case AppendAckRange(p, start, len) => engine.AppendAckRange(p, start, len);
      }
    }
    assert log[..|log|] == log;
  }

  /** A run of the durable shard, then a restart that recovers one queue. */
  method RestartAndRecover(shard: InMemoryShardExecutor, crc: Checksum, q: nat) returns (image: Option<Image>)
    requires shard.Valid() && shard.durable && q in shard.queues && OpsOk(crc, shard.log)
    ensures image.Some? && Recovers(crc, shard.log, q, image.value)
    ensures Restores(shard.log, shard.queues[q].queue.states, q, image.value)
    ensures q in shard.history.traces
    ensures RestoresEnded(shard.history.traces[q], shard.queues[q].queue.states, image.value)
  {
    hide AllSeated, AllElsewhere, AllOccupied, AllLined, LedgerTells;
    hide Restores, RestoresEnded, ShardOk, Recorded, OpsOk, Recovers, NonOverlapping, Has, PayloadLog, IndexLog, AckLog;
    var engine := Replay(crc, shard.log);
    Truthful(shard.log, shard.Abs());
    image := engine.RecoverQueue(q);
    NothingUnsettledIsLost(crc, shard.log, shard.Abs(), q, image.value);
    AckedButRecovered(crc, shard.log, shard.Abs(), shard.history, q, image.value);
  }

  lemma Truthful(log: seq<StoreOp>, sh: Shard)
    requires Recorded(log, sh)
    ensures NonOverlapping(log)
  {
    ContiguousNeverOverlaps(log);
  }

  // ---- A run that ends with an acked message recovered

  /** One message, one consumer, unlimited credit. */
  ghost predicate Lone(sh: Shard) {
    && 0 in sh.queues && 1 in sh.consumers && sh.consumers[1].queueId == 0 && sh.queues[0].consumers == [1]
    && |sh.queues[0].queue.states| == 1 && sh.consumers[1].session.credit.mode == Unlimited
  }

  /** The consumer holds the message. */
  ghost predicate Holding(sh: Shard, tag: nat, again: bool) {
    && Lone(sh) && sh.consumers[1].session.list == [Entry(tag, 0)] && sh.consumers[1].session.nextTag == tag + 1
    && sh.queues[0].queue.states == [Inflight] && (0 in sh.queues[0].queue.redelivered <==> again)
  }

  /** The consumer will be handed the message under the given tag. */
  ghost predicate Waiting(sh: Shard, tag: nat, again: bool) {
    && Lone(sh) && sh.consumers[1].session.list == [] && sh.consumers[1].session.nextTag == tag
    && (0 in sh.queues[0].queue.redelivered <==> again)
    && sh.queues[0].queue.states[0] != Acked && sh.queues[0].queue.states[0] != MsgState.Retry
  }

  lemma HandsOver(a: Shard, b: Shard, tag: nat, again: bool)
    requires Waiting(a, tag, again) && ShardOk(b) && AllQuiet(b) && OnlyQueue(a, b, 0) && Extended(a, b)
    ensures Holding(b, tag, again)
  {
    hide ShardOk;
    var s, r := a.consumers[1].session, b.consumers[1].session;
    var x, y := a.queues[0].queue, b.queues[0].queue;
    assert Gained(s, r) && OnlyServed(x, y) && Quiet(b, 0) && Served(b, 1, 0);
    assert y.states == [y.states[0]];
    HeldByTheOne(b);
    var msgs := Messages(r.list);
    assert r.list[|s.list|..] == r.list && r.list == Tagged(tag, msgs);
    assert |msgs| == 1 && msgs[0] == 0;
  }

  /** An inflight message is what the only consumer holds. */
  lemma HeldByTheOne(sh: Shard)
    requires ShardOk(sh) && Lone(sh) && sh.queues[0].queue.states[0] == Inflight
    ensures Messages(sh.consumers[1].session.list) == [0]
  {
    hide Messages;
    var w, msgs := WorldOf(sh, 0), Messages(sh.consumers[1].session.list);
    assert WorldOk(w);
    assert HeldBySome(w, 0);
    OwnsOf(sh, 1);
    assert 0 in msgs;
    forall i | i in msgs ensures i == 0 { assert i < |sh.queues[0].queue.states|; }
    JustZero(msgs);
  }

  lemma JustZero(msgs: seq<nat>)
    requires 0 in msgs && Distinct(msgs) && forall i :: i in msgs ==> i == 0
    ensures msgs == [0]
  {
    assert msgs[0] in msgs;
    if |msgs| > 1 { TwoDiffer(msgs); }
  }

  lemma TwoDiffer(msgs: seq<nat>)
    requires Distinct(msgs) && |msgs| > 1
    ensures msgs[0] in msgs && msgs[1] in msgs && msgs[0] != msgs[1]
  {
  }

  /** A negative acknowledgement to requeue, then the retry. */
  lemma ComesBack(a: Shard, b: Shard)
    requires Holding(a, 1, false) && NackedBy(a, b, 1, [NackTag(1, One, Requeue)])
    ensures 0 in b.queues && Waiting(RetriedOn(b, 0), 2, true)
    ensures b.consumers[1].queueId == 0 && |b.consumers[1].session.list| == 0
  {
    var cmds := [NackTag(1, One, Requeue)];
    var list := a.consumers[1].session.list;
    assert cmds[..0] == [];
    assert AfterNacks(list, []) == list && AfterNacks(list, cmds) == WithoutTags(list, [1]);
    assert WithoutTags(list, [1]) == [];
    assert list[0].msg == 0 && Gone(list, [], 0);
    assert NackedStates([Inflight], list, []) == [Inflight];
    var y := b.queues[0].queue;
    assert y.states == [MsgState.Retry];
    assert 0 in Select(y.states, MsgState.Retry, 0, |y.states|);
  }

  /** The acknowledgement of a redelivery reaches the queue and not the ledger. */
  lemma AckedUnlogged(a: Shard, b: Shard, before: seq<StoreOp>, after: seq<StoreOp>)
    requires Holding(a, 2, true) && SettledAs(a, b, 1, Acked)
    requires b.consumers[1].session.list == AfterAcks(a.consumers[1].session.list, [AckTag(2, One)])
    requires Ledgered(true, before, after, 0, a.consumers[1].session.list, b.consumers[1].session.list,
      RedeliveredFor(a, 1))
    ensures IsAcked(b, 0, 0) && after == before
    ensures b.consumers[1].queueId == 0 && |b.consumers[1].session.list| == 0
  {
    hide AckedIn;
    var cmds, list := [AckTag(2, One)], a.consumers[1].session.list;
    assert cmds[..0] == [] && AfterAcks(list, []) == list && AfterAcks(list, cmds) == WithoutTags(list, [2]);
    assert WithoutTags(list, [2]) == [];
    assert list[0].msg == 0 && Gone(list, [], 0);
  }

  /** Declare, publish, consume, requeue: the message is with the consumer for the second time. */
  method RunToRedelivery(payload: bytes) returns (shard: InMemoryShardExecutor)
    ensures fresh(shard) && shard.durable && shard.Valid() && AllQuiet(shard.Abs())
    ensures Holding(shard.Abs(), 2, true) && shard.log == [AppendPublish(0, 0, [payload])]
  {
    hide ShardOk, Recorded, Traced, LedgerTells, AllQuiet, OnlyQueue, Extended, Dealt, NackedBy, RetryAllNow;
    shard := new InMemoryShardExecutor(true);
    var e := shard.ExecDeclareQueue(0);
    ghost var mid;
    e, mid := shard.ExecPublish(0, [payload]);
    Arrived(mid, shard.Abs());
    e, mid := shard.ExecConsumeStart(0, 1, 0);
    HandsOver(mid, shard.Abs(), 1, false);
    ghost var before := shard.Abs();
    var n, errors;
    n, errors, mid := shard.ExecNackBatch(1, [NackTag(1, One, Requeue)]);
    ComesBack(before, mid);
    HandsOver(RetriedOn(mid, 0), shard.Abs(), 2, true);
  }

  /** Then an acknowledgement and a restart: the queue holds the message as acked, and it is recovered. */
  method RedeliveryComesBack(crc: Checksum, payload: bytes) returns (shard: InMemoryShardExecutor, image: Image)
    requires OpsOk(crc, [AppendPublish(0, 0, [payload])])
    ensures fresh(shard) && shard.durable && shard.Valid() && IsAcked(shard.Abs(), 0, 0)
    ensures Recovers(crc, shard.log, 0, image) && Has(image.ready, 0)
  {
    hide ShardOk, Recorded, Traced, LedgerTells, AllQuiet, OnlyQueue, Extended, Dealt, OpsOk, NackedBy, SettledAs;
    hide Ledgered, Recovers, Restores, RestoresEnded, AfterAcks, WithoutTags, Has;
    shard := RunToRedelivery(payload);
    ghost var before, logged, mid := shard.Abs(), shard.log, shard.Abs();
    var n, errors;
    n, errors, mid := shard.ExecAckBatch(1, [AckTag(2, One)]);
    AckedUnlogged(before, mid, logged, shard.log);
    StaysAcked(mid, shard.Abs());
    var recovered := RestartAndRecover(shard, crc, 0);
    image := recovered.value;
    NotLedgered(payload, shard.queues[0].queue.states, image);
  }

  lemma Arrived(a: Shard, b: Shard)
    requires OnlyQueue(a, b, 0) && Extended(a, b) && a.queues.Keys == {0} && a.consumers == map[]
    requires a.queues[0].consumers == [] && a.queues[0].queue == Publish(EMPTY_QUEUE, 1)
    ensures 0 in b.queues && b.consumers == map[] && b.queues[0].consumers == [] && |b.queues[0].queue.states| == 1
    ensures b.queues[0].queue.redelivered == {} && b.queues[0].queue.states[0] in {Ready, Inflight}
  {
  }

  lemma StaysAcked(a: Shard, b: Shard)
    requires IsAcked(a, 0, 0) && OnlyQueue(a, b, 0)
    ensures IsAcked(b, 0, 0)
  {
  }

  lemma NotLedgered(payload: bytes, states: seq<MsgState>, image: Image)
    requires Restores([AppendPublish(0, 0, [payload])], states, 0, image) && |states| >= 1
    ensures Has(image.ready, 0)
  {
    hide Has;
  }
}
