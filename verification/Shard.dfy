/** The in-memory shard executor (aurum-broker): commands enter, queues and consumers change, and
    every queue is driven until nothing more can be delivered. */
module ShardExecutor {
  import opened Words
  import opened Kernels
  import opened IntrusiveList
  import opened QueueSpec
  import opened Blocks
  import opened Deliveries
  import opened SessionSpec
  import opened Runs
  import opened ShardSpec
  import opened Turns
  import opened Traces
  import opened ShardTraces
  import opened StoreOps
  import opened StoreLog
  import opened Bytes

  const DELIVER_BATCH := 256
  const MAX_DELIVERY_PASSES := 16

  datatype CommandError =
    | DuplicateQueue(queueId: nat)
    | QueueNotFound(queueId: nat)
    | DuplicateConsumer(consumerId: nat)
    | ConsumerNotFound(consumerId: nat)
    | SettlementRefused(consumerId: nat, why: ConsumerError)

  datatype AckCommand =
    | AckTag(tag: nat, mode: Mode)
    | AckRangeTo(start: nat, end: nat)
    | AckMaskOf(base: nat, mask: u64)

  datatype NackCommand =
    | NackTag(tag: nat, mode: Mode, reason: NackReason)
    | NackRangeTo(start: nat, end: nat, reason: NackReason)
    | NackMaskOf(base: nat, mask: u64, reason: NackReason)

  datatype CancelCommand = CancelRequeue | CancelDrop | CancelDeadLetter

  datatype ConsumeStart = ConsumeStart(queueId: nat, consumerId: nat, prefetch: nat)

  datatype CommandBatch =
    | DeclareBatch(queueIds: seq<nat>)
    | PublishBatch(queueId: nat, payloads: seq<bytes>)
    | ConsumeBatch(starts: seq<ConsumeStart>)
    | CreditBatch(credits: seq<nat>)
    | AckBatch(consumerId: nat, acks: seq<AckCommand>)
    | NackBatch(consumerId: nat, nacks: seq<NackCommand>)
    | RejectBatch(consumerId: nat, rejects: seq<(nat, NackReason)>)
    | CancelBatch(cancels: seq<(nat, CancelCommand)>)

  /** What a shard holds and what it has logged. */
  datatype Snapshot = Snapshot(shard: Shard, log: seq<StoreOp>)

  /** Prefetch counts are 32-bit. */
  predicate BatchOk(batch: CommandBatch) {
    batch.ConsumeBatch? ==> forall k :: 0 <= k < |batch.starts| ==> batch.starts[k].prefetch <= U32_MAX
  }

  class InMemoryShardExecutor {
    var queues: map<nat, QueueState>
    var consumers: map<nat, Consumer>
    const durable: bool
    var log: seq<StoreOp>
    ghost var history: History

    function Abs(): (sh: Shard)
      reads this
    {
      Shard(queues, consumers)
    }

    /** The registries agree, and the requests so far lead to this state. */
    ghost predicate Sound()
      reads this
    {
      ShardOk(Abs()) && Traced(Abs(), history)
    }

    /** A durable shard's log tells the truth about its queues; another keeps none. */
    ghost predicate Kept()
      reads this
    {
      if durable then Recorded(log, Abs()) else log == []
    }

    /** The state is sound, and a durable shard's log tells the truth about its queues: its ledger names
        exactly the messages that were acknowledged on their first delivery. */
    ghost predicate Valid()
      reads this
    {
      Sound() && Kept() && (durable ==> LedgerTells(log, history))
    }

    constructor (durable: bool)
      ensures Valid() && AllQuiet(Abs()) && Abs() == EMPTY_SHARD && this.durable == durable && log == []
    {
      queues, consumers, this.durable, log, history := map[], map[], durable, [], NO_HISTORY;
      NothingRecorded();
      NothingTraced();
    }

    // ---- Commands

    method ExecDeclareQueue(q: nat) returns (error: Option<CommandError>)
      requires Valid() && AllQuiet(Abs())
      modifies this`queues, this`history
      ensures Valid() && AllQuiet(Abs())
      ensures q in old(queues) ==> error == Some(DuplicateQueue(q)) && Abs() == old(Abs())
      ensures q !in old(queues) ==> error == None && Abs() == Declared(old(Abs()), q)
    {
      hide ShardOk, Recorded, AllQuiet, Traced, LedgerTells, SameFirsts;
      if q in queues {
        return Some(DuplicateQueue(q));
      }
      DeclareOk(Abs(), q);
      DeclareTraced(Abs(), history, q);
      ghost var next := history.(traces := history.traces[q := []]);
      if durable {
        DeclareRecorded(log, Abs(), q);
        DeclareTells(log, Abs(), history, q);
      }
      queues := queues[q := NEW_QUEUE];
      history := next;
      error := None;
    }

    /** `exec_publish`: the batch is logged before it enters the queue, and then delivered as far
        as credit goes. */
    method ExecPublish(q: nat, payloads: seq<bytes>) returns (error: Option<CommandError>, ghost mid: Shard)
      requires Valid() && AllQuiet(Abs())
      modifies this
      ensures Valid() && AllQuiet(Abs())
      ensures q !in old(queues) ==> error == Some(QueueNotFound(q)) && Abs() == old(Abs()) && log == old(log)
      ensures q in old(queues) ==> error == None && mid == PublishedTo(old(Abs()), q, |payloads|)
      ensures q in old(queues) ==> ServedOn(mid, Abs(), q)
      ensures q in old(queues) ==>
        log == old(log) + if durable then [AppendPublish(q, |old(queues)[q].queue.states|, payloads)] else []
    {
      hide ShardOk, Recorded, AllQuiet, OnlyQueue, Extended, Dealt, QuietExcept, Publish, Traced;
      hide LedgerTells, SameFirsts;
      mid := Abs();
      if q !in queues {
        return Some(QueueNotFound(q)), mid;
      }
      var base := |queues[q].queue.states|;
      QueueOnlyOk(Abs(), q, PublishStep(|payloads|));
      QuietMeans(Abs(), q);
      PublishRequest(Abs(), history, q, |payloads|);
      AskedFirsts(history, q, PublishOp(|payloads|));
      if durable {
        PublishRecorded(log, Abs(), q, payloads);
        StillTells(log, history, Asked(history, q, PublishOp(|payloads|)));
        PublishTells(log, AppendPublish(q, base, payloads), Asked(history, q, PublishOp(|payloads|)));
        log := log + [AppendPublish(q, base, payloads)];
      }
      queues := queues[q := queues[q].(queue := Publish(queues[q].queue, |payloads|))];
      history := Asked(history, q, PublishOp(|payloads|));
      mid := Abs();
      Drive(q);
      error := None;
    }

    /** `exec_consume_start`: an unknown queue or a taken id is refused; otherwise the consumer is
        attached and served. A prefetch of zero means no limit. */
    method ExecConsumeStart(q: nat, c: nat, prefetch: nat) returns (error: Option<CommandError>, ghost mid: Shard)
      requires Valid() && AllQuiet(Abs()) && prefetch <= U32_MAX
      modifies this`queues, this`consumers, this`history
      ensures Valid() && AllQuiet(Abs())
      ensures q !in old(queues) ==> error == Some(QueueNotFound(q)) && Abs() == old(Abs())
      ensures q in old(queues) && c in old(consumers) ==> error == Some(DuplicateConsumer(c)) && Abs() == old(Abs())
      ensures q in old(queues) && c !in old(consumers) ==>
        error == None && ServedOn(mid, Abs(), q)
      ensures q in old(queues) && c !in old(consumers) ==>
        mid == Subscribed(old(Abs()), q, c, if prefetch == 0 then Unlimited else Limited(prefetch))
    {
      hide ShardOk, Recorded, AllQuiet, OnlyQueue, Extended, Dealt, QuietExcept, Traced, LedgerTells, SameFirsts;
      mid := Abs();
      if q !in queues {
        return Some(QueueNotFound(q)), mid;
      }
      var mode := if prefetch == 0 then Unlimited else Limited(prefetch);
      if c in consumers {
        return Some(DuplicateConsumer(c)), mid;
      }
      SubscribeOk(Abs(), q, c, mode);
      NotListed(Abs(), q, c);
      OpenRequest(Abs(), history, q, c, mode);
      if durable {
        SubscribeRecorded(log, Abs(), q, c, mode);
        StillTells(log, history, Joined(history, q, c, mode));
      }
      history := Joined(history, q, c, mode);
      consumers := consumers[c := Consumer(q, NewSession(mode))];
      if c !in queues[q].consumers {
        queues := queues[q := queues[q].(consumers := queues[q].consumers + [c])];
      }
      mid := Abs();
      Drive(q);
      error := None;
    }

    method ExecCreditUpdate(c: nat) returns (error: Option<CommandError>)
      requires Valid() && AllQuiet(Abs())
      modifies this`queues, this`consumers, this`history
      ensures Valid() && AllQuiet(Abs())
      ensures c !in old(consumers) ==> error == Some(ConsumerNotFound(c)) && Abs() == old(Abs())
      ensures c in old(consumers) ==>
        error == None && ServedOn(old(Abs()), Abs(), old(consumers)[c].queueId)
    {
      hide ShardOk, Recorded, AllQuiet, OnlyQueue, Extended, Dealt, QuietExcept, Traced, LedgerTells;
      if c !in consumers {
        return Some(ConsumerNotFound(c));
      }
      QuietMeans(Abs(), consumers[c].queueId);
      Drive(consumers[c].queueId);
      error := None;
    }

    /** Settle one tag, or all tags up to it, in the consumer's own queue. */
    method SettleFor(c: nat, tag: nat, mode: Mode, reason: NackReason, ghost ack: bool)
      returns (r: Result<nat>, ranges: seq<Range>)
      requires Sound() && c in consumers && (ack ==> reason == NackReason.Reject)
      modifies this`queues, this`consumers, this`history
      ensures Sound() && SettledAs(old(Abs()), Abs(), c, SettledState(reason))
      ensures r.Failure? <==> SettleError(old(consumers)[c].session, tag).Some?
      ensures r.Failure? ==> SettleError(old(consumers)[c].session, tag) == Some(r.error) && Abs() == old(Abs())
      ensures r.Success? ==>
        c in consumers && consumers[c].session == Settle(old(consumers)[c].session, tag, mode) && r.value > 0
      ensures r.Success? ==> r.value == |old(consumers)[c].session.list| - |consumers[c].session.list|
      ensures r.Success? && reason != Requeue ==> AllAcked(Abs(), old(consumers)[c].queueId, RangesSeqs(ranges))
      ensures r.Success? ==> var msgs := Messages(Taken(old(consumers)[c].session, tag, mode));
        RangesSeqs(ranges) == Pick(msgs, RedeliveredFor(old(Abs()), c), true)
      ensures r.Failure? ==> ranges == []
      ensures !ack || r.Failure? ==> SameFirsts(old(history), history)
      ensures ack && r.Success? ==>
        FirstsGrew(old(history), history, old(consumers)[c].queueId, RangesSeqs(ranges))
    {
      hide ShardOk, SettledAs, AllAcked, HasTag, Taken, Unsettled, Disposed, Messages;
      hide Traced, SameFirsts, FirstsGrew, Pick, RangesSeqs;
      var session := consumers[c].session;
      var error := SettleError(session, tag);
      if error.Some? {
        SettledAsNothing(Abs(), c, SettledState(reason));
        NoneMore(history);
        return Failure(error.value), [];
      }
      Opened(Abs(), c);
      var q := consumers[c].queueId;
      var msgs := Messages(Taken(session, tag, mode));
      var order;
      order, ranges := SettlementOrder(queues[q].queue, msgs);
      SettleOrderComplete(msgs, queues[q].queue.redelivered);
      SettleEffect(Abs(), c, tag, mode, reason, order, RangesSeqs(ranges));
      SettleRequest(Abs(), history, c, tag, mode, reason, ack);
      ghost var op := SettleOp(history.seats[c], tag, mode, reason, ack);
      if ack { AckFirsts(Abs(), history, c, tag, mode); } else { AskedFirsts(history, q, op); }
      history := Asked(history, q, op);
      queues := queues[q := queues[q].(queue := Disposed(queues[q].queue, order, reason))];
      consumers := consumers[c := Consumer(q, Settle(session, tag, mode))];
      r := Success(|Taken(session, tag, mode)|);
    }

    /** Append the acknowledged ranges to the ledger; empty ones are skipped. */
    method LogAcks(q: nat, ranges: seq<Range>)
      requires Sound() && Kept() && AllAcked(Abs(), q, RangesSeqs(ranges))
      modifies this`log
      ensures Sound() && Kept() && if durable then LedgerGrew(old(log), log, q, RangesSeqs(ranges)) else log == old(log)
    {
      hide ShardOk, Recorded, LedgerGrew, RangesSeqs, AllAcked, Traced;
      if durable {
        LedgerStarts(log, q, ranges);
        for k := 0 to |ranges|
          invariant Sound() && Kept() && LedgerGrew(old(log), log, q, RangesSeqs(ranges[..k]))
        {
          LedgerRange(old(log), log, q, ranges, k);
          if ranges[k].len != 0 {
            OneRangeAcked(Abs(), q, ranges, k);
            AckRecorded(log, Abs(), q, ranges[k].start, ranges[k].len);
            log := log + [AppendAckRange(q, ranges[k].start, ranges[k].len)];
          }
        }
        assert ranges[..|ranges|] == ranges;
      }
    }

    /** Acknowledge one tag, or all tags up to it, and append what is reported to the ledger. */
    method AckOne(c: nat, tag: nat, mode: Mode) returns (r: Result<nat>)
      requires Valid() && c in consumers
      modifies this
      ensures Valid() && SettledAs(old(Abs()), Abs(), c, Acked) && c in consumers
      ensures r.Failure? <==> SettleError(old(consumers)[c].session, tag).Some?
      ensures r.Failure? ==> SettleError(old(consumers)[c].session, tag) == Some(r.error) && Abs() == old(Abs())
      ensures r.Success? ==> consumers[c].session == Settle(old(consumers)[c].session, tag, mode) && r.value > 0
      ensures r.Success? ==> r.value == |old(consumers)[c].session.list| - |consumers[c].session.list|
      ensures consumers[c].session.list == AfterSettle(old(consumers)[c].session.list, tag, mode)
      ensures Ledgered(durable, old(log), log, old(consumers)[c].queueId, old(consumers)[c].session.list,
        consumers[c].session.list, RedeliveredFor(old(Abs()), c))
    {
      hide ShardOk, SettledAs, AllAcked, HasTag, Recorded, Settle, RangesSeqs, LedgerGrew, Ledgered, Pick, Taken,
        AfterSettle, Traced, LedgerTells, SameFirsts, FirstsGrew;
      ghost var before, s, red := Abs(), consumers[c].session, RedeliveredFor(Abs(), c);
      var q := consumers[c].queueId;
      var ranges;
      OwnsOf(Abs(), c);
      FailsIffNotOutstanding(s, tag);
      r, ranges := SettleFor(c, tag, mode, NackReason.Reject, true);
      SettledList(before, Abs(), c, tag, mode, r.Success?);
      if durable { SettledRecorded(log, before, Abs(), c, Acked); }
      if r.Success? {
        LogAcks(q, ranges);
        if durable { TellsMore(old(log), log, old(history), history, q, RangesSeqs(ranges)); }
        SettledLedger(durable, old(log), log, q, s, tag, mode, red);
      } else {
        if durable { StillTells(log, old(history), history); }
        LedgeredNothing(durable, log, q, s.list, red);
      }
    }

    /** Acknowledge the given tags one by one; those not outstanding are passed over. */
    method AckEach(c: nat, tags: seq<nat>) returns (total: nat)
      requires Valid() && c in consumers
      modifies this
      ensures Valid() && SettledAs(old(Abs()), Abs(), c, Acked) && (total == 0 ==> Abs() == old(Abs()))
      ensures c in consumers && consumers[c].session.list == WithoutTags(old(consumers)[c].session.list, tags)
      ensures total == |old(consumers)[c].session.list| - |consumers[c].session.list|
      ensures Ledgered(durable, old(log), log, old(consumers)[c].queueId, old(consumers)[c].session.list,
        consumers[c].session.list, RedeliveredFor(old(Abs()), c))
    {
      hide ShardOk, SettledAs, AllAcked, HasTag, Recorded, WithoutTags, Settle, Ledgered, AfterSettle, Traced,
        LedgerTells;
      total := 0;
      ghost var list, q, red := consumers[c].session.list, consumers[c].queueId, RedeliveredFor(Abs(), c);
      EachStarts(Abs(), c, tags, Acked);
      LedgeredNothing(durable, log, q, list, red);
      for k := 0 to |tags|
        invariant Valid() && c in consumers && SettledAs(old(Abs()), Abs(), c, Acked)
        invariant total == 0 ==> Abs() == old(Abs())
        invariant consumers[c].session.list == WithoutTags(list, tags[..k])
        invariant total == |list| - |consumers[c].session.list|
        invariant Ledgered(durable, old(log), log, q, list, consumers[c].session.list, red)
      {
        ghost var before, logged := Abs(), log;
        SameQueueFor(old(Abs()), before, c, Acked);
        var r := AckOne(c, tags[k], One);
        EachStep(old(Abs()), before, Abs(), c, tags, k, r.Success?, Acked);
        KeptFrom(old(Abs()), before, c, Acked);
        KeptFrom(before, Abs(), c, Acked);
        LedgeredTwice(durable, old(log), logged, log, q, list, before.consumers[c].session.list,
          consumers[c].session.list, red);
        if r.Success? { total := total + r.value; }
      }
      assert tags[..|tags|] == tags;
    }

    method NackEach(c: nat, tags: seq<nat>, reason: NackReason) returns (total: nat)
      requires Valid() && c in consumers
      modifies this`queues, this`consumers, this`history
      ensures Valid() && SettledAs(old(Abs()), Abs(), c, SettledState(reason)) && (total == 0 ==> Abs() == old(Abs()))
      ensures c in consumers && consumers[c].session.list == WithoutTags(old(consumers)[c].session.list, tags)
      ensures total == |old(consumers)[c].session.list| - |consumers[c].session.list|
    {
      hide ShardOk, SettledAs, AllAcked, HasTag, Recorded, WithoutTags, Settle, Traced, LedgerTells, SameFirsts;
      total := 0;
      EachStarts(Abs(), c, tags, SettledState(reason));
      for k := 0 to |tags|
        invariant Valid() && c in consumers && SettledAs(old(Abs()), Abs(), c, SettledState(reason))
        invariant total == 0 ==> Abs() == old(Abs())
        invariant consumers[c].session.list == WithoutTags(old(consumers)[c].session.list, tags[..k])
        invariant total == |old(consumers)[c].session.list| - |consumers[c].session.list|
      {
        ghost var before, earlier := Abs(), history;
        var r, ranges := SettleFor(c, tags[k], One, reason, false);
        EachStep(old(Abs()), before, Abs(), c, tags, k, r.Success?, SettledState(reason));
        if durable { NackKept(log, before, Abs(), c, SettledState(reason), earlier, history); }
        if r.Success? { total := total + r.value; }
      }
      assert tags[..|tags|] == tags;
    }

    /** `exec_ack_command`. A range settles everything up to its end, whatever its start; a mask
        settles `base`, `base + 1`, ... one for each set bit, whichever bits they are. */
    method ExecAckCommand(c: nat, cmd: AckCommand) returns (n: nat, error: Option<CommandError>)
      requires Valid()
      modifies this
      ensures Valid()
      ensures c !in old(consumers) ==> error == Some(ConsumerNotFound(c))
      ensures c in old(consumers) ==> SettledAs(old(Abs()), Abs(), c, Acked) && c in consumers
      ensures c in old(consumers) ==> consumers[c].session.list == AfterAck(old(consumers)[c].session.list, cmd)
      ensures c in old(consumers) ==> var s := old(consumers)[c].session; match cmd
        case AckTag(tag, mode) => Answered(s, consumers[c].session, tag, mode, c, error)
        case AckRangeTo(_, end) => Answered(s, consumers[c].session, end, Multiple, c, error)
        case AckMaskOf(base, mask) =>
          error == None && consumers[c].session.list == WithoutTags(s.list, Span(base, PopCount(mask)))
      ensures (n == 0 ==> Abs() == old(Abs())) && (error.Some? ==> n == 0)
      ensures c in old(consumers) ==> n == |old(consumers)[c].session.list| - |consumers[c].session.list|
      ensures c !in old(consumers) ==> log == old(log)
      ensures c in old(consumers) ==> var s := old(consumers)[c].session;
        Ledgered(durable, old(log), log, old(consumers)[c].queueId, s.list, consumers[c].session.list,
          RedeliveredFor(old(Abs()), c))
    {
      hide ShardOk, SettledAs, HasTag, Recorded, WithoutTags, Settle, PopCount, Span, Ledgered, AfterSettle, Traced,
        LedgerTells;
      n := 0;
      if c !in consumers {
        return 0, Some(ConsumerNotFound(c));
      }
      if cmd.AckMaskOf? {
        n := AckEach(c, Span(cmd.base, PopCount(cmd.mask)));
        error := None;
      } else {
        var tag, mode := if cmd.AckTag? then cmd.tag else cmd.end, if cmd.AckTag? then cmd.mode else Multiple;
        var r := AckOne(c, tag, mode);
        if r.Success? { n := r.value; }
        error := if r.Success? then None else Some(SettlementRefused(c, r.error));
      }
    }

    /** `exec_nack_command`. Here a mask means `base` plus each set bit. */
    method ExecNackCommand(c: nat, cmd: NackCommand) returns (n: nat, error: Option<CommandError>)
      requires Valid()
      modifies this`queues, this`consumers, this`history
      ensures Valid()
      ensures c !in old(consumers) ==> error == Some(ConsumerNotFound(c))
      ensures c in old(consumers) ==> SettledAs(old(Abs()), Abs(), c, SettledState(cmd.reason)) && c in consumers
      ensures c in old(consumers) ==> consumers[c].session.list == AfterNack(old(consumers)[c].session.list, cmd)
      ensures c in old(consumers) ==> var s := old(consumers)[c].session; match cmd
        case NackTag(tag, mode, _) => Refused(s, consumers[c].session, tag, mode, c, error)
        case NackRangeTo(_, end, _) => Refused(s, consumers[c].session, end, Multiple, c, error)
        case NackMaskOf(base, mask, _) =>
          error == None && consumers[c].session.list == WithoutTags(s.list, MaskTags(base, mask))
      ensures (n == 0 ==> Abs() == old(Abs())) && (error.Some? ==> n == 0)
      ensures c in old(consumers) ==> n == |old(consumers)[c].session.list| - |consumers[c].session.list|
    {
      hide ShardOk, SettledAs, AllAcked, HasTag, Recorded, WithoutTags, Settle, MaskTags, Traced, LedgerTells,
        SameFirsts;
      n := 0;
      if c !in consumers {
        return 0, Some(ConsumerNotFound(c));
      }
      if cmd.NackMaskOf? {
        n := NackEach(c, MaskTags(cmd.base, cmd.mask), cmd.reason);
        error := None;
      } else {
        var tag, mode := if cmd.NackTag? then cmd.tag else cmd.end, if cmd.NackTag? then cmd.mode else Multiple;
        ghost var before := Abs();
        var r, ranges := SettleFor(c, tag, mode, cmd.reason, false);
        SettledList(before, Abs(), c, tag, mode, r.Success?);
        if durable { NackKept(log, before, Abs(), c, SettledState(cmd.reason), old(history), history); }
        if r.Success? { n := r.value; }
        error := if r.Success? then None else Some(SettlementRefused(c, InvalidDeliveryTag));
      }
    }

    /** `exec_ack_batch`: once something is settled, the freed credit is used at once. */
    method ExecAckBatch(c: nat, cmds: seq<AckCommand>)
      returns (settled: nat, errors: seq<CommandError>, ghost mid: Shard)
      requires Valid() && AllQuiet(Abs())
      modifies this
      ensures Valid() && AllQuiet(Abs()) && errors == AckErrors(old(Abs()), c, cmds)
      ensures c !in old(consumers) ==> settled == 0
      ensures settled == 0 ==> Abs() == mid == old(Abs())
      ensures c in old(consumers) ==> SettledAs(old(Abs()), mid, c, Acked)
      ensures settled > 0 ==> ServedOn(mid, Abs(), mid.consumers[c].queueId)
      ensures c in old(consumers) ==>
        mid.consumers[c].session.list == AfterAcks(old(consumers)[c].session.list, cmds)
      ensures c in old(consumers) ==>
        settled == |old(consumers)[c].session.list| - |mid.consumers[c].session.list|
      ensures c !in old(consumers) ==> log == old(log)
      ensures c in old(consumers) ==> var s := old(consumers)[c].session;
        Ledgered(durable, old(log), log, old(consumers)[c].queueId, s.list, mid.consumers[c].session.list,
          RedeliveredFor(old(Abs()), c))
    {
      hide Ledgered, ShardOk, SettledAs, AfterAck, Recorded, AllQuiet, OnlyQueue, Extended, Dealt, QuietExcept;
      hide WithoutTags, Settle, PopCount, Span, Traced, LedgerTells;
      settled, errors := 0, [];
      ghost var q, red := if c in consumers then consumers[c].queueId else 0, RedeliveredFor(Abs(), c);
      if c in consumers {
        SettledAsNothing(Abs(), c, Acked);
        LedgeredNothing(durable, log, q, consumers[c].session.list, red);
      }
      for k := 0 to |cmds|
        invariant Valid() && (c !in old(consumers) ==> settled == 0) && errors == AckErrors(old(Abs()), c, cmds[..k])
        invariant c in old(consumers) ==> c in consumers && SettledAs(old(Abs()), Abs(), c, Acked)
        invariant c in old(consumers) ==>
          consumers[c].session.list == AfterAcks(old(consumers)[c].session.list, cmds[..k])
        invariant settled == 0 ==> Abs() == old(Abs())
        invariant c in old(consumers) ==> settled == |old(consumers)[c].session.list| - |consumers[c].session.list|
        invariant c !in old(consumers) ==> log == old(log)
        invariant c in old(consumers) ==>
          Ledgered(durable, old(log), log, q, old(consumers)[c].session.list, consumers[c].session.list, red)
      {
        ghost var before, logged := Abs(), log;
        if c in old(consumers) { SameQueueFor(old(Abs()), before, c, Acked); }
        assert cmds[..k + 1][..k] == cmds[..k];
        if c in old(consumers) { AckRefusedAt(old(Abs()), before, c, cmds, k); }
        var n, error := ExecAckCommand(c, cmds[k]);
        if c in old(consumers) {
          SettledAsTwice(old(Abs()), before, Abs(), c, Acked);
          KeptFrom(old(Abs()), before, c, Acked);
          KeptFrom(before, Abs(), c, Acked);
          LedgeredTwice(durable, old(log), logged, log, q, old(consumers)[c].session.list,
            before.consumers[c].session.list, consumers[c].session.list, red);
        }
        if error.Some? { errors := errors + [error.value]; } else { settled := settled + n; }
      }
      assert cmds[..|cmds|] == cmds;
      mid := Abs();
      if settled > 0 {
        SettledAsMeans(old(Abs()), Abs(), c, Acked);
        QuietAfterSettling(old(Abs()), Abs(), c);
        Drive(consumers[c].queueId);
      }
    }

    /** `exec_nack_batch`: once something is settled, all retries of the queue become ready again
        and are delivered. */
    method ExecNackBatch(c: nat, cmds: seq<NackCommand>)
      returns (settled: nat, errors: seq<CommandError>, ghost mid: Shard)
      requires Valid() && AllQuiet(Abs())
      modifies this`queues, this`consumers, this`history
      ensures Valid() && AllQuiet(Abs()) && errors == NackErrors(old(Abs()), c, cmds)
      ensures c !in old(consumers) ==> settled == 0
      ensures settled == 0 ==> Abs() == mid == old(Abs())
      ensures c in old(consumers) ==> NackedBy(old(Abs()), mid, c, cmds)
      ensures c in old(consumers) ==>
        settled == |old(consumers)[c].session.list| - |mid.consumers[c].session.list|
      ensures settled > 0 ==> var q := mid.consumers[c].queueId;
        q in mid.queues && ServedOn(RetriedOn(mid, q), Abs(), q)
    {
      hide ShardOk, NackedBy, SettledAs, AfterNack, Recorded, AllQuiet, OnlyQueue, Extended, Dealt, QuietExcept;
      hide WithoutTags, Settle, MaskTags, RetryAllNow, Traced, LedgerTells;
      settled, errors := 0, [];
      if c in consumers { NackedNothing(Abs(), c); }
      assert cmds[..0] == [];
      for k := 0 to |cmds|
        invariant Valid() && (c !in old(consumers) ==> settled == 0) && errors == NackErrors(old(Abs()), c, cmds[..k])
        invariant c in old(consumers) ==> c in consumers && NackedBy(old(Abs()), Abs(), c, cmds[..k])
        invariant settled == 0 ==> Abs() == old(Abs())
        invariant c in old(consumers) ==> settled == |old(consumers)[c].session.list| - |consumers[c].session.list|
      {
        ghost var before := Abs();
        assert cmds[..k + 1][..k] == cmds[..k];
        if c in old(consumers) { NackRefusedAt(old(Abs()), before, c, cmds, k); }
        var n, error := ExecNackCommand(c, cmds[k]);
        if c in old(consumers) { NackedStep(old(Abs()), before, Abs(), c, cmds, k); }
        if error.Some? { errors := errors + [error.value]; } else { settled := settled + n; }
      }
      assert cmds[..|cmds|] == cmds;
      mid := Abs();
      if settled > 0 {
        NackedMeans(old(Abs()), Abs(), c, cmds);
        QuietAfterSettling(old(Abs()), Abs(), c);
        Opened(Abs(), c);
        var q := consumers[c].queueId;
        if q in queues { Retry(q); }
        Drive(q);
      }
    }

    /** Make one queue's retries ready again. */
    method Retry(q: nat)
      requires Valid() && q in queues && QuietExcept(Abs(), q)
      modifies this`queues, this`history
      ensures Valid() && Abs() == RetriedOn(old(Abs()), q) && QuietExcept(Abs(), q)
    {
      hide ShardOk, Recorded, OnlyQueue, QuietExcept, RetryAllNow, Traced, LedgerTells, SameFirsts;
      QueueOnlyOk(Abs(), q, RetryStep);
      RetryRequest(Abs(), history, q);
      if durable { RetryKept(log, Abs(), history, q); }
      queues := queues[q := queues[q].(queue := RetryAllNow(queues[q].queue))];
      history := Asked(history, q, RetryOp);
    }

    /** `exec_reject_batch`: like a batch of single negative acknowledgements, but errors are
        dropped and requeued messages are left waiting. */
    method ExecRejectBatch(c: nat, tags: seq<(nat, NackReason)>) returns (settled: nat, ghost mid: Shard)
      requires Valid() && AllQuiet(Abs())
      modifies this`queues, this`consumers, this`history
      ensures Valid() && AllQuiet(Abs())
      ensures c !in old(consumers) ==> settled == 0
      ensures settled == 0 ==> Abs() == mid == old(Abs())
      ensures c in old(consumers) ==> NackedBy(old(Abs()), mid, c, AsNacks(tags))
      ensures settled > 0 ==> ServedOn(mid, Abs(), mid.consumers[c].queueId)
      ensures c in old(consumers) ==>
        mid.consumers[c].session.list == WithoutTags(old(consumers)[c].session.list, RejectedTags(tags))
      ensures c in old(consumers) ==>
        settled == |old(consumers)[c].session.list| - |mid.consumers[c].session.list|
    {
      hide ShardOk, NackedBy, SettledAs, WithoutTags, RejectedTags, Recorded, AllQuiet, OnlyQueue, Extended, Dealt;
      hide QuietExcept, Settle, AllAcked, HasTag, Traced, LedgerTells, SameFirsts;
      settled := 0;
      ghost var cmds := AsNacks(tags);
      if c in consumers { NackedNothing(Abs(), c); }
      assert cmds[..0] == [];
      for k := 0 to |tags|
        invariant Valid() && (c !in old(consumers) ==> settled == 0)
        invariant c in old(consumers) ==> c in consumers && NackedBy(old(Abs()), Abs(), c, cmds[..k])
        invariant settled == 0 ==> Abs() == old(Abs())
        invariant c in old(consumers) ==> settled == |old(consumers)[c].session.list| - |consumers[c].session.list|
      {
        if c !in old(consumers) { assert c !in consumers; }
        if c in consumers {
          ghost var before, earlier := Abs(), history;
          var r, ranges := SettleFor(c, tags[k].0, One, tags[k].1, false);
          SettledList(before, Abs(), c, tags[k].0, One, r.Success?);
          NackedStep(old(Abs()), before, Abs(), c, cmds, k);
          if durable { NackKept(log, before, Abs(), c, SettledState(tags[k].1), earlier, history); }
          if r.Success? { settled := settled + r.value; }
        }
      }
      assert cmds[..|tags|] == cmds;
      mid := Abs();
      if c in consumers { RejectedAll(old(Abs()), Abs(), c, tags); }
      if settled > 0 {
        QuietAfterSettling(old(Abs()), Abs(), c);
        Drive(consumers[c].queueId);
      }
    }

    /** `exec_cancel`: the consumer leaves both registries; what it held is requeued or dropped. */
    method ExecCancel(c: nat, cmd: CancelCommand)
      returns (error: Option<CommandError>, ghost mid: Shard, ghost order: seq<nat>)
      requires Valid() && AllQuiet(Abs())
      modifies this`queues, this`consumers, this`history
      ensures Valid() && AllQuiet(Abs())
      ensures c !in old(consumers) ==> error == Some(ConsumerNotFound(c)) && Abs() == old(Abs())
      ensures c in old(consumers) ==> error == None && c !in consumers && consumers.Keys == old(consumers).Keys - {c}
      ensures c in old(consumers) ==> multiset(order) == multiset(Messages(old(consumers)[c].session.list))
      ensures c in old(consumers) ==>
        order == SettleOrder(Messages(old(consumers)[c].session.list), RedeliveredFor(old(Abs()), c))
      ensures c in old(consumers) ==> var q := old(consumers)[c].queueId;
        && q in old(queues) && mid == Removed(old(Abs()), c,
          Disposed(old(queues)[q].queue, order, if cmd == CancelRequeue then Requeue else NackReason.Reject))
        && if cmd == CancelRequeue then ServedOn(mid, Abs(), q) else Abs() == mid
      ensures forall q :: q in old(queues) ==>
        q in queues && queues[q].consumers == WithoutId(old(queues)[q].consumers, c)
    {
      hide ShardOk, Recorded, AllQuiet, OnlyQueue, Extended, Dealt, QuietExcept, Disposed, Messages;
      hide WithoutId, ReadyCount, SettleOrder, Pick, RangesSeqs, Traced, LedgerTells, SameFirsts;
      UnlistedStays(Abs(), c);
      mid, order := Abs(), [];
      if c !in consumers {
        return Some(ConsumerNotFound(c)), mid, order;
      }
      Opened(Abs(), c);
      var q := consumers[c].queueId;
      var d := if cmd == CancelRequeue then RequeueUnacked else DropUnacked;
      var settled, ranges := SettlementOrder(queues[q].queue, Messages(consumers[c].session.list));
      order := settled;
      SettleOrderComplete(Messages(consumers[c].session.list), queues[q].queue.redelivered);
      CancelOk(Abs(), c, d, settled);
      var queue := Disposed(queues[q].queue, settled, CancelReason(d));
      CancelRequest(Abs(), history, c, d);
      if durable {
        CancelRecorded(log, Abs(), c, queue);
        StillTells(log, history, Left(history, q, c, d));
      }
      history := Left(history, q, c, d);
      QuietWithout(Abs(), c, queue);
      var list := WithoutId(queues[q].consumers, c);
      queues := queues[q := QueueState(queue, list, if queues[q].nextIndex >= |list| then 0 else queues[q].nextIndex)];
      consumers := consumers - {c};
      mid := Abs();
      error := None;
      if cmd == CancelRequeue {
        QuietMeans(Abs(), q);
        Drive(q);
        SameRegistries(mid, Abs(), q);
      }
    }

    /** `retry_all_and_deliver`: every queue's retries become ready again and are delivered as far as
        credit goes; nothing is left waiting for a retry. */
    method RetryAllAndDeliver() returns (ghost mid: Shard)
      requires Valid()
      modifies this`queues, this`consumers, this`history
      ensures Valid() && AllQuiet(Abs()) && queues.Keys == old(queues).Keys
      ensures RetriedAll(old(Abs()), mid) && Extended(mid, Abs()) && AllDealt(mid, Abs())
      ensures NoneWaits(old(Abs()), Abs())
    {
      hide ShardOk, Recorded, AllQuiet, OnlyQueue, Extended, Dealt, RetryAllNow, Traced, LedgerTells, SameFirsts;
      var pending := queues.Keys;
      ghost var done := {};
      RetriedNone(Abs());
      while pending != {}
        invariant Valid() && queues.Keys == old(queues).Keys == pending + done && pending !! done
        invariant RetriedAmong(old(Abs()), Abs(), done)
        decreases pending
      {
        var q :| q in pending;
        pending := pending - {q};
        QueueOnlyOk(Abs(), q, RetryStep);
        RetryRequest(Abs(), history, q);
        if durable { RetryKept(log, Abs(), history, q); }
        queues := queues[q := queues[q].(queue := RetryAllNow(queues[q].queue))];
        history := Asked(history, q, RetryOp);
        done := done + {q};
      }
      mid := Abs();
      DeliverPending();
      RetriedIsSettled(old(Abs()), mid, Abs());
    }

    ghost function Now(): (now: Snapshot)
      reads this
    {
      Snapshot(Abs(), log)
    }

    /** `execute`: one batch of commands of one kind. The trail shows the shard after each command, and
        each command did what it should. */
    method Execute(batch: CommandBatch) returns (errors: seq<CommandError>, ghost trail: seq<Snapshot>)
      requires Valid() && AllQuiet(Abs()) && BatchOk(batch)
      modifies this
      ensures Valid() && AllQuiet(Abs())
      ensures Led(durable, Items(batch), old(Now()), Now(), trail, errors)
    {
      hide ShardOk, Recorded, AllQuiet, Traced, LedgerTells, Done, LedTo, Items;
      ghost var items := Items(batch);
      errors, trail := [], [Now()];
      LedStarts(durable, items, Now());
      OneItem(batch);
      match batch {
        case DeclareBatch(ids) =>
          for k := 0 to |ids|
            invariant Valid() && AllQuiet(Abs()) && LedTo(durable, items, old(Now()), Now(), trail, errors, k)
          {
            ghost var before := Now();
            var e := ExecuteDeclare(ids[k]);
            LedNext(durable, items, old(Now()), before, Now(), trail, errors, e, k);
            errors, trail := errors + e, trail + [Now()];
          }
        case ConsumeBatch(starts) =>
          for k := 0 to |starts|
            invariant Valid() && AllQuiet(Abs()) && LedTo(durable, items, old(Now()), Now(), trail, errors, k)
          {
            ghost var before := Now();
            var e := ExecuteConsume(starts[k]);
            LedNext(durable, items, old(Now()), before, Now(), trail, errors, e, k);
            errors, trail := errors + e, trail + [Now()];
          }
        case CreditBatch(ids) =>
          for k := 0 to |ids|
            invariant Valid() && AllQuiet(Abs()) && LedTo(durable, items, old(Now()), Now(), trail, errors, k)
          {
            ghost var before := Now();
            var e := ExecuteCredit(ids[k]);
            LedNext(durable, items, old(Now()), before, Now(), trail, errors, e, k);
            errors, trail := errors + e, trail + [Now()];
          }
        case CancelBatch(cancels) =>
          for k := 0 to |cancels|
            invariant Valid() && AllQuiet(Abs()) && LedTo(durable, items, old(Now()), Now(), trail, errors, k)
          {
            ghost var before := Now();
            var e := ExecuteCancel(cancels[k]);
            LedNext(durable, items, old(Now()), before, Now(), trail, errors, e, k);
            errors, trail := errors + e, trail + [Now()];
          }
        case _ =>
          var e := ExecuteWhole(batch);
          LedNext(durable, items, old(Now()), old(Now()), Now(), trail, errors, e, 0);
          errors, trail := errors + e, trail + [Now()];
      }
    }

    method ExecuteDeclare(q: nat) returns (errors: seq<CommandError>)
      requires Valid() && AllQuiet(Abs())
      modifies this
      ensures Valid() && AllQuiet(Abs()) && Done(durable, DeclareBatch([q]), old(Now()), Now(), errors)
    {
      hide ShardOk, Recorded, AllQuiet, Traced, LedgerTells;
      var e := ExecDeclareQueue(q);
      errors := if e.Some? then [e.value] else [];
    }

    method ExecuteConsume(start: ConsumeStart) returns (errors: seq<CommandError>)
      requires Valid() && AllQuiet(Abs()) && start.prefetch <= U32_MAX
      modifies this
      ensures Valid() && AllQuiet(Abs()) && Done(durable, ConsumeBatch([start]), old(Now()), Now(), errors)
    {
      hide ShardOk, Recorded, AllQuiet, Traced, LedgerTells, OnlyQueue, Extended, Dealt;
      ghost var mid;
      var e;
      e, mid := ExecConsumeStart(start.queueId, start.consumerId, start.prefetch);
      errors := if e.Some? then [e.value] else [];
    }

    method ExecuteCredit(c: nat) returns (errors: seq<CommandError>)
      requires Valid() && AllQuiet(Abs())
      modifies this
      ensures Valid() && AllQuiet(Abs()) && Done(durable, CreditBatch([c]), old(Now()), Now(), errors)
    {
      hide ShardOk, Recorded, AllQuiet, Traced, LedgerTells, OnlyQueue, Extended, Dealt;
      var e := ExecCreditUpdate(c);
      errors := if e.Some? then [e.value] else [];
    }

    method ExecuteCancel(cancel: (nat, CancelCommand)) returns (errors: seq<CommandError>)
      requires Valid() && AllQuiet(Abs())
      modifies this
      ensures Valid() && AllQuiet(Abs()) && Done(durable, CancelBatch([cancel]), old(Now()), Now(), errors)
    {
      hide ShardOk, Recorded, AllQuiet, Traced, LedgerTells, OnlyQueue, Extended, Dealt, SettleOrder, Messages;
      hide Disposed, WithoutId;
      ghost var mid, order;
      var e;
      e, mid, order := ExecCancel(cancel.0, cancel.1);
      errors := if e.Some? then [e.value] else [];
    }

    /** The batches that are handled as a whole. */
    method ExecuteWhole(batch: CommandBatch) returns (errors: seq<CommandError>)
      requires Valid() && AllQuiet(Abs())
      requires batch.PublishBatch? || batch.AckBatch? || batch.NackBatch? || batch.RejectBatch?
      modifies this
      ensures Valid() && AllQuiet(Abs()) && Done(durable, batch, old(Now()), Now(), errors)
    {
      hide ShardOk, Recorded, AllQuiet, Traced, LedgerTells, OnlyQueue, Extended, Dealt, SettledAs, NackedBy, Ledgered;
      hide AfterAcks, WithoutTags, AckErrors, NackErrors;
      ghost var mid;
      var n;
      match batch {
        case PublishBatch(q, payloads) =>
          var e;
          e, mid := ExecPublish(q, payloads);
          errors := if e.Some? then [e.value] else [];
        case AckBatch(c, cmds) =>
          n, errors, mid := ExecAckBatch(c, cmds);
          if c in old(consumers) {
            SettledAsMeans(old(Abs()), mid, c, Acked);
            assert AckedVia(durable, old(Now()), Now(), c, cmds, mid);
          }
        case NackBatch(c, cmds) =>
          n, errors, mid := ExecNackBatch(c, cmds);
          if c in old(consumers) {
            NackedMeans(old(Abs()), mid, c, cmds);
            assert NackedVia(old(Now()), Now(), c, cmds, true, mid);
          }
        case RejectBatch(c, tags) =>
          n, mid := ExecRejectBatch(c, tags);
          errors := [];
          if c in old(consumers) {
            NackedMeans(old(Abs()), mid, c, AsNacks(tags));
            assert NackedVia(old(Now()), Now(), c, AsNacks(tags), false, mid);
          }
      }
    }

    /** Any run: each command of each batch did what it should, and after it no ready message waits while
        an attached consumer has credit. */
    method ExecuteAll(batches: seq<CommandBatch>) returns (errors: seq<CommandError>, ghost trail: seq<Snapshot>)
      requires Valid() && AllQuiet(Abs()) && forall k :: 0 <= k < |batches| ==> BatchOk(batches[k])
      modifies this
      ensures Valid() && AllQuiet(Abs())
      ensures Led(durable, AllItems(batches), old(Now()), Now(), trail, errors)
    {
      hide ShardOk, Recorded, AllQuiet, Traced, LedgerTells, LedTo, Items;
      errors, trail := [], [Now()];
      LedStarts(durable, [], Now());
      assert batches[..0] == [];
      for k := 0 to |batches|
        invariant Valid() && AllQuiet(Abs())
        invariant Led(durable, AllItems(batches[..k]), old(Now()), Now(), trail, errors)
      {
        ghost var before := Now();
        ghost var more;
        var e;
        e, more := Execute(batches[k]);
        assert batches[..k + 1][..k] == batches[..k];
        LedTwice(durable, AllItems(batches[..k]), Items(batches[k]), old(Now()), before, Now(), trail, more, errors, e);
        errors, trail := errors + e, trail + more[1..];
      }
      assert batches[..|batches|] == batches;
    }

    /** `deliver_pending`: drive every queue, in any order. */
    method DeliverPending()
      requires Valid()
      modifies this`queues, this`consumers, this`history
      ensures Valid() && AllQuiet(Abs()) && Extended(old(Abs()), Abs()) && queues.Keys == old(queues).Keys
      ensures AllDealt(old(Abs()), Abs())
    {
      hide ShardOk, Recorded, AllQuiet, OnlyQueue, Extended, Traced, LedgerTells, SameFirsts, Dealt, SameAround;
      var pending := queues.Keys;
      ghost var driven := {};
      Unchanged(Abs(), 0);
      DealtAmongNone(Abs());
      while pending != {}
        invariant Valid() && queues.Keys == old(queues).Keys == pending + driven && Extended(old(Abs()), Abs())
        invariant pending !! driven
        invariant QuietAmong(Abs(), driven) && DealtAmong(old(Abs()), Abs(), driven)
        decreases pending
      {
        var q :| q in pending;
        pending := pending - {q};
        ghost var before, earlier := Abs(), history;
        var passes := DriveQueue(q);
        AmongStep(before, Abs(), driven, q);
        DealtAmongStep(old(Abs()), before, Abs(), driven, q);
        ExtendedTwice(old(Abs()), before, Abs());
        if durable { WorkKept(log, before, Abs(), q, earlier, history); }
        driven := driven + {q};
      }
      AllAmong(Abs(), driven);
      AllDealtAmong(old(Abs()), Abs(), driven);
    }

    /** Serve one queue when all others are quiet. */
    method Drive(q: nat)
      requires Valid() && QuietExcept(Abs(), q)
      modifies this`queues, this`consumers, this`history
      ensures Valid() && AllQuiet(Abs()) && ServedOn(old(Abs()), Abs(), q)
    {
      hide ShardOk, Recorded, AllQuiet, OnlyQueue, Extended, QuietExcept, Traced, LedgerTells, SameFirsts, Dealt;
      ghost var before := Abs();
      var passes := DriveQueue(q);
      DriveDone(before, Abs(), q);
      if durable { WorkKept(log, before, Abs(), q, old(history), history); }
    }

    /** `deliver_consumer`: serve one consumer until it has no credit or its queue nothing ready. */
    method DeliverConsumer(c: nat) returns (total: nat)
      requires Sound()
      modifies this`queues, this`consumers, this`history
      ensures Sound() && SameFirsts(old(history), history)
      ensures c !in old(consumers) ==> total == 0 && Abs() == old(Abs())
      ensures c in old(consumers) ==> var q := old(consumers)[c].queueId;
        && q in old(queues) && Drained(old(Abs()), Abs(), c, total) && Served(Abs(), c, q)
        && (old(Served(Abs(), c, q)) ==> total == 0)
      ensures Abs() == DealtOne(old(Abs()), c)
    {
      hide ShardOk, OnlyQueue, ReadyCount, Handed, DeliverQueue, Receive, Traced, SameFirsts, HandedOn;
      total := 0;
      NoneMore(history);
      if c !in consumers {
        return;
      }
      Opened(Abs(), c);
      QueueOf(Abs(), c);
      HandedNothing(Abs(), c);
      var q := consumers[c].queueId;
      while true
        invariant Sound() && SameFirsts(old(history), history)
        invariant c in consumers && consumers[c].queueId == q && q in queues
        invariant Drained(old(Abs()), Abs(), c, total) && Abs() == HandedOn(old(Abs()), c, total)
        invariant old(Served(Abs(), c, q)) ==> total == 0
        decreases ReadyCount(queues[q].queue)
      {
        DeliverPutOk(Abs(), c, DELIVER_BATCH);
        Opened(Abs(), c);
        var queue, session := queues[q].queue, consumers[c].session;
        var msgs := Handed(queue, session, DELIVER_BATCH);
        if |msgs| == 0 {
          break;
        }
        DrainedOnce(old(Abs()), Abs(), c, total, DELIVER_BATCH);
        HandedMore(old(Abs()), Abs(), c, total, DELIVER_BATCH);
        DeliverRequest(Abs(), history, c, DELIVER_BATCH);
        AskedMore(old(history), history, q, DeliverOp(history.seats[c], DELIVER_BATCH));
        history := Asked(history, q, DeliverOp(history.seats[c], DELIVER_BATCH));
        queues := queues[q := queues[q].(queue := DeliverQueue(queue, session, DELIVER_BATCH))];
        consumers := consumers[c := Consumer(q, Receive(session, msgs))];
        total := total + |msgs|;
      }
      OwnsOf(Abs(), c);
      HandedAll(old(Abs()), Abs(), c, total);
    }

    /** One round-robin pass over a queue's consumers leaves the queue quiet. */
    method Pass(q: nat, ids: seq<nat>, start: nat) returns (delivered: nat)
      requires Sound() && q in queues && ids == queues[q].consumers && |ids| > 0
      modifies this`queues, this`consumers, this`history
      ensures Sound() && SameFirsts(old(history), history)
      ensures Passed(old(Abs()), Abs(), q, delivered) && q in queues && Quiet(Abs(), q)
      ensures Abs() == DealtRound(old(Abs()), ids, start, |ids|)
    {
      hide ShardOk, OnlyQueue, ReadyCount, Passed, Drained, Quiet, VisitedServed, Traced, SameFirsts, DealtOne;
      delivered := 0;
      NoneMore(history);
      PassStarts(Abs(), q, start);
      for i := 0 to |ids|
        invariant Sound() && SameFirsts(old(history), history)
        invariant q in queues && ids == queues[q].consumers && Passed(old(Abs()), Abs(), q, delivered)
        invariant VisitedServed(Abs(), q, ids, start, i) && Abs() == DealtRound(old(Abs()), ids, start, i)
      {
        var c := Turn(ids, start, i);
        Member(Abs(), q, c);
        ghost var b, earlier := Abs(), history;
        var n := DeliverConsumer(c);
        SameFirstsTwice(old(history), earlier, history);
        SameLists(b, Abs(), c, n);
        PassStep(old(Abs()), b, Abs(), q, delivered, c, n);
        VisitStep(b, Abs(), q, ids, start, i, n);
        delivered := delivered + n;
      }
      AllVisited(Abs(), q, start);
    }

    /** `drive_queue`: serve the consumers in turn until a pass delivers nothing. One pass is
        always enough, so the cap on passes never cuts the work short. */
    method DriveQueue(q: nat) returns (passes: nat)
      requires Sound()
      modifies this`queues, this`consumers, this`history
      ensures Sound() && SameFirsts(old(history), history)
      ensures ServedOn(old(Abs()), Abs(), q)
      ensures q in queues ==> Quiet(Abs(), q)
      ensures passes <= 1 < MAX_DELIVERY_PASSES
      ensures q in old(queues) ==> q in queues && queues[q].nextIndex == Rotated(old(queues)[q], passes)
    {
      hide ShardOk, OnlyQueue, ReadyCount, Passed, Drained, Quiet, Extended, Traced, SameFirsts, Dealt, DealtRound;
      passes := 0;
      NoneMore(history);
      Unchanged(Abs(), q);
      if q !in queues {
        NobodyDealt(Abs(), q);
        return;
      }
      var ids := queues[q].consumers;
      if ids == [] {
        NobodyDealt(Abs(), q);
        NobodyWaits(Abs(), q);
        return;
      }
      while true
        invariant Sound() && SameFirsts(old(history), history)
        invariant OnlyQueue(old(Abs()), Abs(), q) && Extended(old(Abs()), Abs()) && q in queues
        invariant ids == queues[q].consumers
        invariant passes <= 1 && (passes == 1 ==> Quiet(Abs(), q))
        invariant if passes == 0 then Abs() == old(Abs()) else RoundDone(old(Abs()), Abs(), q)
        invariant queues[q].nextIndex == Rotated(old(queues)[q], passes)
        decreases MAX_DELIVERY_PASSES - passes
      {
        if passes >= MAX_DELIVERY_PASSES {
          break;
        }
        var start := queues[q].nextIndex;
        ghost var before, earlier := Abs(), history;
        var delivered := Pass(q, ids, start);
        SameFirstsTwice(old(history), earlier, history);
        PassedMeans(old(Abs()), before, Abs(), q, delivered);
        if delivered == 0 {
          break;
        }
        assert ReadyCount(queues[q].queue) < ReadyCount(before.queues[q].queue);
        TurnOk(Abs(), q, (start + 1) % |ids|);
        TurnTraced(Abs(), history, q, (start + 1) % |ids|);
        ghost var turned := Abs().(queues := queues[q := queues[q].(nextIndex := (start + 1) % |ids|)]);
        OnlyQueueTwice(old(Abs()), Abs(), turned, q);
        ExtendedSame(Abs(), turned);
        ExtendedTwice(old(Abs()), Abs(), turned);
        queues := queues[q := queues[q].(nextIndex := (start + 1) % |ids|)];
        passes := passes + 1;
      }
      DoneIsDealt(old(Abs()), Abs(), q);
    }
  }

  /** Part of a pass over the consumers of `q` made `delivered` deliveries and changed nothing else; on a
      quiet queue there are none. */
  ghost predicate Passed(a: Shard, b: Shard, q: nat, delivered: nat)
    requires q in a.queues
  {
    && OnlyQueue(a, b, q) && Extended(a, b) && b.queues[q].nextIndex == a.queues[q].nextIndex
    && ReadyCount(b.queues[q].queue) + delivered == ReadyCount(a.queues[q].queue)
    && (Quiet(a, q) ==> delivered == 0 && b == a)
    && (delivered == 0 ==> b == a)
  }

  /** Whose turn is next: each delivering pass moves the turn on by one. */
  function Rotated(state: QueueState, passes: nat): (index: nat) {
    if passes == 0 || state.consumers == [] then state.nextIndex else (state.nextIndex + 1) % |state.consumers|
  }

  ghost predicate VisitedServed(sh: Shard, q: nat, ids: seq<nat>, start: nat, n: nat)
    requires q in sh.queues && |ids| > 0
  {
    forall j: nat :: j < n ==> Turn(ids, start, j) in sh.consumers && Served(sh, Turn(ids, start, j), q)
  }

  /** One consumer of the pass. */
  lemma PassStep(a: Shard, b: Shard, d: Shard, q: nat, delivered: nat, c: nat, n: nat)
    requires q in a.queues && Passed(a, b, q, delivered) && c in b.consumers && b.consumers[c].queueId == q
    requires q in b.queues
    requires Drained(b, d, c, n) && (Served(b, c, q) ==> n == 0) && c in a.queues[q].consumers
    ensures Passed(a, d, q, delivered + n)
  {
    hide ReadyCount, SettledKept, Gained, OnlyServed;
    OnlyQueueTwice(a, b, d, q);
    DrainedExtends(b, d, c, n);
    ExtendedTwice(a, b, d);
  }

  lemma DrainedExtends(a: Shard, b: Shard, c: nat, n: nat)
    requires c in a.consumers && a.consumers[c].queueId in a.queues && Drained(a, b, c, n)
    ensures Extended(a, b)
  {
    hide ReadyCount, Gained, SettledKept;
    forall x | x in a.consumers && x != c ensures Gained(a.consumers[x].session, b.consumers[x].session) {
      NothingGained(a.consumers[x].session);
    }
  }

  lemma VisitStep(b: Shard, d: Shard, q: nat, ids: seq<nat>, start: nat, i: nat, n: nat)
    requires q in b.queues && q in d.queues && |ids| > 0 && VisitedServed(b, q, ids, start, i)
    requires var c := Turn(ids, start, i);
      c in b.consumers && b.consumers[c].queueId == q && c in d.consumers && Drained(b, d, c, n) && Served(d, c, q)
    ensures VisitedServed(d, q, ids, start, i + 1)
  {
    hide ReadyCount;
    var c := Turn(ids, start, i);
    forall j: nat | j < i + 1 ensures Turn(ids, start, j) in d.consumers && Served(d, Turn(ids, start, j), q) {
      assert Turn(ids, start, j) in b.consumers;
      if j < i { StaysServed(b, d, c, n, Turn(ids, start, j), q); }
    }
  }

  lemma AllVisited(sh: Shard, q: nat, start: nat)
    requires q in sh.queues && |sh.queues[q].consumers| > 0
    requires VisitedServed(sh, q, sh.queues[q].consumers, start, |sh.queues[q].consumers|)
    ensures Quiet(sh, q)
  {
    var ids := sh.queues[q].consumers;
    forall c | c in ids ensures c in sh.consumers && Served(sh, c, q) {
      var k :| 0 <= k < |ids| && ids[k] == c;
      var i := Visited(start, |ids|, k);
      assert Turn(ids, start, i) == c;
    }
  }

  lemma PassStarts(sh: Shard, q: nat, start: nat)
    requires q in sh.queues && |sh.queues[q].consumers| > 0
    ensures Passed(sh, sh, q, 0) && VisitedServed(sh, q, sh.queues[q].consumers, start, 0)
  {
    ExtendedSame(sh, sh);
  }

  lemma Member(sh: Shard, q: nat, c: nat)
    requires ShardOk(sh) && q in sh.queues && c in sh.queues[q].consumers
    ensures c in sh.consumers && sh.consumers[c].queueId == q
  {
    hide WorldOk;
    assert Attached(sh, c, q);
  }

  lemma SameLists(a: Shard, b: Shard, c: nat, n: nat)
    requires c in a.consumers && a.consumers[c].queueId in a.queues && Drained(a, b, c, n)
    ensures var q := a.consumers[c].queueId;
      q in b.queues && b.queues[q].consumers == a.queues[q].consumers && c in b.consumers
  {
  }

  lemma Unchanged(sh: Shard, q: nat)
    ensures OnlyQueue(sh, sh, q) && Extended(sh, sh)
  {
    ExtendedSame(sh, sh);
  }

  lemma NobodyWaits(sh: Shard, q: nat)
    requires q in sh.queues && sh.queues[q].consumers == []
    ensures Quiet(sh, q)
  {
  }

  lemma PassedMeans(a: Shard, b: Shard, d: Shard, q: nat, delivered: nat)
    requires OnlyQueue(a, b, q) && Extended(a, b) && q in b.queues && Passed(b, d, q, delivered)
    ensures OnlyQueue(a, d, q) && Extended(a, d) && q in d.queues && d.queues[q].consumers == b.queues[q].consumers
    ensures d.queues[q].nextIndex == b.queues[q].nextIndex && (Quiet(b, q) ==> delivered == 0)
    ensures (delivered == 0 ==> d == b) && ReadyCount(d.queues[q].queue) + delivered == ReadyCount(b.queues[q].queue)
  {
    OnlyQueueTwice(a, b, d, q);
    ExtendedTwice(a, b, d);
  }

  ghost predicate QuietAmong(sh: Shard, some: set<nat>) {
    forall q :: q in some ==> q in sh.queues && Quiet(sh, q)
  }

  lemma AmongStep(a: Shard, b: Shard, some: set<nat>, q: nat)
    requires ShardOk(a) && OnlyQueue(a, b, q) && QuietAmong(a, some) && (q in b.queues ==> Quiet(b, q)) && q in a.queues
    ensures QuietAmong(b, some + {q}) && a.queues.Keys == b.queues.Keys
  {
    hide WorldOk;
    forall x | x in some && x != q ensures Quiet(b, x) {
      assert Quiet(a, x);
      forall c | c in b.queues[x].consumers ensures c in b.consumers && Served(b, c, x) {
        assert Attached(a, c, x) && Served(a, c, x);
      }
    }
  }

  /** Exactly the queues in `some` were driven since. */
  ghost predicate DealtAmong(a: Shard, b: Shard, some: set<nat>) {
    && (forall q :: q in a.queues ==> q in b.queues && b.queues[q].consumers == a.queues[q].consumers)
    && (forall q :: q in a.queues ==> if q in some then Dealt(a, b, q) else SameAround(a, b, q))
  }

  lemma DealtAmongNone(sh: Shard)
    requires ShardOk(sh)
    ensures DealtAmong(sh, sh, {})
  {
    hide WorldOk, Dealt;
    forall q | q in sh.queues ensures SameAround(sh, sh, q) { Around(sh, q); }
  }

  lemma Around(sh: Shard, q: nat)
    requires ShardOk(sh) && q in sh.queues
    ensures SameAround(sh, sh, q)
    ensures forall c :: c in sh.queues[q].consumers ==> Attached(sh, c, q)
  {
    hide WorldOk;
    ListedExist(sh, q);
  }

  lemma DealtAmongStep(a: Shard, b: Shard, d: Shard, some: set<nat>, q: nat)
    requires ShardOk(a) && ShardOk(b) && DealtAmong(a, b, some) && q !in some && q in a.queues
    requires OnlyQueue(b, d, q) && Dealt(b, d, q)
    ensures DealtAmong(a, d, some + {q})
  {
    hide ShardOk, Dealt, SettledKept;
    forall x | x in a.queues ensures if x in some + {q} then Dealt(a, d, x) else SameAround(a, d, x) {
      Around(a, x);
      Around(b, x);
      if x == q {
        DealtAround(b, d, a, d, q);
      } else if x in some {
        DealtAround(a, b, a, d, x);
      }
    }
  }

  lemma AllDealtAmong(a: Shard, b: Shard, some: set<nat>)
    requires DealtAmong(a, b, some) && some == a.queues.Keys
    ensures AllDealt(a, b)
  {
    hide Dealt;
  }

  lemma AllAmong(sh: Shard, some: set<nat>)
    requires QuietAmong(sh, some) && some == sh.queues.Keys
    ensures AllQuiet(sh)
  {
  }

  lemma DriveDone(a: Shard, b: Shard, q: nat)
    requires ShardOk(a) && OnlyQueue(a, b, q) && QuietExcept(a, q) && (q in b.queues ==> Quiet(b, q))
    ensures AllQuiet(b)
  {
    hide WorldOk;
    OthersStayQuiet(a, b, q);
  }

  lemma QuietMeans(sh: Shard, q: nat)
    requires AllQuiet(sh)
    ensures QuietExcept(sh, q)
  {
  }

  lemma NotListed(sh: Shard, q: nat, c: nat)
    requires ShardOk(sh) && q in sh.queues && c !in sh.consumers
    ensures c !in sh.queues[q].consumers
  {
    hide WorldOk;
    ListedExist(sh, q);
  }

  lemma SubscribeRecorded(log: seq<StoreOp>, sh: Shard, q: nat, c: nat, prefetch: Prefetch)
    requires Recorded(log, sh) && q in sh.queues
    ensures Recorded(log, Subscribed(sh, q, c, prefetch))
  {
    StillRecorded(log, sh, Subscribed(sh, q, c, prefetch));
  }

  /** The consumer settled some of what it held: only its own session and queue changed. */
  ghost predicate SettledFor(a: Shard, b: Shard, c: nat) {
    && c in a.consumers && OnlyQueue(a, b, a.consumers[c].queueId)
    && (forall x :: x in a.consumers && x != c ==> b.consumers[x] == a.consumers[x])
  }

  // ---- Keeping the log truthful

  lemma DeclareTells(log: seq<StoreOp>, sh: Shard, h: History, q: nat)
    requires Traced(sh, h) && q !in sh.queues && LedgerTells(log, h)
    ensures LedgerTells(log, h.(traces := h.traces[q := []]))
  {
    hide AllElsewhere, AllOccupied, AllLined, AllSeated, LedgerTells, SameFirsts;
    DeclareFirsts(h, q);
    StillTells(log, h, h.(traces := h.traces[q := []]));
  }

  lemma PublishTells(log: seq<StoreOp>, op: StoreOp, h: History)
    requires LedgerTells(log, h) && op.AppendPublish?
    ensures LedgerTells(log + [op], h)
  {
    hide AckedIn, FirstAcked;
    forall q, i: nat ensures AckedIn(log + [op], q, i) <==> FirstAcked(h, q, i) { AckedAppend(log, op, q, i); }
  }

  lemma OpenRequest(sh: Shard, h: History, q: nat, c: nat, prefetch: Prefetch)
    requires Traced(sh, h) && q in sh.queues && c !in sh.consumers && (prefetch.Limited? ==> prefetch.limit <= U32_MAX)
    ensures q in h.traces && Traced(Subscribed(sh, q, c, prefetch), Joined(h, q, c, prefetch))
    ensures SameFirsts(h, Joined(h, q, c, prefetch))
  {
    hide AllElsewhere, AllOccupied, AllLined, AllSeated, SameFirsts, Joined;
    OpenTraced(sh, h, q, c, prefetch);
    JoinedFirsts(h, q, c, prefetch);
  }

  lemma CancelRequest(sh: Shard, h: History, c: nat, d: Disposition)
    requires ShardOk(sh) && Traced(sh, h) && c in sh.consumers
    ensures c in h.seats && sh.consumers[c].queueId in h.traces && sh.consumers[c].queueId in sh.queues
    ensures var q := sh.consumers[c].queueId;
      var order := SettleOrder(Messages(sh.consumers[c].session.list), sh.queues[q].queue.redelivered);
      && Traced(Removed(sh, c, Disposed(sh.queues[q].queue, order, CancelReason(d))), Left(h, q, c, d))
      && SameFirsts(h, Left(h, q, c, d))
  {
    hide WorldOk, Registered, Traced, SameFirsts, Left, Removed, Disposed, SettleOrder, Messages;
    CancelTraced(sh, h, c, d);
    LeftFirsts(h, sh.consumers[c].queueId, c, d);
  }

  /** What the ledger gained is what was acknowledged on its first delivery. */
  lemma TellsMore(before: seq<StoreOp>, after: seq<StoreOp>, a: History, b: History, q: nat, msgs: seq<nat>)
    requires LedgerTells(before, a) && LedgerGrew(before, after, q, msgs) && FirstsGrew(a, b, q, msgs)
    ensures LedgerTells(after, b)
  {
    hide AckedIn, FirstAcked;
  }

  lemma NackKept(log: seq<StoreOp>, a: Shard, b: Shard, c: nat, st: MsgState, h: History, g: History)
    requires SettledAs(a, b, c, st) && Recorded(log, a) && LedgerTells(log, h) && SameFirsts(h, g)
    ensures Recorded(log, b) && LedgerTells(log, g)
  {
    hide SettledAs, Recorded, LedgerTells, SameFirsts;
    SettledRecorded(log, a, b, c, st);
    StillTells(log, h, g);
  }

  lemma WorkKept(log: seq<StoreOp>, a: Shard, b: Shard, q: nat, h: History, g: History)
    requires Recorded(log, a) && OnlyQueue(a, b, q) && LedgerTells(log, h) && SameFirsts(h, g)
    ensures Recorded(log, b) && LedgerTells(log, g)
  {
    hide OnlyQueue, Recorded, LedgerTells, SameFirsts;
    WorkRecorded(log, a, b, q);
    StillTells(log, h, g);
  }

  lemma RetryKept(log: seq<StoreOp>, sh: Shard, h: History, q: nat)
    requires Recorded(log, sh) && LedgerTells(log, h) && q in sh.queues && q in h.traces
    ensures Recorded(log, RetriedOn(sh, q)) && LedgerTells(log, Asked(h, q, RetryOp))
  {
    hide OnlyQueue, Recorded, LedgerTells, SameFirsts, RetriedOn;
    RetriedOnly(sh, q);
    AskedFirsts(h, q, RetryOp);
    WorkKept(log, sh, RetriedOn(sh, q), q, h, Asked(h, q, RetryOp));
  }

  // ---- Retrying everything

  /** The queues in `done` have had their retries made ready; nothing else changed. */
  ghost predicate RetriedAmong(a: Shard, b: Shard, done: set<nat>) {
    && b.consumers == a.consumers && b.queues.Keys == a.queues.Keys && done <= a.queues.Keys
    && forall q :: q in a.queues ==>
      b.queues[q] == if q in done then a.queues[q].(queue := RetryAllNow(a.queues[q].queue)) else a.queues[q]
  }

  ghost predicate RetriedAll(a: Shard, b: Shard) {
    RetriedAmong(a, b, a.queues.Keys)
  }

  lemma RetriedNone(sh: Shard)
    ensures RetriedAmong(sh, sh, {})
  {
  }

  /** No message waits for a retry, and every message settled before still is. */
  ghost predicate NoneWaits(a: Shard, b: Shard) {
    forall q :: q in a.queues ==>
      q in b.queues && SettledKept(a.queues[q].queue, b.queues[q].queue) && NoRetry(b.queues[q].queue)
  }

  ghost predicate NoRetry(q: Queue) {
    forall i :: 0 <= i < |q.states| ==> q.states[i] != MsgState.Retry
  }

  lemma RetriedIsSettled(a: Shard, mid: Shard, b: Shard)
    requires RetriedAll(a, mid) && Extended(mid, b)
    ensures NoneWaits(a, b)
  {
    forall q | q in a.queues
      ensures q in b.queues && SettledKept(a.queues[q].queue, b.queues[q].queue) && NoRetry(b.queues[q].queue)
    {
      RetryLeavesNone(a.queues[q].queue, b.queues[q].queue);
    }
  }

  lemma RetryLeavesNone(a: Queue, b: Queue)
    requires OnlyServed(RetryAllNow(a), b)
    ensures SettledKept(a, b) && NoRetry(b)
  {
    hide Select;
  }

  // ---- What a batch of negative acknowledgements makes of the messages

  /** The messages that left the list went to `st`. */
  ghost function Resettled(states: seq<MsgState>, before: seq<Entry>, after: seq<Entry>,
      st: MsgState): (r: seq<MsgState>)
    ensures |r| == |states|
  {
    seq(|states|, i requires 0 <= i < |states| => if Gone(before, after, i) then st else states[i])
  }

  /** Command by command, what a consumer gave up went to retry or to acked by the command's reason. */
  ghost function NackedStates(states: seq<MsgState>, list: seq<Entry>, cmds: seq<NackCommand>): (r: seq<MsgState>)
    ensures |r| == |states|
  {
    if cmds == [] then states else
      var init, last := cmds[..|cmds| - 1], cmds[|cmds| - 1];
      Resettled(NackedStates(states, list, init), AfterNacks(list, init), AfterNacks(list, cmds),
        SettledState(last.reason))
  }

  /** The batch took its tags from the consumer and moved exactly their messages. */
  ghost predicate NackedBy(a: Shard, b: Shard, c: nat, cmds: seq<NackCommand>) {
    && SettledFor(a, b, c) && c in b.consumers
    && a.consumers[c].queueId in a.queues && a.consumers[c].queueId in b.queues
    && var x, y := a.queues[a.consumers[c].queueId].queue, b.queues[a.consumers[c].queueId].queue;
    && var s, r := a.consumers[c].session, b.consumers[c].session;
    && r.list == AfterNacks(s.list, cmds) && r.nextTag == s.nextTag && r.credit.mode == s.credit.mode
    && y.states == NackedStates(x.states, s.list, cmds) && y.redelivered == x.redelivered && y.head == x.head
  }

  lemma NackedNothing(sh: Shard, c: nat)
    requires ShardOk(sh) && c in sh.consumers
    ensures NackedBy(sh, sh, c, [])
  {
    hide WorldOk;
    Lists(sh, c);
  }

  lemma NackedMeans(a: Shard, b: Shard, c: nat, cmds: seq<NackCommand>)
    requires NackedBy(a, b, c, cmds)
    ensures SettledFor(a, b, c) && c in a.consumers && c in b.consumers
    ensures b.consumers[c].queueId == a.consumers[c].queueId && b.consumers[c].queueId in b.queues
  {
  }

  lemma RejectedAll(a: Shard, b: Shard, c: nat, tags: seq<(nat, NackReason)>)
    requires NackedBy(a, b, c, AsNacks(tags))
    ensures SettledFor(a, b, c) && c in a.consumers && c in b.consumers
    ensures b.consumers[c].queueId == a.consumers[c].queueId
    ensures b.consumers[c].session.list == WithoutTags(a.consumers[c].session.list, RejectedTags(tags))
  {
    hide NackedStates, WithoutTags, AfterNacks;
    RejectedList(a.consumers[c].session.list, tags);
  }

  lemma NackedStep(a: Shard, b: Shard, d: Shard, c: nat, cmds: seq<NackCommand>, k: nat)
    requires k < |cmds| && NackedBy(a, b, c, cmds[..k]) && SettledAs(b, d, c, SettledState(cmds[k].reason))
    requires d.consumers[c].session.list == AfterNack(b.consumers[c].session.list, cmds[k])
    ensures NackedBy(a, d, c, cmds[..k + 1])
  {
    hide SettledFor, Gone, AfterNack;
    SettledTwice(a, b, d, c);
    StillThere(a, b, c);
    assert cmds[..k + 1][..k] == cmds[..k];
    var q, s := a.consumers[c].queueId, a.consumers[c].session;
    var x, y := NackedStates(a.queues[q].queue.states, s.list, cmds[..k + 1]), d.queues[q].queue.states;
    assert |x| == |y| && forall i: nat :: i < |x| ==> x[i] == y[i];
  }

  /** A message went where the last command that took it says; one that none took stays. */
  lemma {:induction false} NackedStateIs(states: seq<MsgState>, list: seq<Entry>, cmds: seq<NackCommand>, i: nat,
      k: int)
    requires i < |states| && -1 <= k < |cmds| && (k >= 0 ==> TakenBy(list, cmds, k, i))
    requires forall j :: k < j < |cmds| ==> !TakenBy(list, cmds, j, i)
    ensures NackedStates(states, list, cmds)[i] == if k < 0 then states[i] else SettledState(cmds[k].reason)
  {
    hide Gone, AfterNacks;
    if cmds == [] {
    } else {
      var n := |cmds| - 1;
      assert cmds[..n + 1] == cmds;
      assert TakenBy(list, cmds, n, i) <==> Gone(AfterNacks(list, cmds[..n]), AfterNacks(list, cmds), i);
      if k < n {
        forall j: nat | j < n ensures TakenBy(list, cmds[..n], j, i) == TakenBy(list, cmds, j, i) {
          TakenEarlier(list, cmds, n, j, i);
        }
        NackedStateIs(states, list, cmds[..n], i, k);
      }
    }
  }

  lemma TakenEarlier(list: seq<Entry>, cmds: seq<NackCommand>, n: nat, j: nat, i: nat)
    requires j < n <= |cmds|
    ensures TakenBy(list, cmds[..n], j, i) == TakenBy(list, cmds, j, i)
  {
    assert cmds[..n][..j] == cmds[..j] && cmds[..n][..j + 1] == cmds[..j + 1];
  }

  /** Command `k` of the batch took message `i`. */
  ghost predicate TakenBy(list: seq<Entry>, cmds: seq<NackCommand>, k: nat, i: nat)
    requires k < |cmds|
  {
    Gone(AfterNacks(list, cmds[..k]), AfterNacks(list, cmds[..k + 1]), i)
  }

  /** Rejections are negative acknowledgements of one tag each. */
  function AsNacks(tags: seq<(nat, NackReason)>): (r: seq<NackCommand>)
    ensures |r| == |tags| && forall k :: 0 <= k < |r| ==> r[k] == NackTag(tags[k].0, One, tags[k].1)
  {
    seq(|tags|, k requires 0 <= k < |tags| => NackTag(tags[k].0, One, tags[k].1))
  }

  lemma {:induction false} RejectedList(list: seq<Entry>, tags: seq<(nat, NackReason)>)
    ensures AfterNacks(list, AsNacks(tags)) == WithoutTags(list, RejectedTags(tags))
  {
    hide WithoutTags;
    if tags == [] {
      NoTags(list);
    } else {
      var n := |tags| - 1;
      RejectedList(list, tags[..n]);
      assert AsNacks(tags)[..n] == AsNacks(tags[..n]);
      assert RejectedTags(tags) == RejectedTags(tags[..n]) + [tags[n].0];
      WithoutTwice(list, RejectedTags(tags[..n]), [tags[n].0]);
    }
  }

  lemma SettledAsMeans(a: Shard, b: Shard, c: nat, st: MsgState)
    requires SettledAs(a, b, c, st)
    ensures SettledFor(a, b, c) && c in a.consumers && c in b.consumers
    ensures b.consumers[c].queueId == a.consumers[c].queueId
  {
  }

  // ---- What a batch of commands leaves outstanding

  function AfterSettle(list: seq<Entry>, tag: nat, mode: Mode): (r: seq<Entry>) {
    if mode == One then WithoutTags(list, [tag])
    else if HasTag(list, tag) then list[TagIndex(list, tag) + 1..]
    else list
  }

  function AfterAck(list: seq<Entry>, cmd: AckCommand): (r: seq<Entry>) {
    match cmd
    case AckTag(tag, mode) => AfterSettle(list, tag, mode)
    case AckRangeTo(_, end) => AfterSettle(list, end, Multiple)
    case AckMaskOf(base, mask) => WithoutTags(list, Span(base, PopCount(mask)))
  }

  function AfterAcks(list: seq<Entry>, cmds: seq<AckCommand>): (r: seq<Entry>) {
    if cmds == [] then list else AfterAck(AfterAcks(list, cmds[..|cmds| - 1]), cmds[|cmds| - 1])
  }

  function AfterNack(list: seq<Entry>, cmd: NackCommand): (r: seq<Entry>) {
    match cmd
    case NackTag(tag, mode, _) => AfterSettle(list, tag, mode)
    case NackRangeTo(_, end, _) => AfterSettle(list, end, Multiple)
    case NackMaskOf(base, mask, _) => WithoutTags(list, MaskTags(base, mask))
  }

  function AfterNacks(list: seq<Entry>, cmds: seq<NackCommand>): (r: seq<Entry>) {
    if cmds == [] then list else AfterNack(AfterNacks(list, cmds[..|cmds| - 1]), cmds[|cmds| - 1])
  }

  lemma SettledList(a: Shard, b: Shard, c: nat, tag: nat, mode: Mode, settled: bool)
    requires ShardOk(a) && c in a.consumers && c in b.consumers
    requires settled <==> SettleError(a.consumers[c].session, tag).None?
    requires if settled then b.consumers[c].session == Settle(a.consumers[c].session, tag, mode) else b == a
    ensures b.consumers[c].session.list == AfterSettle(a.consumers[c].session.list, tag, mode)
  {
    hide ShardOk, WithoutTags;
    if mode == One {
      TagGone(a, b, c, tag, settled);
    } else {
      OwnsOf(a, c);
      FailsIffNotOutstanding(a.consumers[c].session, tag);
    }
  }

  function RejectedTags(tags: seq<(nat, NackReason)>): (r: seq<nat>)
    ensures |r| == |tags| && forall k :: 0 <= k < |r| ==> r[k] == tags[k].0
  {
    seq(|tags|, k requires 0 <= k < |tags| => tags[k].0)
  }

  /** Message `i` was outstanding in `a` and no longer is in `b`. */
  ghost predicate Gone(a: seq<Entry>, b: seq<Entry>, i: nat) {
    exists k :: 0 <= k < |a| && a[k].msg == i && a[k] !in b
  }

  /** Exactly the messages that are no longer outstanding moved to `st`. */
  ghost predicate SettledAs(a: Shard, b: Shard, c: nat, st: MsgState) {
    && SettledFor(a, b, c) && c in b.consumers
    && a.consumers[c].queueId in a.queues && a.consumers[c].queueId in b.queues
    && var x, y := a.queues[a.consumers[c].queueId].queue, b.queues[a.consumers[c].queueId].queue;
    && var s, r := a.consumers[c].session, b.consumers[c].session;
    && (forall e :: e in r.list ==> e in s.list) && r.nextTag == s.nextTag && r.credit.mode == s.credit.mode
    && |y.states| == |x.states| && y.redelivered == x.redelivered && y.head == x.head
    && (forall i: nat :: i < |x.states| ==> y.states[i] == if Gone(s.list, r.list, i) then st else x.states[i])
  }

  lemma SameQueueFor(a: Shard, b: Shard, c: nat, st: MsgState)
    requires SettledAs(a, b, c, st)
    ensures c in a.consumers && c in b.consumers && b.consumers[c].queueId == a.consumers[c].queueId
    ensures RedeliveredFor(b, c) == RedeliveredFor(a, c)
  {
  }

  lemma KeptFrom(a: Shard, b: Shard, c: nat, st: MsgState)
    requires SettledAs(a, b, c, st)
    ensures c in a.consumers && c in b.consumers
    ensures forall e :: e in b.consumers[c].session.list ==> e in a.consumers[c].session.list
  {
  }

  lemma SettledAsNothing(sh: Shard, c: nat, st: MsgState)
    requires ShardOk(sh) && c in sh.consumers
    ensures SettledAs(sh, sh, c, st)
  {
    hide WorldOk;
    Lists(sh, c);
  }

  lemma SettledAsTwice(a: Shard, b: Shard, d: Shard, c: nat, st: MsgState)
    requires SettledAs(a, b, c, st) && SettledAs(b, d, c, st)
    ensures SettledAs(a, d, c, st)
  {
    hide SettledFor, Gone;
    SettledTwice(a, b, d, c);
    StillThere(a, b, c);
    var s, r, t := a.consumers[c].session.list, b.consumers[c].session.list, d.consumers[c].session.list;
    forall i: nat ensures Gone(s, t, i) <==> Gone(s, r, i) || Gone(r, t, i) { GoneTwice(s, r, t, i); }
  }

  lemma GoneTwice(s: seq<Entry>, r: seq<Entry>, t: seq<Entry>, i: nat)
    requires (forall e :: e in r ==> e in s) && (forall e :: e in t ==> e in r)
    ensures Gone(s, t, i) <==> Gone(s, r, i) || Gone(r, t, i)
  {
    if Gone(s, t, i) {
      var k :| 0 <= k < |s| && s[k].msg == i && s[k] !in t;
      if s[k] in r {
        var j :| 0 <= j < |r| && r[j] == s[k];
        assert Gone(r, t, i);
      }
    }
    if Gone(r, t, i) {
      var k :| 0 <= k < |r| && r[k].msg == i && r[k] !in t;
      assert r[k] in s;
      var j :| 0 <= j < |s| && s[j] == r[k];
    }
  }

  /** Settling a tag makes exactly the taken messages gone. */
  lemma TakenGone(s: Session, tag: nat, mode: Mode, i: nat)
    requires SessionOk(s) && HasTag(s.list, tag)
    ensures Gone(s.list, Settle(s, tag, mode).list, i) <==> i in Messages(Taken(s, tag, mode))
    ensures forall e :: e in Settle(s, tag, mode).list ==> e in s.list
  {
    hide HasTag, Taken, Unsettled;
    SettleSplits(s, tag, mode);
    DistinctIsMultiset(s.list);
    var taken, rest := Taken(s, tag, mode), Unsettled(s, tag, mode);
    forall e ensures e in taken ==> e !in rest {
      assert multiset(s.list)[e] == multiset(taken)[e] + multiset(rest)[e];
    }
    if i in Messages(taken) {
      var k :| 0 <= k < |taken| && taken[k].msg == i;
      assert taken[k] in s.list;
      var j :| 0 <= j < |s.list| && s.list[j] == taken[k];
    }
    if Gone(s.list, Settle(s, tag, mode).list, i) {
      var j :| 0 <= j < |s.list| && s.list[j].msg == i && s.list[j] !in rest;
      assert s.list[j] in taken;
      var k :| 0 <= k < |taken| && taken[k] == s.list[j];
      assert Messages(taken)[k] == i;
    }
  }

  lemma SettledTwice(a: Shard, b: Shard, d: Shard, c: nat)
    requires SettledFor(a, b, c) && SettledFor(b, d, c)
    ensures SettledFor(a, d, c)
  {
    OnlyQueueTwice(a, b, d, a.consumers[c].queueId);
  }

  lemma SettledRecorded(log: seq<StoreOp>, a: Shard, b: Shard, c: nat, st: MsgState)
    requires SettledAs(a, b, c, st) && Recorded(log, a)
    ensures Recorded(log, b)
  {
    WorkRecorded(log, a, b, a.consumers[c].queueId);
  }

  /** The redelivered messages of the consumer's queue. */
  function RedeliveredFor(sh: Shard, c: nat): (r: set<nat>) {
    if c in sh.consumers && sh.consumers[c].queueId in sh.queues
    then sh.queues[sh.consumers[c].queueId].queue.redelivered
    else {}
  }

  ghost predicate AllAcked(sh: Shard, q: nat, seqs: seq<nat>) {
    q in sh.queues && forall i :: i in seqs ==> IsAcked(sh, q, i)
  }

  /** The range list with one more message, which extends the last range where it can. */
  function Coalesced(ranges: seq<Range>, i: nat): (r: seq<Range>) {
    var n := |ranges| - 1;
    if ranges != [] && ranges[n].start + ranges[n].len == i then
      ranges[..n] + [Range(ranges[n].start, ranges[n].len + 1)]
    else ranges + [Range(i, 1)]
  }

  lemma CoalescedSeqs(ranges: seq<Range>, i: nat)
    ensures RangesSeqs(Coalesced(ranges, i)) == RangesSeqs(ranges) + [i]
  {
    var n, r := |ranges| - 1, Coalesced(ranges, i);
    assert Span(i, 1) == [i];
    if ranges != [] && ranges[n].start + ranges[n].len == i {
      SpanConcat(ranges[n].start, ranges[n].len, 1);
      assert r[..n] == ranges[..n];
      var a, b := RangesSeqs(ranges[..n]), Span(ranges[n].start, ranges[n].len);
      assert a + (b + [i]) == (a + b) + [i];
    } else {
      assert r[..|ranges|] == ranges;
    }
  }

  /** What a session makes of the messages it settles: the queue gets the first deliveries before
      the redeliveries, and only the first deliveries are reported, as ranges. How they are cut into
      ranges depends on the session's window; the contract leaves it open. */
  method SettlementOrder(q: Queue, msgs: seq<nat>) returns (order: seq<nat>, ranges: seq<Range>)
    ensures order == SettleOrder(msgs, q.redelivered)
    ensures RangesSeqs(ranges) == Pick(msgs, q.redelivered, true)
  {
    hide RangesSeqs, Coalesced;
    var first, again := [], [];
    ranges := [];
    NoRanges();
    for k := 0 to |msgs|
      invariant first == Pick(msgs[..k], q.redelivered, true) && again == Pick(msgs[..k], q.redelivered, false)
      invariant RangesSeqs(ranges) == first
    {
      assert msgs[..k + 1][..k] == msgs[..k];
      if msgs[k] in q.redelivered {
        again := again + [msgs[k]];
      } else {
        CoalescedSeqs(ranges, msgs[k]);
        first := first + [msgs[k]];
        ranges := Coalesced(ranges, msgs[k]);
      }
    }
    assert msgs[..|msgs|] == msgs;
    order := first + again;
  }

  lemma NoRanges()
    ensures RangesSeqs([]) == []
  {
  }

  /** The ledger gained exactly the first deliveries among the settled messages; a shard that is not
      durable keeps none. */
  ghost predicate Ledgered(durable: bool, before: seq<StoreOp>, after: seq<StoreOp>, q: nat, a: seq<Entry>,
      b: seq<Entry>, redelivered: set<nat>)
  {
    if !durable then after == before else
      && (forall x, i: nat :: AckedIn(after, x, i) <==>
        AckedIn(before, x, i) || (x == q && Gone(a, b, i) && i !in redelivered))
      && ((forall i: nat :: Gone(a, b, i) ==> i in redelivered) ==> after == before)
  }

  lemma LedgeredNothing(durable: bool, log: seq<StoreOp>, q: nat, list: seq<Entry>, redelivered: set<nat>)
    ensures Ledgered(durable, log, log, q, list, list, redelivered)
  {
  }

  lemma LedgeredTwice(durable: bool, l0: seq<StoreOp>, l1: seq<StoreOp>, l2: seq<StoreOp>, q: nat, a: seq<Entry>,
      b: seq<Entry>, d: seq<Entry>, redelivered: set<nat>)
    requires Ledgered(durable, l0, l1, q, a, b, redelivered) && Ledgered(durable, l1, l2, q, b, d, redelivered)
    requires (forall e :: e in b ==> e in a) && (forall e :: e in d ==> e in b)
    ensures Ledgered(durable, l0, l2, q, a, d, redelivered)
  {
    hide AckedIn, Gone;
    if durable {
      forall x, i: nat
        ensures AckedIn(l2, x, i) <==> AckedIn(l0, x, i) || (x == q && Gone(a, d, i) && i !in redelivered)
      {
        GoneTwice(a, b, d, i);
      }
      if forall i: nat :: Gone(a, d, i) ==> i in redelivered {
        forall i: nat { GoneTwice(a, b, d, i); }
      }
    }
  }

  /** The ledger gained exactly the given messages of one queue. */
  ghost predicate LedgerGrew(before: seq<StoreOp>, after: seq<StoreOp>, q: nat, seqs: seq<nat>) {
    && (forall x, i: nat :: AckedIn(after, x, i) <==> AckedIn(before, x, i) || (x == q && i in seqs))
    && (seqs == [] ==> after == before)
  }

  lemma LedgerStarts(log: seq<StoreOp>, q: nat, ranges: seq<Range>)
    ensures LedgerGrew(log, log, q, RangesSeqs(ranges[..0]))
  {
  }

  lemma OneRangeAcked(sh: Shard, q: nat, ranges: seq<Range>, k: nat)
    requires AllAcked(sh, q, RangesSeqs(ranges)) && k < |ranges|
    ensures q in sh.queues
    ensures forall i: nat :: ranges[k].start <= i < ranges[k].start + ranges[k].len ==> IsAcked(sh, q, i)
  {
    hide RangesSeqs, Span;
    NextRange(ranges, k);
    RangesPrefix(ranges, k + 1);
    forall i: nat | ranges[k].start <= i < ranges[k].start + ranges[k].len ensures IsAcked(sh, q, i) {
      assert i in RangesSeqs(ranges[..k + 1]);
    }
  }

  lemma LedgerRange(before: seq<StoreOp>, log: seq<StoreOp>, q: nat, ranges: seq<Range>, k: nat)
    requires k < |ranges| && LedgerGrew(before, log, q, RangesSeqs(ranges[..k]))
    ensures var op := AppendAckRange(q, ranges[k].start, ranges[k].len);
      LedgerGrew(before, if ranges[k].len != 0 then log + [op] else log, q, RangesSeqs(ranges[..k + 1]))
  {
    hide AckedIn, RangesSeqs, Span;
    NextRange(ranges, k);
    var op := AppendAckRange(q, ranges[k].start, ranges[k].len);
    forall x, i: nat { AckedAppend(log, op, x, i); }
  }

  lemma SettledLedger(durable: bool, before: seq<StoreOp>, after: seq<StoreOp>, q: nat, s: Session, tag: nat,
      mode: Mode, redelivered: set<nat>)
    requires SessionOk(s) && HasTag(s.list, tag)
    requires if durable then LedgerGrew(before, after, q, Pick(Messages(Taken(s, tag, mode)), redelivered, true))
      else after == before
    ensures Ledgered(durable, before, after, q, s.list, Settle(s, tag, mode).list, redelivered)
  {
    hide AckedIn, Gone, SessionOk, HasTag, Settle, Taken, Messages;
    forall i: nat ensures Gone(s.list, Settle(s, tag, mode).list, i) <==> i in Messages(Taken(s, tag, mode)) {
      TakenGone(s, tag, mode, i);
    }
    var first := Pick(Messages(Taken(s, tag, mode)), redelivered, true);
    if first != [] { assert first[0] in first; }
  }

  lemma SettleEffect(sh: Shard, c: nat, tag: nat, mode: Mode, reason: NackReason, order: seq<nat>, first: seq<nat>)
    requires ShardOk(sh) && c in sh.consumers && sh.consumers[c].queueId in sh.queues
    requires SettleError(sh.consumers[c].session, tag).None?
    requires multiset(order) == multiset(Messages(Taken(sh.consumers[c].session, tag, mode)))
    requires first <= order
    ensures var q, s := sh.consumers[c].queueId, sh.consumers[c].session;
      var r := Put(sh, c, Disposed(sh.queues[q].queue, order, reason), Settle(s, tag, mode));
      && ShardOk(r) && SettledAs(sh, r, c, SettledState(reason)) && (reason != Requeue ==> AllAcked(r, q, first))
      && |Taken(s, tag, mode)| == |s.list| - |Settle(s, tag, mode).list|
  {
    hide ShardOk, OnlyQueue, HasTag, Taken, Unsettled, Messages, Gone, MergeBlocks;
    SettlePutOk(sh, c, tag, mode, reason, order);
    var q, s := sh.consumers[c].queueId, sh.consumers[c].session;
    OwnsOf(sh, c);
    SettleOwned(s, sh.queues[q].queue, tag, mode, order, reason);
    SameMultiset(order, Messages(Taken(s, tag, mode)));
    forall i: nat ensures Gone(s.list, Settle(s, tag, mode).list, i) <==> i in order { TakenGone(s, tag, mode, i); }
    TakenGone(s, tag, mode, 0);
    forall i | i in first ensures i in order { assert i in order[..|first|]; }
  }

  lemma OwnsOf(sh: Shard, c: nat)
    requires ShardOk(sh) && c in sh.consumers
    ensures sh.consumers[c].queueId in sh.queues
    ensures Owns(sh.consumers[c].session, sh.queues[sh.consumers[c].queueId].queue)
    ensures SessionOk(sh.consumers[c].session)
  {
    hide WorldOk, Registered;
    Lists(sh, c);
    PutWorld(sh, c, sh.queues[sh.consumers[c].queueId].queue, sh.consumers[c].session);
    SessionAt(WorldOf(sh, sh.consumers[c].queueId), Position(sh.queues[sh.consumers[c].queueId].consumers, c));
  }

  lemma SessionAt(w: World, k: nat)
    requires WorldOk(w) && k < |w.sessions|
    ensures SessionOk(w.sessions[k]) && Owns(w.sessions[k], w.queue)
  {
  }

  /** An acknowledgement either settles its tag or names the reason why not. */
  ghost predicate Answered(a: Session, b: Session, tag: nat, mode: Mode, c: nat, error: Option<CommandError>) {
    var e := SettleError(a, tag);
    if e.None? then error == None && b == Settle(a, tag, mode)
    else error == Some(SettlementRefused(c, e.value)) && b == a
  }

  /** A negative acknowledgement reports every refusal as an invalid tag. */
  ghost predicate Refused(a: Session, b: Session, tag: nat, mode: Mode, c: nat, error: Option<CommandError>) {
    if SettleError(a, tag).None? then error == None && b == Settle(a, tag, mode)
    else error == Some(SettlementRefused(c, InvalidDeliveryTag)) && b == a
  }

  /** The tag that one acknowledgement is about; a mask names many. */
  function AckTarget(cmd: AckCommand): (tag: Option<nat>) {
    match cmd
    case AckTag(tag, _) => Some(tag)
    case AckRangeTo(_, end) => Some(end)
    case AckMaskOf(_, _) => None
  }

  function NackTarget(cmd: NackCommand): (tag: Option<nat>) {
    match cmd
    case NackTag(tag, _, _) => Some(tag)
    case NackRangeTo(_, end, _) => Some(end)
    case NackMaskOf(_, _, _) => None
  }

  /** The errors of a batch: one for each command if the consumer is unknown, and otherwise one for each
      tag that the commands before it left no longer outstanding. */
  function AckErrors(sh: Shard, c: nat, cmds: seq<AckCommand>): (errors: seq<CommandError>) {
    if cmds == [] then [] else
      var init, last := cmds[..|cmds| - 1], cmds[|cmds| - 1];
      AckErrors(sh, c, init) + AckErrorOf(sh, c, init, last)
  }

  function AckErrorOf(sh: Shard, c: nat, init: seq<AckCommand>, cmd: AckCommand): (errors: seq<CommandError>) {
    if c !in sh.consumers then [ConsumerNotFound(c)] else
      var s, tag := sh.consumers[c].session, AckTarget(cmd);
      if tag.None? then [] else
        var e := SettleError(s.(list := AfterAcks(s.list, init)), tag.value);
        if e.Some? then [SettlementRefused(c, e.value)] else []
  }

  /** Negative acknowledgements report every refusal as an invalid tag. */
  function NackErrors(sh: Shard, c: nat, cmds: seq<NackCommand>): (errors: seq<CommandError>) {
    if cmds == [] then [] else
      var init, last := cmds[..|cmds| - 1], cmds[|cmds| - 1];
      NackErrors(sh, c, init) + NackErrorOf(sh, c, init, last)
  }

  function NackErrorOf(sh: Shard, c: nat, init: seq<NackCommand>, cmd: NackCommand): (errors: seq<CommandError>) {
    if c !in sh.consumers then [ConsumerNotFound(c)] else
      var s, tag := sh.consumers[c].session, NackTarget(cmd);
      if tag.None? then [] else
        var e := SettleError(s.(list := AfterNacks(s.list, init)), tag.value);
        if e.Some? then [SettlementRefused(c, InvalidDeliveryTag)] else []
  }

  lemma AckRefusedAt(a: Shard, b: Shard, c: nat, cmds: seq<AckCommand>, k: nat)
    requires ShardOk(a) && ShardOk(b) && SettledAs(a, b, c, Acked) && k < |cmds|
    requires b.consumers[c].session.list == AfterAcks(a.consumers[c].session.list, cmds[..k])
    ensures var s, tag := b.consumers[c].session, AckTarget(cmds[k]);
      AckErrorOf(a, c, cmds[..k], cmds[k]) == if tag.None? then [] else
        var e := SettleError(s, tag.value); if e.Some? then [SettlementRefused(c, e.value)] else []
  {
    hide ShardOk, SettledFor, Gone, AfterAcks;
    StillThere(a, b, c);
    Opened(a, c);
    Opened(b, c);
  }

  lemma NackRefusedAt(a: Shard, b: Shard, c: nat, cmds: seq<NackCommand>, k: nat)
    requires ShardOk(a) && ShardOk(b) && k < |cmds| && NackedBy(a, b, c, cmds[..k])
    ensures var s, tag := b.consumers[c].session, NackTarget(cmds[k]);
      NackErrorOf(a, c, cmds[..k], cmds[k]) == if tag.None? then [] else
        var e := SettleError(s, tag.value); if e.Some? then [SettlementRefused(c, InvalidDeliveryTag)] else []
  {
    hide ShardOk, SettledFor, NackedStates, AfterNacks;
    StillThere(a, b, c);
    Opened(a, c);
    Opened(b, c);
  }

  function MaskTags(base: nat, mask: u64): (r: seq<nat>) {
    var bits := BitList(mask);
    seq(|bits|, k requires 0 <= k < |bits| => base + bits[k])
  }

  lemma MaskTagsAre(base: nat, mask: u64, t: nat)
    ensures t in MaskTags(base, mask) <==> t >= base && Bit(mask, t - base)
  {
    var bits, r := BitList(mask), MaskTags(base, mask);
    if t in r {
      var k :| 0 <= k < |r| && r[k] == t;
      assert bits[k] in bits;
    }
    if t >= base && Bit(mask, t - base) {
      var k :| 0 <= k < |bits| && bits[k] == t - base;
      assert r[k] == t;
    }
  }

  lemma EachStarts(sh: Shard, c: nat, tags: seq<nat>, st: MsgState)
    requires ShardOk(sh) && c in sh.consumers
    ensures SettledAs(sh, sh, c, st)
    ensures WithoutTags(sh.consumers[c].session.list, tags[..0]) == sh.consumers[c].session.list
  {
    hide ShardOk;
    SettledAsNothing(sh, c, st);
    NoTags(sh.consumers[c].session.list);
    assert tags[..0] == [];
  }

  lemma EachStep(a: Shard, b: Shard, d: Shard, c: nat, tags: seq<nat>, k: nat, settled: bool, st: MsgState)
    requires ShardOk(b) && SettledAs(a, b, c, st) && SettledAs(b, d, c, st) && k < |tags| && c in b.consumers
    requires c in d.consumers
    requires b.consumers[c].session.list == WithoutTags(a.consumers[c].session.list, tags[..k])
    requires settled <==> SettleError(b.consumers[c].session, tags[k]).None?
    requires if settled then d.consumers[c].session == Settle(b.consumers[c].session, tags[k], One) else d == b
    ensures SettledAs(a, d, c, st)
    ensures d.consumers[c].session.list == WithoutTags(a.consumers[c].session.list, tags[..k + 1])
  {
    hide ShardOk, SettledFor, WithoutTags, Settle, Gone;
    SettledAsTwice(a, b, d, c, st);
    TagGone(b, d, c, tags[k], settled);
    StillThere(a, b, c);
    WithoutTwice(a.consumers[c].session.list, tags[..k], [tags[k]]);
    assert tags[..k + 1] == tags[..k] + [tags[k]];
  }

  lemma StillThere(a: Shard, b: Shard, c: nat)
    requires SettledFor(a, b, c)
    ensures c in a.consumers && c in b.consumers && b.consumers[c].queueId == a.consumers[c].queueId
  {
  }

  lemma QuietAfterSettling(a: Shard, b: Shard, c: nat)
    requires ShardOk(a) && AllQuiet(a) && SettledFor(a, b, c) && c in b.consumers
    ensures QuietExcept(b, b.consumers[c].queueId)
  {
    hide WorldOk;
    OthersStayQuiet(a, b, b.consumers[c].queueId);
  }

  lemma UnlistedStays(sh: Shard, c: nat)
    requires ShardOk(sh)
    ensures forall q :: q in sh.queues && !Attached(sh, c, q) ==>
      WithoutId(sh.queues[q].consumers, c) == sh.queues[q].consumers
  {
    hide WorldOk, WithoutId;
    forall q | q in sh.queues && !Attached(sh, c, q)
      ensures WithoutId(sh.queues[q].consumers, c) == sh.queues[q].consumers
    {
      assert c !in sh.queues[q].consumers;
      NoneToRemove(sh.queues[q].consumers, c);
    }
  }

  lemma CancelRecorded(log: seq<StoreOp>, sh: Shard, c: nat, queue: Queue)
    requires Recorded(log, sh) && c in sh.consumers && sh.consumers[c].queueId in sh.queues
    requires SettledKept(sh.queues[sh.consumers[c].queueId].queue, queue)
    ensures Recorded(log, Removed(sh, c, queue))
  {
    hide Recorded;
    StillRecorded(log, sh, Removed(sh, c, queue));
  }

  lemma QuietWithout(sh: Shard, c: nat, queue: Queue)
    requires ShardOk(sh) && AllQuiet(sh) && c in sh.consumers && sh.consumers[c].queueId in sh.queues
    requires ReadyCount(queue) == ReadyCount(sh.queues[sh.consumers[c].queueId].queue)
    ensures AllQuiet(Removed(sh, c, queue))
  {
    hide WorldOk;
    CancelQuiet(sh, c, queue);
  }

  lemma SameRegistries(a: Shard, b: Shard, q: nat)
    requires OnlyQueue(a, b, q)
    ensures a.consumers.Keys == b.consumers.Keys
    ensures forall x :: x in a.queues ==> x in b.queues && b.queues[x].consumers == a.queues[x].consumers
  {
  }

  // ---- Lists without some tags

  function WithoutTags(list: seq<Entry>, tags: seq<nat>): (r: seq<Entry>) {
    if list == [] then [] else
      var n := |list| - 1;
      WithoutTags(list[..n], tags) + (if list[n].tag in tags then [] else [list[n]])
  }

  lemma {:induction false} NoTags(list: seq<Entry>)
    ensures WithoutTags(list, []) == list
  {
    if list == [] {
    } else {
      NoTags(list[..|list| - 1]);
    }
  }

  lemma WithoutAppend(list: seq<Entry>, e: Entry, tags: seq<nat>)
    ensures WithoutTags(list + [e], tags) == WithoutTags(list, tags) + (if e.tag in tags then [] else [e])
  {
    assert (list + [e])[..|list|] == list;
  }

  lemma {:induction false} WithoutTwice(list: seq<Entry>, a: seq<nat>, b: seq<nat>)
    ensures WithoutTags(WithoutTags(list, a), b) == WithoutTags(list, a + b)
  {
    if list == [] {
    } else {
      var n := |list| - 1;
      WithoutTwice(list[..n], a, b);
      var rest, last := WithoutTags(list[..n], a), list[n];
      WithoutAppend(rest, last, b);
      assert WithoutTags(list, a) == if last.tag in a then rest else rest + [last];
    }
  }

  /** Exactly the entries with other tags remain. */
  lemma {:induction false} WithoutTagsKeeps(list: seq<Entry>, tags: seq<nat>, e: Entry)
    ensures e in WithoutTags(list, tags) <==> e in list && e.tag !in tags
  {
    if list == [] {
    } else {
      assert list == list[..|list| - 1] + [list[|list| - 1]];
      WithoutTagsKeeps(list[..|list| - 1], tags, e);
    }
  }

  /** Settling one tag takes exactly its entry out. */
  lemma TagGone(a: Shard, b: Shard, c: nat, tag: nat, settled: bool)
    requires ShardOk(a) && c in a.consumers && c in b.consumers
    requires settled <==> SettleError(a.consumers[c].session, tag).None?
    requires if settled then b.consumers[c].session == Settle(a.consumers[c].session, tag, One) else b == a
    ensures b.consumers[c].session.list == WithoutTags(a.consumers[c].session.list, [tag])
  {
    hide ShardOk, WithoutTags;
    var s := a.consumers[c].session;
    OwnsOf(a, c);
    FailsIffNotOutstanding(s, tag);
    if settled {
      RemovalIsWithout(s.list, TagIndex(s.list, tag));
    } else {
      AbsentTag(s.list, tag);
    }
  }

  lemma {:induction false} AbsentTag(list: seq<Entry>, tag: nat)
    requires forall k :: 0 <= k < |list| ==> list[k].tag != tag
    ensures WithoutTags(list, [tag]) == list
  {
    if list == [] {
    } else {
      AbsentTag(list[..|list| - 1], tag);
    }
  }

  lemma {:induction false} RemovalIsWithout(list: seq<Entry>, k: nat)
    requires TagsAscend(list) && k < |list|
    ensures WithoutTags(list, [list[k].tag]) == RemoveAt(list, k)
  {
    var n := |list| - 1;
    if k == n {
      AbsentTag(list[..n], list[n].tag);
    } else {
      RemovalIsWithout(list[..n], k);
    }
  }

  lemma QueueOf(sh: Shard, c: nat)
    requires ShardOk(sh) && c in sh.consumers
    ensures sh.consumers[c].queueId in sh.queues && SessionOk(sh.consumers[c].session)
    ensures QueueSpec.Valid(sh.queues[sh.consumers[c].queueId].queue)
  {
    hide SessionOk, QueueSpec.Valid, Registered, Owns, Apart;
    OwnsOf(sh, c);
    assert WorldOk(WorldOf(sh, sh.consumers[c].queueId));
  }

  lemma Opened(sh: Shard, c: nat)
    requires ShardOk(sh) && c in sh.consumers
    ensures sh.consumers[c].queueId in sh.queues && c in sh.queues[sh.consumers[c].queueId].consumers
    ensures !sh.consumers[c].session.cancelled
    ensures Drained(sh, sh, c, 0)
  {
    hide WorldOk;
    Lists(sh, c);
    NothingGained(sh.consumers[c].session);
  }

  // ---- Runs of commands

  /** A batch as commands that are carried out one by one. */
  ghost function Items(batch: CommandBatch): (items: seq<CommandBatch>) {
    match batch
    case DeclareBatch(ids) => seq(|ids|, k requires 0 <= k < |ids| => DeclareBatch([ids[k]]))
    case ConsumeBatch(starts) => seq(|starts|, k requires 0 <= k < |starts| => ConsumeBatch([starts[k]]))
    case CreditBatch(ids) => seq(|ids|, k requires 0 <= k < |ids| => CreditBatch([ids[k]]))
    case CancelBatch(cancels) => seq(|cancels|, k requires 0 <= k < |cancels| => CancelBatch([cancels[k]]))
    case _ => [batch]
  }

  ghost function AllItems(batches: seq<CommandBatch>): (items: seq<CommandBatch>) {
    if batches == [] then [] else AllItems(batches[..|batches| - 1]) + Items(batches[|batches| - 1])
  }

  lemma OneItem(batch: CommandBatch)
    ensures batch.DeclareBatch? ==> |Items(batch)| == |batch.queueIds|
    ensures batch.DeclareBatch? ==>
      forall k :: 0 <= k < |batch.queueIds| ==> Items(batch)[k] == DeclareBatch([batch.queueIds[k]])
    ensures batch.ConsumeBatch? ==> |Items(batch)| == |batch.starts|
    ensures batch.ConsumeBatch? ==>
      forall k :: 0 <= k < |batch.starts| ==> Items(batch)[k] == ConsumeBatch([batch.starts[k]])
    ensures batch.CreditBatch? ==> |Items(batch)| == |batch.credits|
    ensures batch.CreditBatch? ==>
      forall k :: 0 <= k < |batch.credits| ==> Items(batch)[k] == CreditBatch([batch.credits[k]])
    ensures batch.CancelBatch? ==> |Items(batch)| == |batch.cancels|
    ensures batch.CancelBatch? ==>
      forall k :: 0 <= k < |batch.cancels| ==> Items(batch)[k] == CancelBatch([batch.cancels[k]])
    ensures batch.PublishBatch? || batch.AckBatch? || batch.NackBatch? || batch.RejectBatch? ==> Items(batch) == [batch]
  {
  }

  /** The commands settled what they name, the ledger gained the first deliveries among it, and the credit
      that this freed was used. */
  ghost predicate AckedVia(durable: bool, a: Snapshot, b: Snapshot, c: nat, cmds: seq<AckCommand>, mid: Shard)
    requires c in a.shard.consumers
  {
    var s := a.shard.consumers[c];
    && SettledAs(a.shard, mid, c, Acked) && c in mid.consumers
    && mid.consumers[c].session.list == AfterAcks(s.session.list, cmds)
    && Ledgered(durable, a.log, b.log, s.queueId, s.session.list, mid.consumers[c].session.list,
      RedeliveredFor(a.shard, c))
    && if |mid.consumers[c].session.list| == |s.session.list| then b.shard == a.shard
      else ServedOn(mid, b.shard, s.queueId)
  }

  /** The commands sent what they name to retry or to acked; then the queue was served, after its retries
      became ready if `retry`. */
  ghost predicate NackedVia(a: Snapshot, b: Snapshot, c: nat, cmds: seq<NackCommand>, retry: bool, mid: Shard)
    requires c in a.shard.consumers
  {
    var s := a.shard.consumers[c];
    && NackedBy(a.shard, mid, c, cmds) && c in mid.consumers && s.queueId in mid.queues && b.log == a.log
    && if |mid.consumers[c].session.list| == |s.session.list| then b.shard == a.shard
      else ServedOn(if retry then RetriedOn(mid, s.queueId) else mid, b.shard, s.queueId)
  }

  /** The consumer is gone, and what it held went back to the queue, which was then served, or was dropped. */
  ghost predicate CancelledVia(a: Snapshot, b: Snapshot, c: nat, cmd: CancelCommand)
    requires c in a.shard.consumers
  {
    var s := a.shard.consumers[c];
    && s.queueId in a.shard.queues && b.log == a.log
    && var order := SettleOrder(Messages(s.session.list), RedeliveredFor(a.shard, c));
    && var reason := if cmd == CancelRequeue then Requeue else NackReason.Reject;
    && var mid := Removed(a.shard, c, Disposed(a.shard.queues[s.queueId].queue, order, reason));
    if cmd == CancelRequeue then ServedOn(mid, b.shard, s.queueId) else b.shard == mid
  }

  /** What one command makes of the shard and its log, and which errors it reports. A command that is
      refused changes nothing. */
  ghost predicate Done(durable: bool, item: CommandBatch, a: Snapshot, b: Snapshot, errors: seq<CommandError>) {
    match item
    case DeclareBatch(ids) =>
      && |ids| == 1
      && if ids[0] in a.shard.queues then errors == [DuplicateQueue(ids[0])] && b == a
        else errors == [] && b == Snapshot(Declared(a.shard, ids[0]), a.log)
    case PublishBatch(q, payloads) =>
      if q !in a.shard.queues then errors == [QueueNotFound(q)] && b == a
      else
        && errors == [] && ServedOn(PublishedTo(a.shard, q, |payloads|), b.shard, q)
        && b.log == a.log + if durable then [AppendPublish(q, |a.shard.queues[q].queue.states|, payloads)] else []
    case ConsumeBatch(starts) =>
      && |starts| == 1 && b.log == a.log
      && var q, c, n := starts[0].queueId, starts[0].consumerId, starts[0].prefetch;
      if q !in a.shard.queues then errors == [QueueNotFound(q)] && b == a
      else if c in a.shard.consumers then errors == [DuplicateConsumer(c)] && b == a
      else errors == [] && ServedOn(Subscribed(a.shard, q, c, if n == 0 then Unlimited else Limited(n)), b.shard, q)
    case CreditBatch(ids) =>
      && |ids| == 1 && b.log == a.log
      && if ids[0] !in a.shard.consumers then errors == [ConsumerNotFound(ids[0])] && b == a
        else errors == [] && ServedOn(a.shard, b.shard, a.shard.consumers[ids[0]].queueId)
    case AckBatch(c, cmds) =>
      && errors == AckErrors(a.shard, c, cmds)
      && if c !in a.shard.consumers then b == a else exists mid :: AckedVia(durable, a, b, c, cmds, mid)
    case NackBatch(c, cmds) =>
      && errors == NackErrors(a.shard, c, cmds)
      && if c !in a.shard.consumers then b == a else exists mid :: NackedVia(a, b, c, cmds, true, mid)
    case RejectBatch(c, tags) =>
      && errors == []
      && if c !in a.shard.consumers then b == a else exists mid :: NackedVia(a, b, c, AsNacks(tags), false, mid)
    case CancelBatch(cancels) =>
      && |cancels| == 1
      && if cancels[0].0 !in a.shard.consumers then errors == [ConsumerNotFound(cancels[0].0)] && b == a
        else errors == [] && CancelledVia(a, b, cancels[0].0, cancels[0].1)
  }

  ghost predicate DoneAt(durable: bool, items: seq<CommandBatch>, trail: seq<Snapshot>,
      answers: seq<seq<CommandError>>, k: nat)
    requires k < |items| && k + 1 < |trail| && k < |answers|
  {
    Done(durable, items[k], trail[k], trail[k + 1], answers[k]) && AllQuiet(trail[k + 1].shard)
  }

  ghost function Flat(answers: seq<seq<CommandError>>): (errors: seq<CommandError>) {
    if answers == [] then [] else Flat(answers[..|answers| - 1]) + answers[|answers| - 1]
  }

  /** The answers of the first `n` commands, one by one, are right for the trail, and make up the errors. */
  ghost predicate Reported(durable: bool, items: seq<CommandBatch>, trail: seq<Snapshot>, errors: seq<CommandError>,
      n: nat, answers: seq<seq<CommandError>>)
  {
    && n <= |items| && |trail| == n + 1 && |answers| == n && errors == Flat(answers)
    && forall k :: 0 <= k < n ==> DoneAt(durable, items, trail, answers, k)
  }

  /** The first `n` commands lead from one snapshot to the other. */
  ghost predicate LedTo(durable: bool, items: seq<CommandBatch>, a: Snapshot, b: Snapshot, trail: seq<Snapshot>,
      errors: seq<CommandError>, n: nat)
  {
    && |trail| == n + 1 && trail[0] == a && trail[n] == b
    && exists answers :: Reported(durable, items, trail, errors, n, answers)
  }

  ghost predicate Led(durable: bool, items: seq<CommandBatch>, a: Snapshot, b: Snapshot, trail: seq<Snapshot>,
      errors: seq<CommandError>)
  {
    LedTo(durable, items, a, b, trail, errors, |items|)
  }

  lemma LedStarts(durable: bool, items: seq<CommandBatch>, a: Snapshot)
    ensures LedTo(durable, items, a, a, [a], [], 0)
  {
    assert Reported(durable, items, [a], [], 0, []);
  }

  lemma LedNext(durable: bool, items: seq<CommandBatch>, a: Snapshot, b: Snapshot, d: Snapshot,
      trail: seq<Snapshot>, errors: seq<CommandError>, more: seq<CommandError>, k: nat)
    requires k < |items| && LedTo(durable, items, a, b, trail, errors, k)
    requires Done(durable, items[k], b, d, more) && AllQuiet(d.shard)
    ensures LedTo(durable, items, a, d, trail + [d], errors + more, k + 1)
  {
    hide Done, AllQuiet;
    var answers :| Reported(durable, items, trail, errors, k, answers);
    var all, further := answers + [more], trail + [d];
    assert all[..k] == answers;
    forall j | 0 <= j < k + 1 ensures DoneAt(durable, items, further, all, j) {
      if j < k { assert DoneAt(durable, items, trail, answers, j); }
    }
    assert Reported(durable, items, further, errors + more, k + 1, all);
  }

  lemma LedTwice(durable: bool, xs: seq<CommandBatch>, ys: seq<CommandBatch>, a: Snapshot, b: Snapshot, d: Snapshot,
      trail: seq<Snapshot>, more: seq<Snapshot>, errors: seq<CommandError>, further: seq<CommandError>)
    requires Led(durable, xs, a, b, trail, errors) && Led(durable, ys, b, d, more, further)
    ensures |more| > 0 && Led(durable, xs + ys, a, d, trail + more[1..], errors + further)
  {
    hide Done, AllQuiet;
    var m := |xs|;
    var p :| Reported(durable, xs, trail, errors, m, p);
    var q :| Reported(durable, ys, more, further, |ys|, q);
    var whole, all := trail + more[1..], p + q;
    FlatConcat(p, q);
    forall j: nat | j <= |ys| ensures whole[m + j] == more[j] {}
    forall j | 0 <= j < m + |ys| ensures DoneAt(durable, xs + ys, whole, all, j) {
      if j < m {
        assert DoneAt(durable, xs, trail, p, j);
      } else {
        assert DoneAt(durable, ys, more, q, j - m);
        assert whole[m + (j - m)] == more[j - m] && whole[m + (j - m + 1)] == more[j - m + 1];
      }
    }
    assert Reported(durable, xs + ys, whole, errors + further, m + |ys|, all);
  }

  lemma {:induction false} FlatConcat(p: seq<seq<CommandError>>, q: seq<seq<CommandError>>)
    ensures Flat(p + q) == Flat(p) + Flat(q)
  {
    if q == [] {
      assert p + q == p;
    } else {
      var n := |q| - 1;
      FlatConcat(p, q[..n]);
      assert (p + q)[..|p| + n] == p + q[..n] && (p + q)[|p| + n] == q[n];
      var x, y := Flat(p), Flat(q[..n]);
      assert x + y + q[n] == x + (y + q[n]);
    }
  }
}
