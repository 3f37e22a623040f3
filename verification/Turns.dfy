/** Who is served when a queue is driven: the consumers in turn, each as far as its credit and what the
    ones before it left go. */
module Turns {
  import opened Words
  import opened Kernels
  import opened IntrusiveList
  import opened QueueSpec
  import opened Deliveries
  import opened SessionSpec
  import opened Runs
  import opened ShardSpec

  /** The consumer whose turn it is. */
  function Turn(ids: seq<nat>, start: nat, i: nat): (c: nat)
    requires |ids| > 0
    ensures c in ids
  {
    ids[(start + i) % |ids|]
  }

  /** A round visits nobody twice. */
  lemma TurnsDiffer(ids: seq<nat>, start: nat, i: nat, j: nat)
    requires Distinct(ids) && i < j < |ids|
    ensures Turn(ids, start, i) != Turn(ids, start, j)
  {
    var n := |ids|;
    var a, b := start + i, start + j;
    Division(a, n);
    Division(b, n);
    MultiplesApart(n, b / n, a / n);
  }

  lemma MultiplesApart(n: nat, p: int, q: int)
    ensures p == q || n * p >= n * q + n || n * q >= n * p + n
  {
    assert n * (p - q) == n * p - n * q && n * (q - p) == n * q - n * p;
    if p > q {
      Words.Multiple(n, p - q);
    } else if p < q {
      Words.Multiple(n, q - p);
    }
  }

  /** What a session takes of `ready` messages: as many as it has credit for, all if it has no limit. */
  function Share(s: Session, ready: nat): (n: nat)
    ensures n <= ready
  {
    if s.credit.mode.Unlimited? then ready else Min(s.credit.Available(), ready)
  }

  /** How many messages a consumer gained. */
  ghost function GainOf(a: Shard, b: Shard, c: nat): (n: int) {
    if c in a.consumers && c in b.consumers
    then |b.consumers[c].session.list| - |a.consumers[c].session.list|
    else 0
  }

  /** How many the first `i` consumers of the round gained. */
  ghost function GainsBefore(a: Shard, b: Shard, ids: seq<nat>, start: nat, i: nat): (n: int)
    requires |ids| > 0
  {
    if i == 0 then 0 else GainsBefore(a, b, ids, start, i - 1) + GainOf(a, b, Turn(ids, start, i - 1))
  }

  /** All ready messages in the order in which the queue hands them out. */
  ghost function Service(q: Queue): (order: seq<nat>)
    requires q.head <= |q.states|
  {
    Delivered(q, ReadyCount(q))
  }

  /** The consumer at position `i` of the round gained what its credit allows of what the ones before it
      left, and got the next messages of the service order under its next tags. */
  ghost predicate TurnServed(a: Shard, b: Shard, q: nat, ids: seq<nat>, start: nat, i: nat)
    requires q in a.queues && |ids| > 0
  {
    var queue, c, before := a.queues[q].queue, Turn(ids, start, i), GainsBefore(a, b, ids, start, i);
    && c in a.consumers && c in b.consumers && queue.head <= |queue.states|
    && 0 <= before <= ReadyCount(queue) == |Service(queue)|
    && GainOf(a, b, c) == Share(a.consumers[c].session, ReadyCount(queue) - before)
    && b.consumers[c].session ==
      Receive(a.consumers[c].session, Service(queue)[before..before + GainOf(a, b, c)])
  }

  /** Queue `q` was driven: its consumers were served in turn, starting with the one whose turn it was, and
      the turn moved on by one if anything was delivered. */
  ghost predicate Dealt(a: Shard, b: Shard, q: nat) {
    q in a.queues ==>
      && q in b.queues && a.queues[q].queue.head <= |a.queues[q].queue.states|
      && var ids, start := a.queues[q].consumers, a.queues[q].nextIndex;
      if ids == [] then b.queues[q] == a.queues[q] else
      && (forall i: nat :: i < |ids| ==> TurnServed(a, b, q, ids, start, i))
      && var total := GainsBefore(a, b, ids, start, |ids|);
      && total >= 0 && b.queues[q].queue == Deliver(a.queues[q].queue, total)
      && b.queues[q].nextIndex == if total == 0 then start else (start + 1) % |ids|
  }

  // ---- The same, step by step

  /** One consumer is served. */
  ghost function DealtOne(sh: Shard, c: nat): (r: Shard) {
    if c !in sh.consumers || sh.consumers[c].queueId !in sh.queues then sh else
      var queue, s := sh.queues[sh.consumers[c].queueId].queue, sh.consumers[c].session;
      if queue.head > |queue.states| then sh else
        var n := Share(s, ReadyCount(queue));
        Put(sh, c, Deliver(queue, n), Receive(s, Delivered(queue, n)))
  }

  /** The first `i` consumers of a round are served. */
  ghost function DealtRound(sh: Shard, ids: seq<nat>, start: nat, i: nat): (r: Shard)
    requires |ids| > 0
  {
    if i == 0 then sh else DealtOne(DealtRound(sh, ids, start, i - 1), Turn(ids, start, i - 1))
  }

  /** How many messages the first `i` consumers of a round take. */
  ghost function Taking(sh: Shard, ids: seq<nat>, start: nat, i: nat, ready: nat): (n: nat)
    requires |ids| > 0
    ensures n <= ready
  {
    if i == 0 then 0 else
      var before, c := Taking(sh, ids, start, i - 1, ready), Turn(ids, start, i - 1);
      before + if c in sh.consumers then Share(sh.consumers[c].session, ready - before) else 0
  }

  /** The list has each consumer once, and all of them belong to the queue. */
  ghost predicate Roster(sh: Shard, q: nat, ids: seq<nat>) {
    && q in sh.queues && QueueSpec.Valid(sh.queues[q].queue) && |ids| > 0 && Distinct(ids)
    && forall c :: c in ids ==> Attached(sh, c, q)
  }

  /** Where a round stands after `i` consumers. */
  ghost predicate RoundStands(a: Shard, b: Shard, q: nat, ids: seq<nat>, start: nat, i: nat)
    requires Roster(a, q, ids)
  {
    var queue := a.queues[q].queue;
    var ready := ReadyCount(queue);
    && q in b.queues && b.queues[q].queue == Deliver(queue, Taking(a, ids, start, i, ready))
    && b.consumers.Keys == a.consumers.Keys
    && (forall j: nat :: i <= j < |ids| ==> Untouched(a, b, ids, start, j))
    && (forall j: nat :: j < i ==> Slice(a, b, q, ids, start, j))
  }

  ghost predicate Untouched(a: Shard, b: Shard, ids: seq<nat>, start: nat, j: nat)
    requires |ids| > 0
  {
    var c := Turn(ids, start, j);
    c in a.consumers && c in b.consumers && b.consumers[c] == a.consumers[c]
  }

  /** The consumer at position `j` got its slice of the service order. */
  ghost predicate Slice(a: Shard, b: Shard, q: nat, ids: seq<nat>, start: nat, j: nat)
    requires Roster(a, q, ids)
  {
    var queue, c := a.queues[q].queue, Turn(ids, start, j);
    var ready := ReadyCount(queue);
    var from, to := Taking(a, ids, start, j, ready), Taking(a, ids, start, j + 1, ready);
    && c in a.consumers && c in b.consumers && |Service(queue)| == ready && from <= to
    && b.consumers[c].session == Receive(a.consumers[c].session, Service(queue)[from..to])
  }

  lemma ServiceParts(q: Queue, m: nat, n: nat)
    requires QueueSpec.Valid(q) && m + n <= ReadyCount(q)
    ensures |Service(q)| == ReadyCount(q) && QueueSpec.Valid(Deliver(q, m))
    ensures Delivered(Deliver(q, m), n) == Service(q)[m..m + n]
    ensures Deliver(Deliver(q, m), n) == Deliver(q, m + n)
    ensures ReadyCount(Deliver(q, m)) == ReadyCount(q) - m
  {
    hide Delivered, Deliver, ReadyCount, QueueSpec.Valid;
    HeadFits(q);
    DeliverTwice(q, m, n);
    DeliverTwice(q, m + n, ReadyCount(q) - (m + n));
    DeliveredAre(q, m);
    DeliveredAre(q, m + n);
    DeliveredAre(q, ReadyCount(q));
    ReadyLeft(q, m);
    assert Delivered(q, m + n) == Service(q)[..m + n];
  }

  lemma ReadyLeft(q: Queue, m: nat)
    requires QueueSpec.Valid(q) && m <= ReadyCount(q)
    ensures ReadyCount(Deliver(q, m)) == ReadyCount(q) - m
  {
    hide Count, Delivered;
    DeliverCounts(q, m);
  }

  lemma {:induction false} RoundLeads(a: Shard, q: nat, ids: seq<nat>, start: nat, i: nat)
    requires Roster(a, q, ids) && i <= |ids|
    ensures RoundStands(a, DealtRound(a, ids, start, i), q, ids, start, i)
  {
    hide Roster, RoundStands;
    if i == 0 {
      RoundStarts(a, q, ids, start);
    } else {
      RoundLeads(a, q, ids, start, i - 1);
      RoundStep(a, DealtRound(a, ids, start, i - 1), q, ids, start, i - 1);
    }
  }

  lemma RoundStarts(a: Shard, q: nat, ids: seq<nat>, start: nat)
    requires Roster(a, q, ids)
    ensures RoundStands(a, a, q, ids, start, 0)
  {
    hide Deliver, Delivered, QueueSpec.Valid, ReadyCount;
    DeliverBounded(a.queues[q].queue, 0);
    forall j: nat | j < |ids| ensures Untouched(a, a, ids, start, j) { assert Attached(a, Turn(ids, start, j), q); }
  }

  lemma RoundStep(a: Shard, b: Shard, q: nat, ids: seq<nat>, start: nat, i: nat)
    requires Roster(a, q, ids) && i < |ids| && RoundStands(a, b, q, ids, start, i)
    ensures RoundStands(a, DealtOne(b, Turn(ids, start, i)), q, ids, start, i + 1)
  {
    hide Deliver, Delivered, QueueSpec.Valid, ReadyCount, Receive, Turn, Service;
    var queue, c := a.queues[q].queue, Turn(ids, start, i);
    var ready := ReadyCount(queue);
    var m := Taking(a, ids, start, i, ready);
    assert Attached(a, c, q) && Untouched(a, b, ids, start, i);
    var n := Share(a.consumers[c].session, ready - m);
    ServiceParts(queue, m, n);
    HeadFits(b.queues[q].queue);
    var d := DealtOne(b, c);
    var left, s := b.queues[q].queue, b.consumers[c].session;
    assert d == Put(b, c, Deliver(left, n), Receive(s, Delivered(left, n)));
    forall j: nat | i + 1 <= j < |ids| ensures Untouched(a, d, ids, start, j) {
      assert Untouched(a, b, ids, start, j);
      TurnsDiffer(ids, start, i, j);
    }
    forall j: nat | j < i + 1 ensures Slice(a, d, q, ids, start, j) {
      if j < i {
        assert Slice(a, b, q, ids, start, j);
        TurnsDiffer(ids, start, j, i);
      }
    }
  }

  lemma HeadFits(q: Queue)
    requires QueueSpec.Valid(q)
    ensures q.head <= |q.states|
  {
  }

  // ---- The law of the round

  lemma {:induction false} GainsAreTaken(a: Shard, b: Shard, q: nat, ids: seq<nat>, start: nat, i: nat)
    requires Roster(a, q, ids) && i <= |ids| && RoundStands(a, b, q, ids, start, |ids|)
    ensures GainsBefore(a, b, ids, start, i) == Taking(a, ids, start, i, ReadyCount(a.queues[q].queue))
  {
    hide Roster, ReadyCount, Turn, Service, Receive;
    if i == 0 {
    } else {
      GainsAreTaken(a, b, q, ids, start, i - 1);
      SliceGain(a, b, q, ids, start, i - 1);
    }
  }

  lemma SliceGain(a: Shard, b: Shard, q: nat, ids: seq<nat>, start: nat, j: nat)
    requires Roster(a, q, ids) && j < |ids| && Slice(a, b, q, ids, start, j)
    ensures var ready := ReadyCount(a.queues[q].queue);
      GainOf(a, b, Turn(ids, start, j)) == Taking(a, ids, start, j + 1, ready) - Taking(a, ids, start, j, ready)
  {
    hide ReadyCount, Turn, Service;
  }

  /** A round that stands completed was dealt. */
  lemma RoundIsDealt(a: Shard, b: Shard, q: nat)
    requires q in a.queues && Roster(a, q, a.queues[q].consumers)
    requires RoundStands(a, b, q, a.queues[q].consumers, a.queues[q].nextIndex, |a.queues[q].consumers|)
    requires var ids, start, ready := a.queues[q].consumers, a.queues[q].nextIndex, ReadyCount(a.queues[q].queue);
      b.queues[q].nextIndex ==
        if Taking(a, ids, start, |ids|, ready) == 0 then start else (start + 1) % |ids|
    ensures Dealt(a, b, q)
  {
    hide ReadyCount, Turn, Service, Receive, Deliver, GainOf, GainsBefore, Taking;
    var ids, start := a.queues[q].consumers, a.queues[q].nextIndex;
    HeadFits(a.queues[q].queue);
    GainsAreTaken(a, b, q, ids, start, |ids|);
    forall i: nat | i < |ids| ensures TurnServed(a, b, q, ids, start, i) {
      assert Slice(a, b, q, ids, start, i);
      GainsAreTaken(a, b, q, ids, start, i);
      SliceGain(a, b, q, ids, start, i);
      OneTaken(a, ids, start, i, ReadyCount(a.queues[q].queue));
    }
  }

  lemma OneTaken(a: Shard, ids: seq<nat>, start: nat, i: nat, ready: nat)
    requires |ids| > 0 && Turn(ids, start, i) in a.consumers
    ensures var m := Taking(a, ids, start, i, ready);
      Taking(a, ids, start, i + 1, ready) - m == Share(a.consumers[Turn(ids, start, i)].session, ready - m)
  {
  }

  /** Serving one consumer as far as possible deals it its share. */
  lemma ShareIsTaken(a: Shard, b: Shard, c: nat, total: nat)
    requires c in a.consumers && a.consumers[c].queueId in a.queues && Drained(a, b, c, total)
    requires c in b.consumers && a.consumers[c].queueId in b.queues && Served(b, c, a.consumers[c].queueId)
    requires SessionOk(a.consumers[c].session) && SessionOk(b.consumers[c].session)
    ensures total == Share(a.consumers[c].session, ReadyCount(a.queues[a.consumers[c].queueId].queue))
  {
    hide ReadyCount, OnlyServed, OnlyQueue;
  }

  /** One consumer has been handed the next `n` messages. */
  ghost function HandedOn(sh: Shard, c: nat, n: nat): (r: Shard)
    requires c in sh.consumers && sh.consumers[c].queueId in sh.queues
    requires var queue := sh.queues[sh.consumers[c].queueId].queue; queue.head <= |queue.states|
  {
    var queue, s := sh.queues[sh.consumers[c].queueId].queue, sh.consumers[c].session;
    Put(sh, c, Deliver(queue, n), Receive(s, Delivered(queue, n)))
  }

  lemma HandedNothing(sh: Shard, c: nat)
    requires c in sh.consumers && sh.consumers[c].queueId in sh.queues
    requires QueueSpec.Valid(sh.queues[sh.consumers[c].queueId].queue)
    ensures HandedOn(sh, c, 0) == sh
  {
    hide Deliver, Delivered;
    DeliverBounded(sh.queues[sh.consumers[c].queueId].queue, 0);
    NothingReceived(sh.consumers[c].session);
    assert HandedOn(sh, c, 0).queues == sh.queues && HandedOn(sh, c, 0).consumers == sh.consumers;
  }

  lemma ReceiveTwice(s: Session, a: seq<nat>, b: seq<nat>)
    ensures Receive(Receive(s, a), b) == Receive(s, a + b)
  {
    hide Tagged;
    TaggedConcat(s.nextTag, a, b);
    assert s.list + Tagged(s.nextTag, a) + Tagged(s.nextTag + |a|, b) == s.list + Tagged(s.nextTag, a + b);
  }

  /** One more batch continues the service order. */
  lemma HandedMore(a: Shard, b: Shard, c: nat, total: nat, max: nat)
    requires c in a.consumers && a.consumers[c].queueId in a.queues
    requires QueueSpec.Valid(a.queues[a.consumers[c].queueId].queue) && b == HandedOn(a, c, total)
    ensures var queue, s := b.queues[a.consumers[c].queueId].queue, b.consumers[c].session;
      && queue.head <= |queue.states|
      && Put(b, c, DeliverQueue(queue, s, max), Receive(s, Handed(queue, s, max))) ==
        HandedOn(a, c, total + |Handed(queue, s, max)|)
  {
    hide Deliver, Delivered, QueueSpec.Valid, ReadyCount, Receive;
    var q := a.consumers[c].queueId;
    var first, s0 := a.queues[q].queue, a.consumers[c].session;
    DeliverKept(first, total);
    var queue, s := b.queues[q].queue, b.consumers[c].session;
    var n := |Handed(queue, s, max)|;
    HandedIsDelivered(queue, s, max);
    DeliverTwice(first, total, n);
    ReceiveTwice(s0, Delivered(first, total), Delivered(queue, n));
    var x, y := Put(b, c, Deliver(queue, n), Receive(s, Delivered(queue, n))), HandedOn(a, c, total + n);
    assert x.queues == y.queues && x.consumers == y.consumers;
  }

  lemma DeliverKept(q: Queue, n: nat)
    requires QueueSpec.Valid(q)
    ensures q.head <= |q.states| && QueueSpec.Valid(Deliver(q, n)) && Deliver(q, n).head <= |Deliver(q, n).states|
  {
    hide Delivered;
    DeliverKeeps(q, n);
  }

  lemma HandedIsDelivered(q: Queue, s: Session, max: nat)
    requires QueueSpec.Valid(q)
    ensures q.head <= |q.states|
    ensures var n := |Handed(q, s, max)|;
      Handed(q, s, max) == Delivered(q, n) && DeliverQueue(q, s, max) == Deliver(q, n)
  {
    hide Deliver, Delivered, QueueSpec.Valid, ReadyCount;
    HeadFits(q);
    DeliverBounded(q, Grant(s, max));
    DeliveredAre(q, Grant(s, max));
  }

  /** A consumer served as far as possible has been dealt its share. */
  lemma HandedAll(a: Shard, b: Shard, c: nat, total: nat)
    requires c in a.consumers && a.consumers[c].queueId in a.queues && Drained(a, b, c, total)
    requires QueueSpec.Valid(a.queues[a.consumers[c].queueId].queue)
    requires c in b.consumers && a.consumers[c].queueId in b.queues && Served(b, c, a.consumers[c].queueId)
    requires SessionOk(a.consumers[c].session) && SessionOk(b.consumers[c].session)
    requires b == HandedOn(a, c, total)
    ensures b == DealtOne(a, c)
  {
    hide Deliver, Delivered, ReadyCount, Drained, Served, SessionOk;
    ShareIsTaken(a, b, c, total);
  }

  // ---- Driving a queue

  /** The queue and the sessions are where one round leaves them, and the turn has moved on if anything was
      delivered. */
  ghost predicate RoundDone(a: Shard, b: Shard, q: nat)
    requires q in a.queues && |a.queues[q].consumers| > 0
  {
    var r := DealtRound(a, a.queues[q].consumers, a.queues[q].nextIndex, |a.queues[q].consumers|);
    && q in b.queues && q in r.queues && b.consumers == r.consumers && b.queues[q].queue == r.queues[q].queue
    && b.queues[q].nextIndex ==
      if ReadyCount(b.queues[q].queue) == ReadyCount(a.queues[q].queue) then a.queues[q].nextIndex
      else (a.queues[q].nextIndex + 1) % |a.queues[q].consumers|
  }

  lemma RosterOf(sh: Shard, q: nat)
    requires ShardOk(sh) && q in sh.queues && |sh.queues[q].consumers| > 0
    ensures Roster(sh, q, sh.queues[q].consumers)
  {
    hide QueueSpec.Valid, SessionOk, Owns, Apart;
    assert WorldOk(WorldOf(sh, q));
  }

  lemma DoneIsDealt(a: Shard, b: Shard, q: nat)
    requires ShardOk(a) && q in a.queues && |a.queues[q].consumers| > 0 && RoundDone(a, b, q)
    ensures Dealt(a, b, q)
  {
    hide ShardOk, ReadyCount, Deliver, Roster, DealtRound, Slice, Untouched, Taking;
    var ids, start, queue := a.queues[q].consumers, a.queues[q].nextIndex, a.queues[q].queue;
    RosterOf(a, q);
    RoundLeads(a, q, ids, start, |ids|);
    StandsToo(a, DealtRound(a, ids, start, |ids|), b, q, ids, start, |ids|);
    TakenIsGone(a, q, ids, start, b.queues[q].queue);
    RoundIsDealt(a, b, q);
  }

  lemma StandsToo(a: Shard, r: Shard, b: Shard, q: nat, ids: seq<nat>, start: nat, i: nat)
    requires Roster(a, q, ids) && RoundStands(a, r, q, ids, start, i)
    requires q in b.queues && b.consumers == r.consumers && b.queues[q].queue == r.queues[q].queue
    ensures RoundStands(a, b, q, ids, start, i) && a.queues[q].queue.head <= |a.queues[q].queue.states|
  {
    hide Deliver, ReadyCount, Taking, Turn, Service, Receive;
    forall j: nat | i <= j < |ids| ensures Untouched(a, b, ids, start, j) { assert Untouched(a, r, ids, start, j); }
    forall j: nat | j < i ensures Slice(a, b, q, ids, start, j) { assert Slice(a, r, q, ids, start, j); }
  }

  lemma TakenIsGone(a: Shard, q: nat, ids: seq<nat>, start: nat, queue: Queue)
    requires Roster(a, q, ids)
    requires var n := Taking(a, ids, start, |ids|, ReadyCount(a.queues[q].queue));
      a.queues[q].queue.head <= |a.queues[q].queue.states| && queue == Deliver(a.queues[q].queue, n)
    ensures var ready := ReadyCount(a.queues[q].queue);
      Taking(a, ids, start, |ids|, ready) == 0 <==> ReadyCount(queue) == ready
  {
    hide ReadyCount, Deliver, Taking, QueueSpec.Valid;
    ReadyLeft(a.queues[q].queue, Taking(a, ids, start, |ids|, ReadyCount(a.queues[q].queue)));
  }

  lemma NobodyDealt(sh: Shard, q: nat)
    requires ShardOk(sh) && (q in sh.queues ==> sh.queues[q].consumers == [])
    ensures Dealt(sh, sh, q)
  {
    hide SessionOk, Owns, Apart;
    if q in sh.queues { assert WorldOk(WorldOf(sh, q)); }
  }

  /** Queue `q` was served: deliveries from it, dealt in turn, and nothing else. */
  ghost predicate ServedOn(a: Shard, b: Shard, q: nat) {
    OnlyQueue(a, b, q) && Extended(a, b) && Dealt(a, b, q)
  }

  // ---- Driving many queues

  ghost predicate AllDealt(a: Shard, b: Shard) {
    forall q :: q in a.queues ==> Dealt(a, b, q)
  }

  /** The queue and its consumers are the same in both. */
  ghost predicate SameAround(a: Shard, b: Shard, q: nat) {
    && q in a.queues && q in b.queues && b.queues[q] == a.queues[q]
    && forall c :: c in a.queues[q].consumers ==>
      c in a.consumers && c in b.consumers && b.consumers[c] == a.consumers[c]
  }

  /** Whether a queue was dealt depends on the queue and its consumers only. */
  lemma DealtAround(a: Shard, b: Shard, a': Shard, b': Shard, q: nat)
    requires Dealt(a, b, q) && SameAround(a, a', q) && q in b.queues && q in b'.queues && b'.queues[q] == b.queues[q]
    requires forall c :: c in a.queues[q].consumers ==>
      c in b.consumers && c in b'.consumers && b'.consumers[c] == b.consumers[c]
    ensures Dealt(a', b', q)
  {
    hide Deliver, Service, Receive, Share, Turn, GainOf, GainsBefore, TurnServed, ReadyCount;
    var ids, start := a.queues[q].consumers, a.queues[q].nextIndex;
    if ids != [] {
      SameGains(a, b, a', b', q, ids, start, |ids|);
      forall i: nat | i < |ids| ensures TurnServed(a', b', q, ids, start, i) {
        assert TurnServed(a, b, q, ids, start, i);
        SameGains(a, b, a', b', q, ids, start, i);
        SameTurn(a, b, a', b', q, ids, start, i);
      }
    }
  }

  lemma SameTurn(a: Shard, b: Shard, a': Shard, b': Shard, q: nat, ids: seq<nat>, start: nat, i: nat)
    requires SameAround(a, a', q) && |ids| > 0 && ids == a.queues[q].consumers && TurnServed(a, b, q, ids, start, i)
    requires GainsBefore(a, b, ids, start, i) == GainsBefore(a', b', ids, start, i)
    requires forall c :: c in ids ==> c in b.consumers && c in b'.consumers && b'.consumers[c] == b.consumers[c]
    ensures TurnServed(a', b', q, ids, start, i)
  {
    hide Service, Receive, Share, GainsBefore, ReadyCount;
  }

  lemma {:induction false} SameGains(a: Shard, b: Shard, a': Shard, b': Shard, q: nat, ids: seq<nat>, start: nat,
      i: nat)
    requires SameAround(a, a', q) && |ids| > 0 && ids == a.queues[q].consumers
    requires forall c :: c in ids ==> c in b.consumers && c in b'.consumers && b'.consumers[c] == b.consumers[c]
    ensures GainsBefore(a, b, ids, start, i) == GainsBefore(a', b', ids, start, i)
  {
    if i == 0 {
    } else {
      SameGains(a, b, a', b', q, ids, start, i - 1);
    }
  }

  // ---- Whose turn it is after a consumer left

  /** The turn stays with the consumer that had it if a later one leaves. If the one that has it or an
      earlier one leaves, it passes to the next in line, so in the latter case somebody is passed over. */
  lemma TurnAfterLeaving(sh: Shard, c: nat, queue: Queue)
    requires Registered(sh) && c in sh.consumers
    ensures sh.consumers[c].queueId in sh.queues
    ensures var q := sh.consumers[c].queueId;
      var list, r, i := sh.queues[q].consumers, Removed(sh, c, queue).queues[q], sh.queues[q].nextIndex;
      c in list && |r.consumers| == |list| - 1 && (|list| > 1 && i < |list| ==>
        var k := Position(list, c);
        Turn(r.consumers, r.nextIndex, 0) ==
          if k > i then list[i] else if i + 1 < |list| then list[i + 1] else if k > 0 then list[0] else list[1])
  {
    hide WithoutId, Registered, Turn;
    Lists(sh, c);
    var q := sh.consumers[c].queueId;
    var list, r := sh.queues[q].consumers, Removed(sh, c, queue).queues[q];
    WithoutIdIsRemoval(list, Position(list, c));
    if |list| > 1 && sh.queues[q].nextIndex < |list| { FirstTurn(r.consumers, r.nextIndex); }
  }

  lemma FirstTurn(ids: seq<nat>, start: nat)
    requires start < |ids|
    ensures Turn(ids, start, 0) == ids[start]
  {
    SmallRemainder(start, |ids|);
  }

  lemma SmallRemainder(x: nat, n: nat)
    requires x < n
    ensures (x + 0) % n == x
  {
  }
}
