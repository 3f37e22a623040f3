/** The registries of one shard as values: queues with their attached consumers, and consumers
    with their sessions. */
module ShardSpec {
  import opened Words
  import opened Kernels
  import opened IntrusiveList
  import opened QueueSpec
  import opened Deliveries
  import opened SessionSpec
  import opened Runs

  datatype QueueState = QueueState(queue: Queue, consumers: seq<nat>, nextIndex: nat)

  datatype Consumer = Consumer(queueId: nat, session: Session)

  datatype Shard = Shard(queues: map<nat, QueueState>, consumers: map<nat, Consumer>)

  const EMPTY_SHARD := Shard(map[], map[])

  predicate Attached(sh: Shard, c: nat, q: nat) {
    c in sh.consumers && sh.consumers[c].queueId == q
  }

  /** The two registries agree: a queue lists exactly the consumers that name it, once each, and
      no listed consumer is cancelled. */
  ghost predicate Registered(sh: Shard) {
    && (forall q :: q in sh.queues ==> Distinct(sh.queues[q].consumers))
    && (forall q, c :: q in sh.queues && c in sh.queues[q].consumers ==> Attached(sh, c, q))
    && (forall c :: c in sh.consumers ==>
      var q := sh.consumers[c].queueId; q in sh.queues && c in sh.queues[q].consumers)
    && (forall c :: c in sh.consumers ==> !sh.consumers[c].session.cancelled)
  }

  ghost function SessionsOf(sh: Shard, list: seq<nat>): (r: seq<Session>)
    requires forall k :: 0 <= k < |list| ==> list[k] in sh.consumers
    ensures |r| == |list| && forall k :: 0 <= k < |r| ==> r[k] == sh.consumers[list[k]].session
  {
    seq(|list|, k requires 0 <= k < |list| => sh.consumers[list[k]].session)
  }

  /** A queue and the sessions attached to it. */
  ghost function WorldOf(sh: Shard, q: nat): (w: World)
    requires Registered(sh) && q in sh.queues
  {
    ListedExist(sh, q);
    World(sh.queues[q].queue, SessionsOf(sh, sh.queues[q].consumers))
  }

  lemma ListedExist(sh: Shard, q: nat)
    requires Registered(sh) && q in sh.queues
    ensures forall k :: 0 <= k < |sh.queues[q].consumers| ==> Attached(sh, sh.queues[q].consumers[k], q)
  {
    forall k | 0 <= k < |sh.queues[q].consumers| ensures Attached(sh, sh.queues[q].consumers[k], q) {
      assert sh.queues[q].consumers[k] in sh.queues[q].consumers;
    }
  }

  ghost predicate ShardOk(sh: Shard) {
    Registered(sh) && forall q :: q in sh.queues ==> WorldOk(WorldOf(sh, q))
  }

  /** The consumer cannot take more, or there is nothing more to take. */
  ghost predicate Served(sh: Shard, c: nat, q: nat)
    requires c in sh.consumers && q in sh.queues
  {
    sh.consumers[c].session.credit.Available() == 0 || ReadyCount(sh.queues[q].queue) == 0
  }

  /** No ready message waits while an attached consumer has credit. */
  ghost predicate Quiet(sh: Shard, q: nat)
    requires q in sh.queues
  {
    forall c :: c in sh.queues[q].consumers ==> c in sh.consumers && Served(sh, c, q)
  }

  ghost predicate AllQuiet(sh: Shard) {
    forall q :: q in sh.queues ==> Quiet(sh, q)
  }

  /** The same messages, and what was settled stays settled. */
  ghost predicate SettledKept(a: Queue, b: Queue) {
    |a.states| == |b.states| && forall i :: 0 <= i < |a.states| && a.states[i] == Acked ==> b.states[i] == Acked
  }

  /** Only the queue `q` and its consumers' sessions may differ; nobody is attached or detached. */
  ghost predicate OnlyQueue(a: Shard, b: Shard, q: nat) {
    && a.queues.Keys == b.queues.Keys && a.consumers.Keys == b.consumers.Keys
    && (forall x :: x in a.queues && x != q ==> b.queues[x] == a.queues[x])
    && (q in a.queues ==>
      b.queues[q].consumers == a.queues[q].consumers && SettledKept(a.queues[q].queue, b.queues[q].queue))
    && (forall c :: c in a.consumers ==> b.consumers[c].queueId == a.consumers[c].queueId)
    && (forall c :: c in a.consumers && a.consumers[c].queueId != q ==> b.consumers[c] == a.consumers[c])
  }

  /** The session received further messages, under its next tags, and nothing else. */
  ghost predicate Gained(a: Session, b: Session) {
    |a.list| <= |b.list| && b == Receive(a, Messages(b.list[|a.list|..]))
  }

  /** Some ready messages became inflight, and nothing else. */
  ghost predicate OnlyServed(a: Queue, b: Queue) {
    && |a.states| == |b.states| && b.redelivered == a.redelivered && b.retryBlocks == a.retryBlocks
    && (forall i :: 0 <= i < |a.states| ==>
      b.states[i] == a.states[i] || (b.states[i] == Inflight && (a.states[i] == Ready || a.states[i] == SparseReady)))
  }

  /** Deliveries, and nothing else, lead from one state to the other. */
  ghost predicate Extended(a: Shard, b: Shard) {
    && (forall c :: c in a.consumers ==> c in b.consumers && Gained(a.consumers[c].session, b.consumers[c].session))
    && (forall q :: q in a.queues ==> q in b.queues && OnlyServed(a.queues[q].queue, b.queues[q].queue))
  }

  lemma GainedOnce(s: Session, msgs: seq<nat>)
    ensures Gained(s, Receive(s, msgs)) && |Receive(s, msgs).list| == |s.list| + |msgs|
  {
    var r := Receive(s, msgs);
    assert r.list[|s.list|..] == Tagged(s.nextTag, msgs);
    TaggedMessages(s.nextTag, msgs);
  }

  lemma GainedTwice(a: Session, b: Session, d: Session)
    requires Gained(a, b) && Gained(b, d)
    ensures Gained(a, d)
  {
    hide Messages, Tagged;
    var x, y := Messages(b.list[|a.list|..]), Messages(d.list[|b.list|..]);
    var xs, ys := Tagged(a.nextTag, x), Tagged(b.nextTag, y);
    assert d.list == a.list + xs + ys && d.list[|a.list|..] == xs + ys;
    TaggedConcat(a.nextTag, x, y);
    TaggedMessages(a.nextTag, x + y);
    assert a.list + xs + ys == a.list + (xs + ys);
  }

  lemma OnlyServedTwice(a: Queue, b: Queue, d: Queue)
    requires OnlyServed(a, b) && OnlyServed(b, d)
    ensures OnlyServed(a, d)
  {
  }

  lemma ExtendedTwice(a: Shard, b: Shard, d: Shard)
    requires Extended(a, b) && Extended(b, d)
    ensures Extended(a, d)
  {
    hide Gained, OnlyServed;
    forall c | c in a.consumers ensures c in d.consumers && Gained(a.consumers[c].session, d.consumers[c].session) {
      GainedTwice(a.consumers[c].session, b.consumers[c].session, d.consumers[c].session);
    }
    forall q | q in a.queues ensures q in d.queues && OnlyServed(a.queues[q].queue, d.queues[q].queue) {
      OnlyServedTwice(a.queues[q].queue, b.queues[q].queue, d.queues[q].queue);
    }
  }

  lemma NothingGained(s: Session)
    ensures Gained(s, s)
  {
    assert s.list[|s.list|..] == [] && s.list + Tagged(s.nextTag, []) == s.list;
  }

  /** States with the same sessions and queues differ by no delivery at all. */
  lemma ExtendedSame(a: Shard, b: Shard)
    requires b.consumers == a.consumers
    requires forall q :: q in a.queues ==> q in b.queues && b.queues[q].queue == a.queues[q].queue
    ensures Extended(a, b)
  {
    hide Gained;
    forall c | c in a.consumers ensures Gained(a.consumers[c].session, b.consumers[c].session) {
      NothingGained(a.consumers[c].session);
    }
  }

  lemma OnlyQueueTwice(a: Shard, b: Shard, c: Shard, q: nat)
    requires OnlyQueue(a, b, q) && OnlyQueue(b, c, q)
    ensures OnlyQueue(a, c, q)
  {
  }

  ghost predicate QuietExcept(sh: Shard, q: nat) {
    forall x :: x in sh.queues && x != q ==> Quiet(sh, x)
  }

  /** Work on one queue leaves the others quiet. */
  lemma OthersStayQuiet(a: Shard, b: Shard, q: nat)
    requires Registered(a) && OnlyQueue(a, b, q) && QuietExcept(a, q)
    ensures QuietExcept(b, q) && (q in b.queues && Quiet(b, q) ==> AllQuiet(b)) && (q !in b.queues ==> AllQuiet(b))
  {
    forall x | x in b.queues && x != q ensures Quiet(b, x) {
      assert Quiet(a, x);
      forall c | c in b.queues[x].consumers ensures c in b.consumers && Served(b, c, x) {
        assert Attached(a, c, x) && Served(a, c, x);
      }
    }
  }

  // ---- Replacing one consumer's session and its queue

  function Put(sh: Shard, c: nat, queue: Queue, session: Session): (r: Shard)
    requires c in sh.consumers && sh.consumers[c].queueId in sh.queues
  {
    var q := sh.consumers[c].queueId;
    Shard(sh.queues[q := sh.queues[q].(queue := queue)], sh.consumers[c := Consumer(q, session)])
  }

  ghost function Position(list: seq<nat>, c: nat): (k: nat)
    requires c in list
    ensures k < |list| && list[k] == c
  {
    var k :| 0 <= k < |list| && list[k] == c;
    k
  }

  lemma PutRegistered(sh: Shard, c: nat, queue: Queue, session: Session)
    requires Registered(sh) && c in sh.consumers && !session.cancelled
    ensures Registered(Put(sh, c, queue, session))
    ensures SettledKept(sh.queues[sh.consumers[c].queueId].queue, queue) ==>
      OnlyQueue(sh, Put(sh, c, queue, session), sh.consumers[c].queueId)
  {
    var r := Put(sh, c, queue, session);
    forall q, x | q in r.queues && x in r.queues[q].consumers ensures Attached(r, x, q) {
      assert Attached(sh, x, q);
    }
  }

  /** The change seen from the queue's world: one session is replaced. */
  lemma PutWorld(sh: Shard, c: nat, queue: Queue, session: Session)
    requires Registered(sh) && c in sh.consumers && !session.cancelled
    ensures Registered(Put(sh, c, queue, session))
    ensures var q, r := sh.consumers[c].queueId, Put(sh, c, queue, session);
      var k := Position(sh.queues[q].consumers, c);
      && k < |WorldOf(sh, q).sessions| && WorldOf(sh, q).sessions[k] == sh.consumers[c].session
      && WorldOf(r, q) == World(queue, WorldOf(sh, q).sessions[k := session])
    ensures forall x :: x in sh.queues && x != sh.consumers[c].queueId ==>
      WorldOf(Put(sh, c, queue, session), x) == WorldOf(sh, x)
  {
    hide Registered;
    Lists(sh, c);
    PutRegistered(sh, c, queue, session);
    var q, r := sh.consumers[c].queueId, Put(sh, c, queue, session);
    var k := Position(sh.queues[q].consumers, c);
    ListedExist(sh, q);
    ListedExist(r, q);
    assert WorldOf(r, q).sessions == WorldOf(sh, q).sessions[k := session];
    forall x | x in sh.queues && x != q ensures WorldOf(r, x) == WorldOf(sh, x) {
      ListedExist(sh, x);
      ListedExist(r, x);
    }
  }

  lemma Lists(sh: Shard, c: nat)
    requires Registered(sh) && c in sh.consumers
    ensures var q := sh.consumers[c].queueId;
      q in sh.queues && c in sh.queues[q].consumers && Distinct(sh.queues[q].consumers)
    ensures !sh.consumers[c].session.cancelled
  {
  }

  lemma PutOk(sh: Shard, c: nat, queue: Queue, session: Session, k: nat)
    requires ShardOk(sh) && c in sh.consumers && !session.cancelled
    requires SettledKept(sh.queues[sh.consumers[c].queueId].queue, queue)
    requires var q := sh.consumers[c].queueId;
      k == Position(sh.queues[q].consumers, c) && WorldOk(World(queue, WorldOf(sh, q).sessions[k := session]))
    ensures ShardOk(Put(sh, c, queue, session)) && OnlyQueue(sh, Put(sh, c, queue, session), sh.consumers[c].queueId)
  {
    hide Registered, WorldOk, OnlyQueue;
    Lists(sh, c);
    PutRegistered(sh, c, queue, session);
    PutWorld(sh, c, queue, session);
  }

  // ---- What one consumer can do

  lemma DeliverPutOk(sh: Shard, c: nat, max: nat)
    requires ShardOk(sh) && c in sh.consumers
    ensures var q, s := sh.queues[sh.consumers[c].queueId].queue, sh.consumers[c].session;
      && q.head <= |q.states|
      && var r := Put(sh, c, DeliverQueue(q, s, max), Receive(s, Handed(q, s, max)));
      && ShardOk(r) && OnlyQueue(sh, r, sh.consumers[c].queueId)
      && |Handed(q, s, max)| == Min(Grant(s, max), ReadyCount(q))
      && ReadyCount(DeliverQueue(q, s, max)) == ReadyCount(q) - |Handed(q, s, max)|
      && OnlyServed(q, DeliverQueue(q, s, max))
  {
    hide Registered, WorldOk, OnlyQueue, ReadyCount, Handed, DeliverQueue;
    Lists(sh, c);
    var q, s := sh.queues[sh.consumers[c].queueId].queue, sh.consumers[c].session;
    var w := WorldOf(sh, sh.consumers[c].queueId);
    var k := Position(sh.queues[sh.consumers[c].queueId].consumers, c);
    PutWorld(sh, c, q, s);
    StepOk(w, DeliverStep(k, max));
    DeliverTakes(w, k, max);
    StepKeepsSettled(w, DeliverStep(k, max));
    PutOk(sh, c, DeliverQueue(q, s, max), Receive(s, Handed(q, s, max)), k);
  }

  lemma StepKeepsSettled(w: World, step: Step)
    requires WorldOk(w) && Enabled(w, step) && !step.PublishStep?
    ensures SettledKept(w.queue, Next(w, step).queue)
  {
    hide WorldOk, Next;
    StepMoves(w, step);
  }

  lemma DeliverTakes(w: World, k: nat, max: nat)
    requires WorldOk(w) && k < |w.sessions|
    ensures var q, s := w.queue, w.sessions[k];
      && q.head <= |q.states| && |Handed(q, s, max)| == Min(Grant(s, max), ReadyCount(q))
      && ReadyCount(DeliverQueue(q, s, max)) == ReadyCount(q) - |Handed(q, s, max)|
      && OnlyServed(q, DeliverQueue(q, s, max))
  {
    hide Delivered, Indexes, Count, StillHolding;
    var q, n := w.queue, Grant(w.sessions[k], max);
    if n > 0 {
      DeliveredAre(q, n);
      DeliverCounts(q, n);
      DeliveredWaiting(q, n);
    }
  }

  lemma SettlePutOk(sh: Shard, c: nat, tag: nat, mode: Mode, reason: NackReason, order: seq<nat>)
    requires ShardOk(sh) && c in sh.consumers && HasTag(sh.consumers[c].session.list, tag)
    requires multiset(order) == multiset(Messages(Taken(sh.consumers[c].session, tag, mode)))
    ensures var q, s := sh.consumers[c].queueId, sh.consumers[c].session;
      && q in sh.queues
      && var r := Put(sh, c, Disposed(sh.queues[q].queue, order, reason), Settle(s, tag, mode));
      && ShardOk(r) && OnlyQueue(sh, r, q) && SettleError(s, tag).None?
  {
    hide Registered, WorldOk, OnlyQueue, HasTag, Taken, Disposed, Settle;
    Lists(sh, c);
    var q, s := sh.queues[sh.consumers[c].queueId].queue, sh.consumers[c].session;
    var w := WorldOf(sh, sh.consumers[c].queueId);
    var k := Position(sh.queues[sh.consumers[c].queueId].consumers, c);
    PutWorld(sh, c, q, s);
    FailsUnlessHeld(w, k, tag);
    StepOk(w, SettleStep(k, tag, mode, reason, order));
    StillOpen(s, tag, mode);
    StepKeepsSettled(w, SettleStep(k, tag, mode, reason, order));
    PutOk(sh, c, Disposed(q, order, reason), Settle(s, tag, mode), k);
  }

  lemma FailsUnlessHeld(w: World, k: nat, tag: nat)
    requires WorldOk(w) && k < |w.sessions|
    ensures SettleError(w.sessions[k], tag).Some? <==> !HasTag(w.sessions[k].list, tag)
  {
    assert SessionOk(w.sessions[k]);
    FailsIffNotOutstanding(w.sessions[k], tag);
  }

  // ---- Serving one queue

  /** Consumer `c` has been served from its queue `q`, taking `total` messages, while all other
      consumers kept what they had. */
  ghost predicate Drained(a: Shard, b: Shard, c: nat, total: nat)
    requires c in a.consumers && a.consumers[c].queueId in a.queues
  {
    var q := a.consumers[c].queueId;
    && OnlyQueue(a, b, q) && (forall x :: x in a.consumers && x != c ==> b.consumers[x] == a.consumers[x])
    && b.queues[q].nextIndex == a.queues[q].nextIndex
    && ReadyCount(b.queues[q].queue) + total == ReadyCount(a.queues[q].queue)
    && Gained(a.consumers[c].session, b.consumers[c].session)
      && |b.consumers[c].session.list| == |a.consumers[c].session.list| + total
    && OnlyServed(a.queues[q].queue, b.queues[q].queue)
    && (total == 0 ==> a == b)
  }

  lemma DrainedOnce(a: Shard, b: Shard, c: nat, total: nat, max: nat)
    requires ShardOk(a) && ShardOk(b) && c in a.consumers && a.consumers[c].queueId in a.queues
    requires Drained(a, b, c, total)
    requires c in b.consumers && b.consumers[c].queueId in b.queues
    requires var q, s := b.queues[b.consumers[c].queueId].queue, b.consumers[c].session;
      q.head <= |q.states| && Handed(q, s, max) != []
    ensures var q, s := b.queues[b.consumers[c].queueId].queue, b.consumers[c].session;
      Drained(a, Put(b, c, DeliverQueue(q, s, max), Receive(s, Handed(q, s, max))), c, total + |Handed(q, s, max)|)
  {
    hide ShardOk, Handed, DeliverQueue, ReadyCount, SettledKept, Gained, OnlyServed, Receive;
    var q, s := b.queues[b.consumers[c].queueId].queue, b.consumers[c].session;
    DeliverPutOk(b, c, max);
    OnlyQueueTwice(a, b, Put(b, c, DeliverQueue(q, s, max), Receive(s, Handed(q, s, max))), b.consumers[c].queueId);
    GainedOnce(s, Handed(q, s, max));
    GainedTwice(a.consumers[c].session, s, Receive(s, Handed(q, s, max)));
    OnlyServedTwice(a.queues[b.consumers[c].queueId].queue, q, DeliverQueue(q, s, max));
  }

  /** Serving one consumer does not unserve another. */
  lemma StaysServed(a: Shard, b: Shard, c: nat, total: nat, x: nat, q: nat)
    requires c in a.consumers && a.consumers[c].queueId == q && q in a.queues && Drained(a, b, c, total)
    requires x in a.consumers && x in b.consumers && q in b.queues
    requires if x == c then Served(b, x, q) else Served(a, x, q)
    ensures Served(b, x, q)
  {
  }

  /** Every position is visited by one round-robin pass. */
  lemma Visited(start: nat, n: nat, k: nat) returns (i: nat)
    requires k < n
    ensures i < n && (start + i) % n == k
  {
    var s, d := start % n, start / n;
    i := if k >= s then k - s else k + n - s;
    Division(start, n);
    if k >= s {
      Remainder(d, n, k);
    } else {
      OneMore(n, d);
      Remainder(d + 1, n, k);
    }
  }

  lemma Division(x: nat, n: nat)
    requires n > 0
    ensures n * (x / n) + x % n == x && x % n < n && x / n >= 0
  {
  }

  lemma OneMore(n: nat, d: nat)
    ensures n * (d + 1) == n * d + n
  {
  }

  lemma Remainder(m: nat, n: nat, k: nat)
    requires k < n
    ensures (n * m + k) % n == k
  {
    var x := n * m + k;
    Division(x, n);
    OneQuotient(n, m, k, x / n, x % n);
  }

  /** Moving the round-robin index changes nothing else. */
  lemma TurnOk(sh: Shard, q: nat, index: nat)
    requires ShardOk(sh) && q in sh.queues
    ensures var r := sh.(queues := sh.queues[q := sh.queues[q].(nextIndex := index)]);
      && ShardOk(r) && OnlyQueue(sh, r, q) && (Quiet(sh, q) ==> Quiet(r, q))
  {
    hide WorldOk, SessionsOf;
    var r := sh.(queues := sh.queues[q := sh.queues[q].(nextIndex := index)]);
    forall x, c | x in r.queues && c in r.queues[x].consumers ensures Attached(r, c, x) { assert Attached(sh, c, x); }
    assert Registered(r);
    forall x | x in r.queues ensures WorldOf(r, x) == WorldOf(sh, x) {
      ListedExist(sh, x);
      ListedExist(r, x);
      SameSessions(sh, r, sh.queues[x].consumers);
    }
  }

  lemma SameSessions(a: Shard, b: Shard, list: seq<nat>)
    requires forall k :: 0 <= k < |list| ==>
      list[k] in a.consumers && list[k] in b.consumers && a.consumers[list[k]] == b.consumers[list[k]]
    ensures SessionsOf(a, list) == SessionsOf(b, list)
  {
  }

  // ---- Changes to the registries

  const NEW_QUEUE := QueueState(EMPTY_QUEUE, [], 0)

  function Declared(sh: Shard, q: nat): (r: Shard) {
    sh.(queues := sh.queues[q := NEW_QUEUE])
  }

  lemma DeclareOk(sh: Shard, q: nat)
    requires ShardOk(sh) && q !in sh.queues
    ensures ShardOk(Declared(sh, q)) && (AllQuiet(sh) ==> AllQuiet(Declared(sh, q)))
  {
    hide WorldOk, SessionsOf;
    var r := Declared(sh, q);
    forall x, c | x in r.queues && c in r.queues[x].consumers ensures Attached(r, c, x) { assert Attached(sh, c, x); }
    assert Registered(r);
    forall x | x in r.queues ensures WorldOk(WorldOf(r, x)) {
      if x == q {
        StartOk();
        assert WorldOf(r, q) == START;
      } else {
        ListedExist(sh, x);
        ListedExist(r, x);
        SameSessions(sh, r, sh.queues[x].consumers);
      }
    }
    if AllQuiet(sh) { SameQuiet(sh, r, q); }
  }

  /** Queues whose lists, contents and sessions are the same are as quiet as before. */
  lemma SameQuiet(a: Shard, b: Shard, q: nat)
    requires AllQuiet(a)
    requires forall x :: x in b.queues && x != q ==> x in a.queues && b.queues[x] == a.queues[x]
    requires forall x, c :: x in b.queues && x != q && c in b.queues[x].consumers ==>
      c in a.consumers && c in b.consumers && b.consumers[c] == a.consumers[c]
    requires q in b.queues ==> b.queues[q].consumers == []
    ensures AllQuiet(b)
  {
    forall x | x in b.queues ensures Quiet(b, x) {
      if x != q { assert Quiet(a, x); }
    }
  }

  function Subscribed(sh: Shard, q: nat, c: nat, prefetch: Prefetch): (r: Shard)
    requires q in sh.queues
  {
    Shard(sh.queues[q := sh.queues[q].(consumers := sh.queues[q].consumers + [c])],
      sh.consumers[c := Consumer(q, NewSession(prefetch))])
  }

  lemma SubscribeRegistered(sh: Shard, q: nat, c: nat, prefetch: Prefetch)
    requires Registered(sh) && q in sh.queues && c !in sh.consumers
    ensures Registered(Subscribed(sh, q, c, prefetch))
  {
    var r := Subscribed(sh, q, c, prefetch);
    ListedExist(sh, q);
    assert c !in sh.queues[q].consumers;
    forall x, d | x in r.queues && d in r.queues[x].consumers ensures Attached(r, d, x) {
      if d in sh.queues[x].consumers { assert Attached(sh, d, x); }
    }
  }

  lemma SubscribeOk(sh: Shard, q: nat, c: nat, prefetch: Prefetch)
    requires ShardOk(sh) && q in sh.queues && c !in sh.consumers && (prefetch.Limited? ==> prefetch.limit <= U32_MAX)
    ensures ShardOk(Subscribed(sh, q, c, prefetch)) && (AllQuiet(sh) ==> QuietExcept(Subscribed(sh, q, c, prefetch), q))
  {
    hide WorldOk, SessionsOf, Registered;
    var r := Subscribed(sh, q, c, prefetch);
    SubscribeRegistered(sh, q, c, prefetch);
    forall x | x in r.queues ensures WorldOk(WorldOf(r, x)) {
      ListedExist(sh, x);
      ListedExist(r, x);
      if x == q {
        HeadInRange(WorldOf(sh, q));
        StepOk(WorldOf(sh, q), OpenStep(prefetch));
        assert WorldOf(r, q) == Next(WorldOf(sh, q), OpenStep(prefetch));
      } else {
        SameSessions(sh, r, sh.queues[x].consumers);
      }
    }
    if AllQuiet(sh) {
      forall x | x in r.queues && x != q ensures Quiet(r, x) { assert Quiet(sh, x); }
    }
  }

  // ---- Cancelling

  /** `retain`: the list without one id. */
  function WithoutId(list: seq<nat>, c: nat): (r: seq<nat>)
    ensures forall x :: x in r <==> x in list && x != c
  {
    if list == [] then [] else
      var rest := WithoutId(list[..|list| - 1], c);
      assert list == list[..|list| - 1] + [list[|list| - 1]];
      if list[|list| - 1] == c then rest else rest + [list[|list| - 1]]
  }

  lemma {:induction false} WithoutIdIsRemoval(list: seq<nat>, k: nat)
    requires Distinct(list) && k < |list|
    ensures WithoutId(list, list[k]) == RemoveAt(list, k)
  {
    var n := |list| - 1;
    assert list == list[..n] + [list[n]];
    if k == n {
      NoneToRemove(list[..n], list[n]);
    } else {
      WithoutIdIsRemoval(list[..n], k);
    }
  }

  lemma {:induction false} NoneToRemove(list: seq<nat>, c: nat)
    requires c !in list
    ensures WithoutId(list, c) == list
  {
    if list == [] {
    } else {
      assert list == list[..|list| - 1] + [list[|list| - 1]];
      NoneToRemove(list[..|list| - 1], c);
    }
  }

  function Removed(sh: Shard, c: nat, queue: Queue): (r: Shard)
    requires c in sh.consumers && sh.consumers[c].queueId in sh.queues
  {
    var q := sh.consumers[c].queueId;
    var list := WithoutId(sh.queues[q].consumers, c);
    var index := if sh.queues[q].nextIndex >= |list| then 0 else sh.queues[q].nextIndex;
    Shard(sh.queues[q := QueueState(queue, list, index)], sh.consumers - {c})
  }

  lemma RemoveRegistered(sh: Shard, c: nat, queue: Queue)
    requires Registered(sh) && c in sh.consumers
    ensures sh.consumers[c].queueId in sh.queues && Registered(Removed(sh, c, queue))
  {
    hide WithoutId;
    Lists(sh, c);
    var r := Removed(sh, c, queue);
    forall x, d | x in r.queues && d in r.queues[x].consumers ensures Attached(r, d, x) { assert Attached(sh, d, x); }
    var list := sh.queues[sh.consumers[c].queueId].consumers;
    WithoutIdIsRemoval(list, Position(list, c));
  }

  /** A session that holds nothing can leave. */
  lemma DropEmpty(w: World, k: nat)
    requires WorldOk(w) && k < |w.sessions| && w.sessions[k].list == []
    ensures WorldOk(World(w.queue, RemoveAt(w.sessions, k)))
  {
    hide SessionOk, QueueSpec.Valid, Owns, Messages, Apart;
    var r := World(w.queue, RemoveAt(w.sessions, k));
    assert forall b :: 0 <= b < |r.sessions| ==> r.sessions[b] == w.sessions[if b < k then b else b + 1];
    forall a, b | 0 <= a < |r.sessions| && 0 <= b < |r.sessions| && a != b ensures Apart(Held(r, a), Held(r, b)) {
      assert Apart(Held(w, if a < k then a else a + 1), Held(w, if b < k then b else b + 1));
    }
    forall i | 0 <= i < |r.queue.states| && r.queue.states[i] == Inflight ensures HeldBySome(r, i) {
      assert HeldBySome(w, i);
      var b :| 0 <= b < |w.sessions| && i in Held(w, b);
      NothingHeld(w, k);
      assert i in Held(r, if b < k then b else b - 1);
    }
  }

  lemma NothingHeld(w: World, k: nat)
    requires k < |w.sessions| && w.sessions[k].list == []
    ensures Held(w, k) == []
  {
  }

  lemma CancelOk(sh: Shard, c: nat, d: Disposition, order: seq<nat>)
    requires ShardOk(sh) && c in sh.consumers && multiset(order) == multiset(Messages(sh.consumers[c].session.list))
    ensures sh.consumers[c].queueId in sh.queues
    ensures var q := sh.consumers[c].queueId;
      var r := Removed(sh, c, Disposed(sh.queues[q].queue, order, CancelReason(d)));
      && ShardOk(r) && SettledKept(sh.queues[q].queue, r.queues[q].queue)
      && ReadyCount(r.queues[q].queue) == ReadyCount(sh.queues[q].queue)
  {
    hide WorldOk, Registered, SessionsOf, Disposed, Messages, ReadyCount, WithoutId;
    Lists(sh, c);
    var q := sh.consumers[c].queueId;
    var list, queue := sh.queues[q].consumers, Disposed(sh.queues[q].queue, order, CancelReason(d));
    var k, r := Position(list, c), Removed(sh, c, queue);
    RemoveRegistered(sh, c, queue);
    WithoutIdIsRemoval(list, k);
    CancelWorld(WorldOf(sh, q), k, d, order);
    forall x | x in r.queues ensures WorldOk(WorldOf(r, x)) {
      ListedExist(sh, x);
      ListedExist(r, x);
      if x == q {
        assert WorldOf(r, q) == World(queue, RemoveAt(WorldOf(sh, q).sessions, k));
      } else {
        SameSessions(sh, r, sh.queues[x].consumers);
      }
    }
  }

  /** The consumers that remain are as served as they were. */
  lemma CancelQuiet(sh: Shard, c: nat, queue: Queue)
    requires Registered(sh) && AllQuiet(sh) && c in sh.consumers && sh.consumers[c].queueId in sh.queues
    requires ReadyCount(queue) == ReadyCount(sh.queues[sh.consumers[c].queueId].queue)
    ensures AllQuiet(Removed(sh, c, queue))
  {
    hide ReadyCount;
    var r := Removed(sh, c, queue);
    forall x | x in r.queues ensures Quiet(r, x) {
      assert Quiet(sh, x);
      forall d | d in r.queues[x].consumers ensures d in r.consumers && Served(r, d, x) {
        assert Attached(sh, d, x) && Served(sh, d, x);
      }
    }
  }

  lemma CancelWorld(w: World, k: nat, d: Disposition, order: seq<nat>)
    requires WorldOk(w) && k < |w.sessions| && multiset(order) == multiset(Messages(w.sessions[k].list))
    ensures var queue := Disposed(w.queue, order, CancelReason(d));
      && WorldOk(World(queue, RemoveAt(w.sessions, k))) && SettledKept(w.queue, queue)
      && ReadyCount(queue) == ReadyCount(w.queue)
  {
    hide Disposed, Messages, Count;
    var step := CancelStep(k, d, order);
    var n := Next(w, step);
    StepOk(w, step);
    StepKeepsSettled(w, step);
    DropEmpty(n, k);
    assert RemoveAt(n.sessions, k) == RemoveAt(w.sessions, k);
    assert Owns(w.sessions[k], w.queue);
    SameMultiset(order, Messages(w.sessions[k].list));
    DisposedReady(w.queue, order, CancelReason(d));
  }

  /** Settling does not make a message ready, nor take a ready one away. */
  lemma DisposedReady(q: Queue, order: seq<nat>, reason: NackReason)
    requires Distinct(order) && AllInflight(q, order)
    ensures ReadyCount(Disposed(q, order, reason)) == ReadyCount(q)
  {
    hide SetAll, Count;
    CountSetAll(q.states, order, Inflight, Retry);
    CountSetAll(q.states, order, Inflight, Acked);
  }

  function PublishedTo(sh: Shard, q: nat, count: nat): (r: Shard)
    requires q in sh.queues
  {
    sh.(queues := sh.queues[q := sh.queues[q].(queue := Publish(sh.queues[q].queue, count))])
  }

  function RetriedOn(sh: Shard, q: nat): (r: Shard)
    requires q in sh.queues
  {
    sh.(queues := sh.queues[q := sh.queues[q].(queue := RetryAllNow(sh.queues[q].queue))])
  }

  lemma QueueOnlyOk(sh: Shard, q: nat, step: Step)
    requires ShardOk(sh) && q in sh.queues && (step.PublishStep? || step.RetryStep?)
    ensures var r := if step.PublishStep? then PublishedTo(sh, q, step.count) else RetriedOn(sh, q);
      ShardOk(r) && (QuietExcept(sh, q) ==> QuietExcept(r, q))
  {
    hide WorldOk, SessionsOf, Publish, RetryAllNow;
    var r := if step.PublishStep? then PublishedTo(sh, q, step.count) else RetriedOn(sh, q);
    forall x, c | x in r.queues && c in r.queues[x].consumers ensures Attached(r, c, x) { assert Attached(sh, c, x); }
    assert Registered(r);
    forall x | x in r.queues ensures WorldOk(WorldOf(r, x)) {
      ListedExist(sh, x);
      ListedExist(r, x);
      SameSessions(sh, r, sh.queues[x].consumers);
      if x == q {
        HeadInRange(WorldOf(sh, q));
        StepOk(WorldOf(sh, q), step);
        assert WorldOf(r, q) == Next(WorldOf(sh, q), step);
      }
    }
    if QuietExcept(sh, q) {
      forall x | x in r.queues && x != q ensures Quiet(r, x) { assert Quiet(sh, x); }
    }
  }

  lemma RetriedOnly(sh: Shard, q: nat)
    requires q in sh.queues
    ensures OnlyQueue(sh, RetriedOn(sh, q), q)
  {
  }
}
