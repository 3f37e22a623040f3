/** The requests that led to a shard's state, queue by queue, and how they ended the messages. */
module ShardTraces {
  import opened Kernels
  import opened IntrusiveList
  import opened QueueSpec
  import opened Deliveries
  import opened SessionSpec
  import opened Runs
  import opened ShardSpec
  import opened StoreOps
  import opened Traces

  /** What each queue has been asked, and which of its sessions is which consumer's. */
  datatype History = History(traces: map<nat, seq<Operation>>, seats: map<nat, nat>)

  const NO_HISTORY := History(map[], map[])

  ghost function WorldIn(h: History, q: nat): (w: World)
    requires q in h.traces
  {
    WorldAfter(h.traces[q])
  }

  /** The consumer's session is the one that its queue's requests lead to. */
  ghost predicate Seated(sh: Shard, h: History, c: nat)
    requires c in sh.consumers
  {
    && c in h.seats && sh.consumers[c].queueId in h.traces
    && var w := WorldIn(h, sh.consumers[c].queueId);
    h.seats[c] < |w.sessions| && w.sessions[h.seats[c]] == sh.consumers[c].session
  }

  ghost predicate Occupied(sh: Shard, h: History, q: nat, k: nat) {
    exists c :: Attached(sh, c, q) && c in h.seats && h.seats[c] == k
  }

  /** Two consumers of one queue have different sessions. */
  ghost predicate Elsewhere(sh: Shard, h: History, c: nat, d: nat)
    requires c in sh.consumers && d in sh.consumers
  {
    sh.consumers[c].queueId == sh.consumers[d].queueId ==> c in h.seats && d in h.seats && h.seats[c] != h.seats[d]
  }

  ghost predicate StillOpenIn(h: History, q: nat, k: nat) {
    q in h.traces && k < |WorldIn(h, q).sessions| && !WorldIn(h, q).sessions[k].cancelled
  }

  ghost predicate SameQueues(sh: Shard, h: History) {
    && (forall q :: q in h.traces <==> q in sh.queues)
    && forall q :: q in sh.queues ==> WorldIn(h, q).queue == sh.queues[q].queue
  }

  ghost predicate AllSeated(sh: Shard, h: History) {
    (forall c :: c in h.seats <==> c in sh.consumers) && forall c :: c in sh.consumers ==> Seated(sh, h, c)
  }

  /** No two consumers share a session. */
  ghost predicate AllElsewhere(sh: Shard, h: History) {
    forall c, d :: c in sh.consumers && d in sh.consumers && c != d ==> Elsewhere(sh, h, c, d)
  }

  ghost predicate AllOccupied(sh: Shard, h: History) {
    forall q, k: nat :: StillOpenIn(h, q, k) ==> Occupied(sh, h, q, k)
  }

  /** The queue lists its consumers in the order of their arrival, and its turn is one of theirs. */
  ghost predicate Lined(sh: Shard, h: History, q: nat)
    requires q in sh.queues
  {
    var list := sh.queues[q].consumers;
    && q in h.traces && (sh.queues[q].nextIndex == 0 || sh.queues[q].nextIndex < |list|)
    && (forall k :: 0 <= k < |list| ==> list[k] in h.seats && h.seats[list[k]] < |WorldIn(h, q).sessions|)
    && (forall j, k :: 0 <= j < k < |list| ==> h.seats[list[j]] < h.seats[list[k]])
  }

  ghost predicate AllLined(sh: Shard, h: History) {
    forall q :: q in sh.queues ==> Lined(sh, h, q)
  }

  /** The requests lead to exactly this state: every queue is theirs, every consumer has a session of its
      own among theirs, in the order in which they were opened, and all their other sessions are cancelled. */
  ghost predicate Traced(sh: Shard, h: History) {
    SameQueues(sh, h) && AllSeated(sh, h) && AllElsewhere(sh, h) && AllOccupied(sh, h) && AllLined(sh, h)
  }

  /** The consumers of `r` are among those of `sh`, on the same queues and in the same seats. */
  ghost predicate SameSeats(sh: Shard, h: History, r: Shard, g: History) {
    forall c :: c in r.consumers ==>
      && c in sh.consumers && r.consumers[c].queueId == sh.consumers[c].queueId
      && (c in h.seats ==> c in g.seats && g.seats[c] == h.seats[c])
  }

  lemma QueuesKept(sh: Shard, h: History, r: Shard, g: History, q: nat)
    requires SameQueues(sh, h) && q in r.queues && q in g.traces && WorldIn(g, q).queue == r.queues[q].queue
    requires r.queues == sh.queues[q := r.queues[q]] && g.traces == h.traces[q := g.traces[q]]
    ensures SameQueues(r, g)
  {
    hide WorldAfter;
  }

  lemma SeatedKept(sh: Shard, h: History, r: Shard, g: History)
    requires AllSeated(sh, h) && r.consumers == sh.consumers && g.seats == h.seats
    requires forall q :: q in h.traces ==> q in g.traces && WorldIn(g, q).sessions == WorldIn(h, q).sessions
    ensures AllSeated(r, g)
  {
    hide WorldIn;
    forall c | c in r.consumers ensures Seated(r, g, c) { assert Seated(sh, h, c); }
  }

  lemma LinedKept(sh: Shard, h: History, r: Shard, g: History)
    requires AllLined(sh, h) && g.seats == h.seats && r.queues.Keys == sh.queues.Keys
    requires forall q :: q in sh.queues ==> r.queues[q].consumers == sh.queues[q].consumers
    requires forall q :: q in sh.queues ==>
      r.queues[q].nextIndex == sh.queues[q].nextIndex || r.queues[q].nextIndex < |r.queues[q].consumers|
    requires forall q :: q in h.traces ==> q in g.traces && |WorldIn(g, q).sessions| >= |WorldIn(h, q).sessions|
    ensures AllLined(r, g)
  {
    hide WorldIn;
    forall q | q in r.queues ensures Lined(r, g, q) { assert Lined(sh, h, q); }
  }

  lemma ElsewhereKept(sh: Shard, h: History, r: Shard, g: History)
    requires AllElsewhere(sh, h) && SameSeats(sh, h, r, g)
    ensures AllElsewhere(r, g)
  {
    forall c, d | c in r.consumers && d in r.consumers && c != d ensures Elsewhere(r, g, c, d) {
      assert Elsewhere(sh, h, c, d);
    }
  }

  lemma OccupiedKept(sh: Shard, h: History, r: Shard, g: History)
    requires AllOccupied(sh, h) && SameSeats(sh, h, r, g) && r.consumers.Keys == sh.consumers.Keys
    requires forall q, k: nat :: StillOpenIn(g, q, k) ==> StillOpenIn(h, q, k)
    ensures AllOccupied(r, g)
  {
    hide StillOpenIn;
    forall q, k: nat | StillOpenIn(g, q, k) ensures Occupied(r, g, q, k) {
      assert StillOpenIn(h, q, k);
      SameOccupant(sh, h, r, g, q, k);
    }
  }

  lemma SameOccupant(sh: Shard, h: History, r: Shard, g: History, q: nat, k: nat)
    requires Occupied(sh, h, q, k) && SameSeats(sh, h, r, g) && r.consumers.Keys == sh.consumers.Keys
    ensures Occupied(r, g, q, k)
  {
    var c :| Attached(sh, c, q) && c in h.seats && h.seats[c] == k;
    assert Attached(r, c, q);
  }

  ghost function Asked(h: History, q: nat, op: Operation): (r: History)
    requires q in h.traces
  {
    h.(traces := h.traces[q := h.traces[q] + [op]])
  }

  lemma AskedWorlds(h: History, q: nat, op: Operation)
    requires q in h.traces
    ensures WorldIn(Asked(h, q, op), q) == After(WorldIn(h, q), op)
    ensures forall x :: x in h.traces && x != q ==> WorldIn(Asked(h, q, op), x) == WorldIn(h, x)
  {
    hide After;
    WorldAfterNext(h.traces[q], op);
  }

  lemma NothingTraced()
    ensures Traced(EMPTY_SHARD, NO_HISTORY)
  {
  }

  // ---- What each kind of change adds to the history

  lemma DeclareTraced(sh: Shard, h: History, q: nat)
    requires Traced(sh, h) && q !in sh.queues
    ensures Traced(Declared(sh, q), h.(traces := h.traces[q := []]))
  {
    hide WorldAfter, AllElsewhere, AllOccupied, AllLined;
    var r, g := Declared(sh, q), h.(traces := h.traces[q := []]);
    NoRequests();
    QueuesKept(sh, h, r, g, q);
    SeatedKept(sh, h, r, g);
    DeclareLined(sh, h, q);
    ElsewhereKept(sh, h, r, g);
    OccupiedKept(sh, h, r, g);
  }

  lemma DeclareLined(sh: Shard, h: History, q: nat)
    requires AllLined(sh, h) && q !in sh.queues
    ensures AllLined(Declared(sh, q), h.(traces := h.traces[q := []]))
  {
    hide WorldAfter;
    var r, g := Declared(sh, q), h.(traces := h.traces[q := []]);
    forall x | x in r.queues ensures Lined(r, g, x) {
      if x != q { assert Lined(sh, h, x); }
    }
  }

  lemma NoRequests()
    ensures WorldAfter([]) == START && START.queue == EMPTY_QUEUE && START.sessions == []
  {
  }

  /** A request that concerns no session: a publish or a retry. */
  lemma QueueTraced(sh: Shard, h: History, q: nat, op: Operation, queue: Queue)
    requires Traced(sh, h) && q in sh.queues && After(WorldIn(h, q), op) == WorldIn(h, q).(queue := queue)
    ensures Traced(sh.(queues := sh.queues[q := sh.queues[q].(queue := queue)]), Asked(h, q, op))
  {
    hide WorldIn, After, AllElsewhere, AllOccupied, AllLined;
    var r, g := sh.(queues := sh.queues[q := sh.queues[q].(queue := queue)]), Asked(h, q, op);
    AskedWorlds(h, q, op);
    QueuesKept(sh, h, r, g, q);
    SeatedKept(sh, h, r, g);
    ElsewhereKept(sh, h, r, g);
    OccupiedKept(sh, h, r, g);
    QueueLined(sh, h, q, op, queue);
  }

  lemma QueueLined(sh: Shard, h: History, q: nat, op: Operation, queue: Queue)
    requires AllLined(sh, h) && q in sh.queues && q in h.traces
    requires After(WorldIn(h, q), op) == WorldIn(h, q).(queue := queue)
    ensures AllLined(sh.(queues := sh.queues[q := sh.queues[q].(queue := queue)]), Asked(h, q, op))
  {
    hide WorldIn, After, AllLined;
    AskedWorlds(h, q, op);
    LinedKept(sh, h, sh.(queues := sh.queues[q := sh.queues[q].(queue := queue)]), Asked(h, q, op));
  }

  /** The turn is no part of the history. */
  lemma TurnTraced(sh: Shard, h: History, q: nat, index: nat)
    requires Traced(sh, h) && q in sh.queues && index < |sh.queues[q].consumers|
    ensures Traced(sh.(queues := sh.queues[q := sh.queues[q].(nextIndex := index)]), h)
  {
    hide WorldIn, AllElsewhere, AllOccupied, AllLined;
    var r := sh.(queues := sh.queues[q := sh.queues[q].(nextIndex := index)]);
    SeatedKept(sh, h, r, h);
    ElsewhereKept(sh, h, r, h);
    OccupiedKept(sh, h, r, h);
    LinedKept(sh, h, r, h);
  }

  /** A request to one consumer's session: a delivery or a settlement. */
  lemma PutTraced(sh: Shard, h: History, c: nat, op: Operation, queue: Queue, session: Session)
    requires Traced(sh, h) && c in sh.consumers && sh.consumers[c].queueId in sh.queues
    requires c in h.seats && sh.consumers[c].queueId in h.traces
    requires var w := WorldIn(h, sh.consumers[c].queueId);
      h.seats[c] < |w.sessions| && After(w, op) == World(queue, w.sessions[h.seats[c] := session])
    ensures Traced(Put(sh, c, queue, session), Asked(h, sh.consumers[c].queueId, op))
  {
    hide AllElsewhere, AllOccupied, AllSeated, AllLined, SameQueues, After, WorldIn;
    PutSeated(sh, h, c, op, queue, session);
    PutOccupied(sh, h, c, op, queue, session);
    ElsewhereKept(sh, h, Put(sh, c, queue, session), Asked(h, sh.consumers[c].queueId, op));
    AskedWorlds(h, sh.consumers[c].queueId, op);
    LinedKept(sh, h, Put(sh, c, queue, session), Asked(h, sh.consumers[c].queueId, op));
  }

  lemma PutSeated(sh: Shard, h: History, c: nat, op: Operation, queue: Queue, session: Session)
    requires SameQueues(sh, h) && AllSeated(sh, h) && AllElsewhere(sh, h)
    requires c in sh.consumers && sh.consumers[c].queueId in sh.queues
    requires c in h.seats && sh.consumers[c].queueId in h.traces
    requires var w := WorldIn(h, sh.consumers[c].queueId);
      h.seats[c] < |w.sessions| && After(w, op) == World(queue, w.sessions[h.seats[c] := session])
    ensures SameQueues(Put(sh, c, queue, session), Asked(h, sh.consumers[c].queueId, op))
    ensures AllSeated(Put(sh, c, queue, session), Asked(h, sh.consumers[c].queueId, op))
  {
    hide WorldIn, After;
    var r, g := Put(sh, c, queue, session), Asked(h, sh.consumers[c].queueId, op);
    AskedWorlds(h, sh.consumers[c].queueId, op);
    QueuesKept(sh, h, r, g, sh.consumers[c].queueId);
    forall d | d in r.consumers ensures Seated(r, g, d) {
      assert Seated(sh, h, d);
      if d != c { assert Elsewhere(sh, h, c, d); }
    }
  }

  lemma PutOccupied(sh: Shard, h: History, c: nat, op: Operation, queue: Queue, session: Session)
    requires AllOccupied(sh, h) && c in sh.consumers && sh.consumers[c].queueId in sh.queues
    requires c in h.seats && sh.consumers[c].queueId in h.traces
    requires var w := WorldIn(h, sh.consumers[c].queueId);
      h.seats[c] < |w.sessions| && After(w, op) == World(queue, w.sessions[h.seats[c] := session])
    ensures AllOccupied(Put(sh, c, queue, session), Asked(h, sh.consumers[c].queueId, op))
  {
    hide WorldIn, After, Occupied;
    var q := sh.consumers[c].queueId;
    var r, g := Put(sh, c, queue, session), Asked(h, q, op);
    AskedWorlds(h, q, op);
    forall x, k: nat | StillOpenIn(g, x, k) ensures Occupied(r, g, x, k) {
      if x == q && k == h.seats[c] {
        Sits(r, g, c);
      } else {
        assert StillOpenIn(h, x, k);
        SameOccupant(sh, h, r, g, x, k);
      }
    }
  }

  lemma Sits(sh: Shard, h: History, c: nat)
    requires c in sh.consumers && c in h.seats
    ensures Occupied(sh, h, sh.consumers[c].queueId, h.seats[c])
  {
    assert Attached(sh, c, sh.consumers[c].queueId);
  }

  /** A new consumer takes the queue's next session. */
  ghost function Joined(h: History, q: nat, c: nat, prefetch: Prefetch): (r: History)
    requires q in h.traces
  {
    History(h.traces[q := h.traces[q] + [OpenOp(prefetch)]], h.seats[c := |WorldIn(h, q).sessions|])
  }

  lemma OpenTraced(sh: Shard, h: History, q: nat, c: nat, prefetch: Prefetch)
    requires Traced(sh, h) && q in sh.queues && c !in sh.consumers && (prefetch.Limited? ==> prefetch.limit <= U32_MAX)
    ensures Traced(Subscribed(sh, q, c, prefetch), Joined(h, q, c, prefetch))
  {
    hide WorldIn, AllElsewhere, AllOccupied, AllSeated, AllLined;
    JoinedWorlds(h, q, c, prefetch);
    QueuesKept(sh, h, Subscribed(sh, q, c, prefetch), Joined(h, q, c, prefetch), q);
    OpenSeated(sh, h, q, c, prefetch);
    OpenElsewhere(sh, h, q, c, prefetch);
    OpenOccupied(sh, h, q, c, prefetch);
    OpenLined(sh, h, q, c, prefetch);
  }

  lemma OpenLined(sh: Shard, h: History, q: nat, c: nat, prefetch: Prefetch)
    requires AllLined(sh, h) && AllSeated(sh, h) && q in sh.queues && q in h.traces && c !in sh.consumers
    requires prefetch.Limited? ==> prefetch.limit <= U32_MAX
    ensures AllLined(Subscribed(sh, q, c, prefetch), Joined(h, q, c, prefetch))
  {
    hide WorldIn, Seated;
    var r, g := Subscribed(sh, q, c, prefetch), Joined(h, q, c, prefetch);
    JoinedWorlds(h, q, c, prefetch);
    forall x | x in r.queues ensures Lined(r, g, x) {
      assert Lined(sh, h, x);
      var list, n := r.queues[x].consumers, |sh.queues[x].consumers|;
      assert forall k :: 0 <= k < n ==> list[k] == sh.queues[x].consumers[k] && list[k] != c;
    }
  }

  lemma OpenSeated(sh: Shard, h: History, q: nat, c: nat, prefetch: Prefetch)
    requires AllSeated(sh, h) && q in sh.queues && q in h.traces && c !in sh.consumers
    requires prefetch.Limited? ==> prefetch.limit <= U32_MAX
    ensures AllSeated(Subscribed(sh, q, c, prefetch), Joined(h, q, c, prefetch))
  {
    hide WorldIn;
    var r, g := Subscribed(sh, q, c, prefetch), Joined(h, q, c, prefetch);
    JoinedWorlds(h, q, c, prefetch);
    forall d | d in r.consumers ensures Seated(r, g, d) {
      if d != c { assert Seated(sh, h, d); }
    }
  }

  lemma OpenElsewhere(sh: Shard, h: History, q: nat, c: nat, prefetch: Prefetch)
    requires AllSeated(sh, h) && AllElsewhere(sh, h) && q in sh.queues && q in h.traces && c !in sh.consumers
    ensures AllElsewhere(Subscribed(sh, q, c, prefetch), Joined(h, q, c, prefetch))
  {
    hide WorldIn;
    var r, g := Subscribed(sh, q, c, prefetch), Joined(h, q, c, prefetch);
    forall d, e | d in r.consumers && e in r.consumers && d != e ensures Elsewhere(r, g, d, e) {
      if d == c {
        assert Seated(sh, h, e);
      } else if e == c {
        assert Seated(sh, h, d);
      } else {
        assert Elsewhere(sh, h, d, e);
      }
    }
  }

  lemma OpenOccupied(sh: Shard, h: History, q: nat, c: nat, prefetch: Prefetch)
    requires AllOccupied(sh, h) && q in sh.queues && q in h.traces && c !in sh.consumers
    requires prefetch.Limited? ==> prefetch.limit <= U32_MAX
    ensures AllOccupied(Subscribed(sh, q, c, prefetch), Joined(h, q, c, prefetch))
  {
    hide WorldIn, Occupied;
    var r, g := Subscribed(sh, q, c, prefetch), Joined(h, q, c, prefetch);
    JoinedWorlds(h, q, c, prefetch);
    forall x, k: nat | StillOpenIn(g, x, k) ensures Occupied(r, g, x, k) {
      if x == q && k == |WorldIn(h, q).sessions| {
        Sits(r, g, c);
      } else {
        assert StillOpenIn(h, x, k);
        OneMoreOccupant(sh, h, r, g, c, x, k);
      }
    }
  }

  lemma OneMoreOccupant(sh: Shard, h: History, r: Shard, g: History, c: nat, q: nat, k: nat)
    requires Occupied(sh, h, q, k) && c !in sh.consumers
    requires c in r.consumers && c in g.seats
    requires r.consumers == sh.consumers[c := r.consumers[c]] && g.seats == h.seats[c := g.seats[c]]
    ensures Occupied(r, g, q, k)
  {
    var d :| Attached(sh, d, q) && d in h.seats && h.seats[d] == k;
    assert Attached(r, d, q);
  }

  lemma JoinedWorlds(h: History, q: nat, c: nat, prefetch: Prefetch)
    requires q in h.traces && (prefetch.Limited? ==> prefetch.limit <= U32_MAX)
    ensures var w, g := WorldIn(h, q), Joined(h, q, c, prefetch);
      WorldIn(g, q) == w.(sessions := w.sessions + [NewSession(prefetch)])
    ensures forall x :: x in h.traces && x != q ==> WorldIn(Joined(h, q, c, prefetch), x) == WorldIn(h, x)
  {
    hide WorldAfter;
    WorldAfterNext(h.traces[q], OpenOp(prefetch));
    WorldAfterOk(h.traces[q]);
  }

  /** A consumer that leaves gives up its session. */
  ghost function Left(h: History, q: nat, c: nat, d: Disposition): (r: History)
    requires q in h.traces && c in h.seats
  {
    History(h.traces[q := h.traces[q] + [CancelOp(h.seats[c], d)]], h.seats - {c})
  }

  lemma CancelTraced(sh: Shard, h: History, c: nat, d: Disposition)
    requires Registered(sh) && Traced(sh, h) && c in sh.consumers
    ensures c in h.seats && sh.consumers[c].queueId in h.traces && sh.consumers[c].queueId in sh.queues
    ensures var q := sh.consumers[c].queueId;
      var order := SettleOrder(Messages(sh.consumers[c].session.list), sh.queues[q].queue.redelivered);
      Traced(Removed(sh, c, Disposed(sh.queues[q].queue, order, CancelReason(d))), Left(h, q, c, d))
  {
    hide WorldIn, After, Disposed, Messages, SettleOrder, WithoutId, AllOccupied, AllElsewhere, AllLined, Registered;
    Lists(sh, c);
    var q := sh.consumers[c].queueId;
    var order := SettleOrder(Messages(sh.consumers[c].session.list), sh.queues[q].queue.redelivered);
    var r, g := Removed(sh, c, Disposed(sh.queues[q].queue, order, CancelReason(d))), Left(h, q, c, d);
    assert Seated(sh, h, c);
    OnlyThere(sh, c);
    LeftWorlds(h, q, c, d);
    QueuesKept(sh, h, r, g, q);
    LeftSeated(sh, h, r, c, d);
    ElsewhereKept(sh, h, r, g);
    LeftOccupied(sh, h, r, c, d);
    LeftLined(sh, h, r, c, d);
  }

  lemma OnlyThere(sh: Shard, c: nat)
    requires Registered(sh) && c in sh.consumers
    ensures forall x :: x in sh.queues && x != sh.consumers[c].queueId ==> c !in sh.queues[x].consumers
  {
    forall x | x in sh.queues && c in sh.queues[x].consumers ensures x == sh.consumers[c].queueId {
      assert Attached(sh, c, x);
    }
  }

  lemma LeftLined(sh: Shard, h: History, r: Shard, c: nat, d: Disposition)
    requires AllLined(sh, h) && c in sh.consumers && Seated(sh, h, c) && sh.consumers[c].queueId in sh.queues
    requires r.queues.Keys == sh.queues.Keys && r.consumers == sh.consumers - {c}
    requires forall x :: x in sh.queues && x != sh.consumers[c].queueId ==> r.queues[x] == sh.queues[x]
    requires var q := sh.consumers[c].queueId;
      && r.queues[q].consumers == WithoutId(sh.queues[q].consumers, c)
      && (r.queues[q].nextIndex == 0 || r.queues[q].nextIndex < |r.queues[q].consumers|)
    requires forall x :: x in sh.queues && x != sh.consumers[c].queueId ==> c !in sh.queues[x].consumers
    ensures AllLined(r, Left(h, sh.consumers[c].queueId, c, d))
  {
    hide WorldIn, Disposed, WithoutId, Lined;
    var q := sh.consumers[c].queueId;
    var g := Left(h, q, c, d);
    LeftWorlds(h, q, c, d);
    forall x | x in r.queues ensures Lined(r, g, x) {
      assert Lined(sh, h, x);
      LineThere(sh, h, x);
      if x == q { LineShrinks(sh, h, r, g, c, q); } else { LineStays(sh, h, r, g, c, x); }
    }
  }

  lemma LineThere(sh: Shard, h: History, q: nat)
    requires q in sh.queues && Lined(sh, h, q)
    ensures q in h.traces
  {
  }

  lemma LineStays(sh: Shard, h: History, r: Shard, g: History, c: nat, q: nat)
    requires q in sh.queues && Lined(sh, h, q) && q in r.queues && r.queues[q] == sh.queues[q]
    requires g.seats == h.seats - {c} && c !in sh.queues[q].consumers
    requires q in g.traces && |WorldIn(g, q).sessions| == |WorldIn(h, q).sessions|
    ensures Lined(r, g, q)
  {
    hide WorldIn;
  }

  lemma LineShrinks(sh: Shard, h: History, r: Shard, g: History, c: nat, q: nat)
    requires q in sh.queues && Lined(sh, h, q) && q in r.queues && g.seats == h.seats - {c}
    requires r.queues[q].consumers == WithoutId(sh.queues[q].consumers, c)
    requires r.queues[q].nextIndex == 0 || r.queues[q].nextIndex < |r.queues[q].consumers|
    requires q in g.traces && |WorldIn(g, q).sessions| == |WorldIn(h, q).sessions|
    ensures Lined(r, g, q)
  {
    hide WorldIn, WithoutId;
    StillLined(sh.queues[q].consumers, h.seats, c);
  }

  /** Leaving a line keeps the order of the others. */
  lemma StillLined(list: seq<nat>, seats: map<nat, nat>, c: nat)
    requires forall k :: 0 <= k < |list| ==> list[k] in seats
    requires forall j, k :: 0 <= j < k < |list| ==> seats[list[j]] < seats[list[k]]
    ensures var r := WithoutId(list, c);
      && (forall k :: 0 <= k < |r| ==> r[k] in list && r[k] != c && r[k] in seats)
      && (forall j, k :: 0 <= j < k < |r| ==> seats[r[j]] < seats[r[k]])
  {
    hide WithoutId;
    var r := WithoutId(list, c);
    forall k | 0 <= k < |r| ensures r[k] in list && r[k] != c { assert r[k] in r; }
    if c in list {
      var k :| 0 <= k < |list| && list[k] == c;
      WithoutIdIsRemoval(list, k);
    } else {
      NoneToRemove(list, c);
    }
  }

  lemma LeftSeated(sh: Shard, h: History, r: Shard, c: nat, d: Disposition)
    requires AllSeated(sh, h) && AllElsewhere(sh, h) && c in sh.consumers && r.consumers == sh.consumers - {c}
    requires Seated(sh, h, c)
    ensures AllSeated(r, Left(h, sh.consumers[c].queueId, c, d))
  {
    hide WorldIn, Disposed;
    var g := Left(h, sh.consumers[c].queueId, c, d);
    LeftWorlds(h, sh.consumers[c].queueId, c, d);
    forall e | e in r.consumers ensures Seated(r, g, e) { assert Seated(sh, h, e) && Elsewhere(sh, h, c, e); }
  }

  lemma LeftOccupied(sh: Shard, h: History, r: Shard, c: nat, d: Disposition)
    requires AllOccupied(sh, h) && c in sh.consumers && Seated(sh, h, c) && r.consumers == sh.consumers - {c}
    ensures AllOccupied(r, Left(h, sh.consumers[c].queueId, c, d))
  {
    hide WorldIn, Occupied, Disposed;
    var q := sh.consumers[c].queueId;
    var g := Left(h, q, c, d);
    LeftWorlds(h, q, c, d);
    forall x, k: nat | StillOpenIn(g, x, k) ensures Occupied(r, g, x, k) {
      assert StillOpenIn(h, x, k);
      OthersOccupy(sh, h, r, g, c, x, k);
    }
  }

  lemma OthersOccupy(sh: Shard, h: History, r: Shard, g: History, c: nat, q: nat, k: nat)
    requires Occupied(sh, h, q, k) && c in sh.consumers && c in h.seats
    requires r.consumers == sh.consumers - {c} && g.seats == h.seats - {c}
    requires q != sh.consumers[c].queueId || k != h.seats[c]
    ensures Occupied(r, g, q, k)
  {
    var e :| Attached(sh, e, q) && e in h.seats && h.seats[e] == k;
    assert Attached(r, e, q);
  }

  lemma LeftWorlds(h: History, q: nat, c: nat, d: Disposition)
    requires q in h.traces && c in h.seats && h.seats[c] < |WorldIn(h, q).sessions|
    ensures var w, g := WorldIn(h, q), Left(h, q, c, d);
      var s := w.sessions[h.seats[c]];
      WorldIn(g, q) == World(Disposed(w.queue, SettleOrder(Messages(s.list), w.queue.redelivered), CancelReason(d)),
        w.sessions[h.seats[c] := Cancelled(s)])
    ensures forall x :: x in h.traces && x != q ==> WorldIn(Left(h, q, c, d), x) == WorldIn(h, x)
  {
    hide WorldAfter, Disposed, SettleOrder, Messages, Cancelled;
    WorldAfterNext(h.traces[q], CancelOp(h.seats[c], d));
    WorldAfterOk(h.traces[q]);
  }

  // ---- The worlds that single requests lead to

  lemma PublishRequest(sh: Shard, h: History, q: nat, count: nat)
    requires Traced(sh, h) && q in sh.queues
    ensures q in h.traces && Traced(PublishedTo(sh, q, count), Asked(h, q, PublishOp(count)))
  {
    hide WorldAfter, Publish, Seated, AllElsewhere, AllOccupied, AllLined;
    WorldAfterOk(h.traces[q]);
    QueueTraced(sh, h, q, PublishOp(count), Publish(sh.queues[q].queue, count));
  }

  lemma RetryRequest(sh: Shard, h: History, q: nat)
    requires Traced(sh, h) && q in sh.queues
    ensures q in h.traces && Traced(RetriedOn(sh, q), Asked(h, q, RetryOp))
  {
    hide WorldAfter, RetryAllNow, Seated, AllElsewhere, AllOccupied, AllLined;
    WorldAfterOk(h.traces[q]);
    QueueTraced(sh, h, q, RetryOp, RetryAllNow(sh.queues[q].queue));
  }

  lemma DeliverRequest(sh: Shard, h: History, c: nat, max: nat)
    requires Traced(sh, h) && c in sh.consumers && sh.consumers[c].queueId in sh.queues
    ensures c in h.seats && sh.consumers[c].queueId in h.traces
    ensures var q, s := sh.queues[sh.consumers[c].queueId].queue, sh.consumers[c].session;
      && q.head <= |q.states|
      && Traced(Put(sh, c, DeliverQueue(q, s, max), Receive(s, Handed(q, s, max))),
        Asked(h, sh.consumers[c].queueId, DeliverOp(h.seats[c], max)))
  {
    hide WorldAfter, DeliverQueue, Receive, Handed, AllElsewhere, AllOccupied, AllLined, Put;
    var x := sh.consumers[c].queueId;
    assert Seated(sh, h, c);
    WorldAfterOk(h.traces[x]);
    var q, s := sh.queues[x].queue, sh.consumers[c].session;
    PutTraced(sh, h, c, DeliverOp(h.seats[c], max), DeliverQueue(q, s, max), Receive(s, Handed(q, s, max)));
  }

  /** The request of a settlement: an acknowledgement, or a negative one. */
  function SettleOp(seat: nat, tag: nat, mode: Mode, reason: NackReason, ack: bool): (op: Operation) {
    if ack then AckOp(seat, tag, mode) else NackOp(seat, tag, mode, reason)
  }

  lemma SettleRequest(sh: Shard, h: History, c: nat, tag: nat, mode: Mode, reason: NackReason, ack: bool)
    requires Traced(sh, h) && c in sh.consumers && sh.consumers[c].queueId in sh.queues
    requires SettleError(sh.consumers[c].session, tag).None? && (ack ==> reason == NackReason.Reject)
    ensures c in h.seats && sh.consumers[c].queueId in h.traces
    ensures var q, s := sh.queues[sh.consumers[c].queueId].queue, sh.consumers[c].session;
      var order := SettleOrder(Messages(Taken(s, tag, mode)), q.redelivered);
      Traced(Put(sh, c, Disposed(q, order, reason), Settle(s, tag, mode)),
        Asked(h, sh.consumers[c].queueId, SettleOp(h.seats[c], tag, mode, reason, ack)))
  {
    hide WorldAfter, Disposed, Settle, AllElsewhere, AllOccupied, AllLined, Put, Taken, Messages, SettleOrder, HasTag;
    var x := sh.consumers[c].queueId;
    assert Seated(sh, h, c);
    WorldAfterOk(h.traces[x]);
    var q, s := sh.queues[x].queue, sh.consumers[c].session;
    var order := SettleOrder(Messages(Taken(s, tag, mode)), q.redelivered);
    PutTraced(sh, h, c, SettleOp(h.seats[c], tag, mode, reason, ack), Disposed(q, order, reason), Settle(s, tag, mode));
  }

  // ---- The ledger

  /** The message was acknowledged on its first delivery. */
  ghost predicate FirstAcked(h: History, q: nat, i: nat) {
    q in h.traces && EndingOf(h.traces[q], i) == Some(AckedFirst)
  }

  ghost predicate SameFirsts(a: History, b: History) {
    forall q, i: nat :: FirstAcked(a, q, i) <==> FirstAcked(b, q, i)
  }

  /** Exactly the given messages of one queue have been acknowledged on their first delivery since. */
  ghost predicate FirstsGrew(a: History, b: History, q: nat, msgs: seq<nat>) {
    forall x, i: nat :: FirstAcked(b, x, i) <==> FirstAcked(a, x, i) || (x == q && i in msgs)
  }

  /** The ledger names exactly the messages acknowledged on their first delivery. */
  ghost predicate LedgerTells(log: seq<StoreOp>, h: History) {
    forall q, i: nat :: AckedIn(log, q, i) <==> FirstAcked(h, q, i)
  }

  lemma StillTells(log: seq<StoreOp>, a: History, b: History)
    requires LedgerTells(log, a) && SameFirsts(a, b)
    ensures LedgerTells(log, b)
  {
    hide AckedIn, FirstAcked;
  }

  lemma NoneMore(h: History)
    ensures SameFirsts(h, h)
  {
    hide FirstAcked;
  }

  lemma SameFirstsTwice(a: History, b: History, d: History)
    requires SameFirsts(a, b) && SameFirsts(b, d)
    ensures SameFirsts(a, d)
  {
    hide FirstAcked;
  }

  /** Only an acknowledgement adds to the first deliveries acknowledged. */
  lemma AskedFirsts(h: History, q: nat, op: Operation)
    requires q in h.traces && !op.AckOp?
    ensures SameFirsts(h, Asked(h, q, op))
  {
    hide EndingOf, WorldAfter;
    var g := Asked(h, q, op);
    forall x, i: nat ensures FirstAcked(h, x, i) <==> FirstAcked(g, x, i) {
      if x == q {
        EndingNext(h.traces[q], op, i);
        if FirstAcked(h, q, i) { EndingStays(h.traces[q], op, i); }
      }
    }
  }

  lemma AskedMore(a: History, h: History, q: nat, op: Operation)
    requires q in h.traces && !op.AckOp? && SameFirsts(a, h)
    ensures SameFirsts(a, Asked(h, q, op))
  {
    hide FirstAcked;
    AskedFirsts(h, q, op);
    SameFirstsTwice(a, h, Asked(h, q, op));
  }

  lemma JoinedFirsts(h: History, q: nat, c: nat, prefetch: Prefetch)
    requires q in h.traces
    ensures SameFirsts(h, Joined(h, q, c, prefetch))
  {
    hide EndingOf, WorldAfter;
    AskedFirsts(h, q, OpenOp(prefetch));
    var a, b := Asked(h, q, OpenOp(prefetch)), Joined(h, q, c, prefetch);
    forall x, i: nat ensures FirstAcked(h, x, i) <==> FirstAcked(b, x, i) {
      assert FirstAcked(a, x, i) <==> FirstAcked(b, x, i);
    }
  }

  lemma LeftFirsts(h: History, q: nat, c: nat, d: Disposition)
    requires q in h.traces && c in h.seats
    ensures SameFirsts(h, Left(h, q, c, d))
  {
    hide EndingOf, WorldAfter;
    AskedFirsts(h, q, CancelOp(h.seats[c], d));
    var a, b := Asked(h, q, CancelOp(h.seats[c], d)), Left(h, q, c, d);
    forall x, i: nat ensures FirstAcked(h, x, i) <==> FirstAcked(b, x, i) {
      assert FirstAcked(a, x, i) <==> FirstAcked(b, x, i);
    }
  }

  lemma DeclareFirsts(h: History, q: nat)
    requires q !in h.traces
    ensures SameFirsts(h, h.(traces := h.traces[q := []]))
  {
    hide WorldAfter;
    var g := h.(traces := h.traces[q := []]);
    forall x, i: nat ensures FirstAcked(h, x, i) <==> FirstAcked(g, x, i) {
      if x == q { assert EndingOf([], i) == None; }
    }
  }

  /** An acknowledgement adds exactly the first deliveries that it takes. */
  lemma AckFirsts(sh: Shard, h: History, c: nat, tag: nat, mode: Mode)
    requires Traced(sh, h) && c in sh.consumers && sh.consumers[c].queueId in sh.queues
    requires SettleError(sh.consumers[c].session, tag).None?
    ensures c in h.seats && sh.consumers[c].queueId in h.traces
    ensures var x := sh.consumers[c].queueId;
      var msgs := Messages(Taken(sh.consumers[c].session, tag, mode));
      FirstsGrew(h, Asked(h, x, AckOp(h.seats[c], tag, mode)), x, Pick(msgs, sh.queues[x].queue.redelivered, true))
  {
    hide WorldAfter, EndingOf, AllElsewhere, AllOccupied, AllLined, Taken, Messages, SettleOrder, HasTag, Pick;
    var x := sh.consumers[c].queueId;
    assert Seated(sh, h, c);
    var red, msgs := sh.queues[x].queue.redelivered, Messages(Taken(sh.consumers[c].session, tag, mode));
    var op := AckOp(h.seats[c], tag, mode);
    forall i: nat ensures EndedBy(WorldIn(h, x), op, i) == Some(AckedFirst) <==> i in Pick(msgs, red, true) {
      FirstsOf(msgs, red, i);
    }
    forall y, i: nat ensures FirstAcked(Asked(h, x, op), y, i) <==>
      FirstAcked(h, y, i) || (y == x && i in Pick(msgs, red, true))
    {
      if y == x {
        EndingNext(h.traces[x], op, i);
        if FirstAcked(h, x, i) { EndingStays(h.traces[x], op, i); }
      }
    }
  }

  lemma FirstsOf(msgs: seq<nat>, red: set<nat>, i: nat)
    ensures i in SettleOrder(msgs, red) && i !in red <==> i in Pick(msgs, red, true)
  {
    hide SettleOrder, Pick;
    SettleOrderComplete(msgs, red);
    SameMultiset(SettleOrder(msgs, red), msgs);
  }
}
