/** Sets of routing targets and their compact representations (aurum-routing). */
module QueueSets {
  import opened SortedMaps

  datatype Target = Target(shard: nat, queue: nat)

  predicate Before(a: Target, b: Target) {
    a.shard < b.shard || (a.shard == b.shard && a.queue < b.queue)
  }

  /** Strictly ascending by shard, then queue. */
  predicate Strict(ts: seq<Target>) {
    forall j, k :: 0 <= j < k < |ts| ==> Before(ts[j], ts[k])
  }

  /** A strictly ascending list is determined by its members. */
  lemma {:induction false} SameMembersSameList(a: seq<Target>, b: seq<Target>)
    requires Strict(a) && Strict(b) && forall t :: t in a <==> t in b
    ensures a == b
  {
    if a == [] {
      NoMembers(b);
    } else {
      assert a[|a| - 1] in b;
      var m, n := |a| - 1, |b| - 1;
      LastIsGreatest(a, b);
      var x, y := a[..m], b[..n];
      assert a == x + [a[m]] && b == y + [b[n]];
      forall t ensures t in x <==> t in y {
        assert t in x ==> t in a && t != a[m];
        assert t in y ==> t in b && t != b[n];
      }
      SameMembersSameList(x, y);
    }
  }

  lemma NoMembers(b: seq<Target>)
    ensures (forall t :: t !in b) ==> b == []
  {
    assert b != [] ==> b[0] in b;
  }

  lemma LastIsGreatest(a: seq<Target>, b: seq<Target>)
    requires Strict(a) && Strict(b) && a != [] && b != [] && a[|a| - 1] in b && forall t :: t in b ==> t in a
    ensures a[|a| - 1] == b[|b| - 1]
  {
    assert b[|b| - 1] in a;
  }

  /** Insert into a strictly ascending list, keeping it so. */
  function InsertTarget(ts: seq<Target>, t: Target): (r: seq<Target>) {
    if ts == [] || Before(ts[|ts| - 1], t) then ts + [t]
    else if ts[|ts| - 1] == t then ts
    else InsertTarget(ts[..|ts| - 1], t) + [ts[|ts| - 1]]
  }

  lemma {:induction false} InsertTargetMember(ts: seq<Target>, t: Target, x: Target)
    ensures x in InsertTarget(ts, t) <==> x == t || x in ts
  {
    if ts == [] {
    } else {
      assert ts == ts[..|ts| - 1] + [ts[|ts| - 1]];
      if !Before(ts[|ts| - 1], t) && ts[|ts| - 1] != t { InsertTargetMember(ts[..|ts| - 1], t, x); }
    }
  }

  lemma {:induction false} InsertTargetStrict(ts: seq<Target>, t: Target)
    requires Strict(ts)
    ensures Strict(InsertTarget(ts, t))
  {
    if ts != [] && !Before(ts[|ts| - 1], t) && ts[|ts| - 1] != t {
      var n := |ts| - 1;
      InsertTargetStrict(ts[..n], t);
      var r := InsertTarget(ts[..n], t);
      forall k | 0 <= k < |r| ensures Before(r[k], ts[n]) {
        InsertTargetMember(ts[..n], t, r[k]);
        assert r[k] in r;
      }
    }
  }

  /** `dedupe_targets`: drop repetitions, then sort. */
  method DedupeTargets(targets: seq<Target>) returns (r: seq<Target>)
    ensures Strict(r) && forall t :: t in r <==> t in targets
  {
    hide InsertTarget, Strict;
    var unique, seen := [], {};
    for k := 0 to |targets|
      invariant (forall t :: t in seen <==> t in targets[..k]) && (forall t :: t in unique <==> t in targets[..k])
    {
      assert targets[..k + 1] == targets[..k] + [targets[k]];
      if targets[k] !in seen {
        seen := seen + {targets[k]};
        unique := unique + [targets[k]];
      }
    }
    assert targets[..|targets|] == targets;
    r := [];
    NoneIsStrict();
    for k := 0 to |unique|
      invariant Strict(r) && forall t :: t in r <==> t in unique[..k]
    {
      assert unique[..k + 1] == unique[..k] + [unique[k]];
      InsertTargetStrict(r, unique[k]);
      forall t ensures t in InsertTarget(r, unique[k]) <==> t == unique[k] || t in r {
        InsertTargetMember(r, unique[k], t);
      }
      r := InsertTarget(r, unique[k]);
    }
    assert unique[..|unique|] == unique;
  }

  lemma NoneIsStrict()
    ensures Strict([])
  {
  }

  // ---- Representations

  datatype Group = Group(shard: nat, queues: seq<nat>)

  datatype QueueSet =
    | EmptySet
    | OneTarget(target: Target)
    | SmallSet(len: nat, targets: seq<Target>)
    | ShardGrouped(groups: seq<Group>)

  const SMALL_CAPACITY := 4

  predicate SetOk(s: QueueSet) {
    s.SmallSet? ==> s.len <= |s.targets| == SMALL_CAPACITY
  }

  function GroupTargets(g: Group): (ts: seq<Target>)
    ensures |ts| == |g.queues| && forall k :: 0 <= k < |ts| ==> ts[k] == Target(g.shard, g.queues[k])
  {
    seq(|g.queues|, k requires 0 <= k < |g.queues| => Target(g.shard, g.queues[k]))
  }

  function GroupsTargets(gs: seq<Group>): (ts: seq<Target>) {
    if gs == [] then [] else GroupsTargets(gs[..|gs| - 1]) + GroupTargets(gs[|gs| - 1])
  }

  /** `targets_vec`: the targets in the order in which they are visited. */
  function TargetsOf(s: QueueSet): (ts: seq<Target>)
    requires SetOk(s)
  {
    match s
    case EmptySet => []
    case OneTarget(t) => [t]
    case SmallSet(len, targets) => targets[..len]
    case ShardGrouped(gs) => GroupsTargets(gs)
  }

  function QueuesTotal(gs: seq<Group>): (n: nat) {
    if gs == [] then 0 else QueuesTotal(gs[..|gs| - 1]) + |gs[|gs| - 1].queues|
  }

  /** `target_count` */
  function TargetCount(s: QueueSet): (n: nat) {
    match s
    case EmptySet => 0
    case OneTarget(_) => 1
    case SmallSet(len, _) => len
    case ShardGrouped(gs) => QueuesTotal(gs)
  }

  lemma {:induction false} GroupsLength(gs: seq<Group>)
    ensures |GroupsTargets(gs)| == QueuesTotal(gs)
  {
    if gs == [] {
    } else {
      GroupsLength(gs[..|gs| - 1]);
    }
  }

  /** The count announced is the number of targets visited. */
  lemma CountIsVisited(s: QueueSet)
    requires SetOk(s)
    ensures TargetCount(s) == |TargetsOf(s)|
  {
    if s.ShardGrouped? { GroupsLength(s.groups); }
  }

  // ---- Building

  /** The shards that occur, ascending. */
  method ShardsOf(targets: seq<Target>) returns (shards: seq<Binding<bool>>)
    ensures Sorted(shards)
    ensures forall s: nat :: Has(shards, s) <==> exists k :: 0 <= k < |targets| && targets[k].shard == s
  {
    hide Sorted, Insert;
    shards := [];
    NoBindings();
    for k := 0 to |targets|
      invariant Sorted(shards) && forall s: nat :: Has(shards, s) <==> ShardIn(targets[..k], s)
    {
      InsertSorted(shards, targets[k].shard, true);
      forall s: nat
        ensures Has(Insert(shards, targets[k].shard, true), s) <==> s == targets[k].shard || Has(shards, s)
      {
        InsertHas(shards, targets[k].shard, s);
      }
      forall s: nat ensures ShardIn(targets[..k + 1], s) <==> s == targets[k].shard || ShardIn(targets[..k], s) {
        ShardNext(targets, k, s);
      }
      shards := Insert(shards, targets[k].shard, true);
    }
    assert targets[..|targets|] == targets;
  }

  ghost predicate ShardIn(targets: seq<Target>, s: nat) {
    exists k :: 0 <= k < |targets| && targets[k].shard == s
  }

  lemma ShardNext(targets: seq<Target>, k: nat, s: nat)
    requires k < |targets|
    ensures ShardIn(targets[..k + 1], s) <==> s == targets[k].shard || ShardIn(targets[..k], s)
  {
    assert targets[..k + 1][k] == targets[k];
    assert forall j :: 0 <= j < k ==> targets[..k + 1][j] == targets[..k][j];
  }

  lemma NoBindings()
    ensures Sorted<bool>([]) && forall s: nat :: !Has<bool>([], s)
  {
  }

  lemma InsertHas(m: seq<Binding<bool>>, key: nat, s: nat)
    requires Sorted(m)
    ensures Has(Insert(m, key, true), s) <==> s == key || Has(m, s)
  {
    hide Insert;
    var r := Insert(m, key, true);
    if Has(r, s) {
      var k :| 0 <= k < |r| && r[k].key == s;
      assert r[k] in r;
      InsertMember(m, key, true, r[k]);
    }
    if s == key {
      InsertMember(m, key, true, Binding(key, true));
      assert Binding(key, true) in r;
    } else if Has(m, s) {
      var k :| 0 <= k < |m| && m[k].key == s;
      assert m[k] in m;
      InsertMember(m, key, true, m[k]);
      assert m[k] in r;
    }
  }

  /** The queues of one shard in the order of the targets, once each. */
  method QueuesOf(targets: seq<Target>, shard: nat) returns (queues: seq<nat>)
    ensures forall q: nat :: q in queues <==> Target(shard, q) in targets
    ensures Strict(targets) ==> forall j, k :: 0 <= j < k < |queues| ==> queues[j] < queues[k]
  {
    queues := [];
    for k := 0 to |targets|
      invariant forall q: nat :: q in queues <==> Target(shard, q) in targets[..k]
      invariant Strict(targets) ==> forall i, j :: 0 <= i < j < |queues| ==> queues[i] < queues[j]
      invariant forall j :: 0 <= j < |queues| ==> Target(shard, queues[j]) in targets[..k]
    {
      assert targets[..k + 1] == targets[..k] + [targets[k]];
      if targets[k].shard == shard {
        if targets[k].queue !in queues {
          queues := queues + [targets[k].queue];
        }
      }
    }
    assert targets[..|targets|] == targets;
  }

  ghost predicate Grouping(gs: seq<Group>, shards: seq<Binding<bool>>, targets: seq<Target>)
    requires |gs| <= |shards|
  {
    forall k :: 0 <= k < |gs| ==> gs[k].shard == shards[k].key && GroupOk(gs[k], targets)
  }

  ghost predicate GroupOk(g: Group, targets: seq<Target>) {
    (forall q: nat :: q in g.queues <==> Target(g.shard, q) in targets)
      && (Strict(targets) ==> AscendingQueues(g.queues))
  }

  ghost predicate AscendingQueues(qs: seq<nat>) {
    forall j, k :: 0 <= j < k < |qs| ==> qs[j] < qs[k]
  }

  /** Visiting groups of the first shards visits the targets of those shards, in order. */
  lemma {:induction false} GroupsVisit(gs: seq<Group>, shards: seq<Binding<bool>>, targets: seq<Target>)
    requires Sorted(shards) && |gs| <= |shards| && Grouping(gs, shards, targets)
    ensures forall t ::
      t in GroupsTargets(gs) <==> t in targets && exists k :: 0 <= k < |gs| && shards[k].key == t.shard
    ensures Strict(targets) ==> Strict(GroupsTargets(gs))
  {
    if gs == [] {
    } else {
      var n := |gs| - 1;
      GroupsVisit(gs[..n], shards, targets);
      var a, b := GroupsTargets(gs[..n]), GroupTargets(gs[n]);
      forall t ensures t in b <==> t in targets && t.shard == shards[n].key { GroupVisits(gs[n], targets, t); }
      if Strict(targets) {
        forall j, k | 0 <= j < |a| && 0 <= k < |b| ensures Before(a[j], b[k]) { assert a[j] in a; }
        assert Strict(b);
      }
    }
  }

  lemma GroupVisits(g: Group, targets: seq<Target>, t: Target)
    requires GroupOk(g, targets)
    ensures t in GroupTargets(g) <==> t in targets && t.shard == g.shard
  {
    var b := GroupTargets(g);
    if t in b {
      var k :| 0 <= k < |b| && b[k] == t;
      assert g.queues[k] in g.queues;
    }
    if t in targets && t.shard == g.shard {
      assert t.queue in g.queues;
      var k :| 0 <= k < |g.queues| && g.queues[k] == t.queue;
      assert b[k] == t;
    }
  }

  method GroupByShard(targets: seq<Target>, shards: seq<Binding<bool>>) returns (gs: seq<Group>)
    requires Sorted(shards)
    ensures |gs| == |shards| && Grouping(gs, shards, targets)
  {
    gs := [];
    for k := 0 to |shards|
      invariant |gs| == k && Grouping(gs, shards, targets)
    {
      var queues := QueuesOf(targets, shards[k].key);
      gs := gs + [Group(shards[k].key, queues)];
    }
  }

  /** `QueueSetBuilder::build`: whichever representation is chosen, it visits exactly the targets,
      and a sorted list in its own order. */
  method BuildSet(targets: seq<Target>) returns (s: QueueSet)
    ensures SetOk(s) && (forall t :: t in TargetsOf(s) <==> t in targets)
    ensures Strict(targets) ==> TargetsOf(s) == targets
    ensures (s.EmptySet? <==> targets == []) && (s.ShardGrouped? ==> |targets| > 1)
  {
    hide Sorted, GroupsTargets, Grouping;
    if targets == [] {
      return EmptySet;
    }
    if |targets| == 1 {
      return OneTarget(targets[0]);
    }
    var shards := ShardsOf(targets);
    if |targets| <= SMALL_CAPACITY && |shards| == 1 {
      var filled := targets + seq(SMALL_CAPACITY - |targets|, _ => Target(0, 0));
      assert filled[..|targets|] == targets;
      return SmallSet(|targets|, filled);
    }
    var gs := GroupByShard(targets, shards);
    GroupsVisit(gs, shards, targets);
    forall t ensures t in GroupsTargets(gs) <==> t in targets {
      if t in targets {
        var k :| 0 <= k < |targets| && targets[k] == t;
        assert Has(shards, t.shard);
      }
    }
    if Strict(targets) { SameMembersSameList(GroupsTargets(gs), targets); }
    s := ShardGrouped(gs);
  }
}
