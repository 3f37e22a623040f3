/** The route compiler and its table (aurum-routing): bindings become direct and fanout routes. */
module Routing {
  import opened IntrusiveList
  import opened QueueSets

  type Key = seq<char>

  datatype ExchangeKind = Direct | Fanout | Topic | Headers

  datatype Exchange = Exchange(id: nat, kind: ExchangeKind)

  datatype Rule = Rule(exchange: nat, key: Key, target: Target)

  datatype Config = Config(version: nat, exchanges: seq<Exchange>, rules: seq<Rule>)

  datatype CompileError = EmptyConfig | DuplicateExchangeId | ExchangeNotFound | UnsupportedExchangeKind

  datatype ResolveError = NoSuchExchange | NoRoute | UnsupportedKind

  datatype LookupError = VersionMismatch | RouteIdInvalid | GenerationMismatch | NotRoutable

  datatype Outcome<+T, +E> = Good(value: T) | Bad(error: E)

  datatype RouteFlags = RouteFlags(direct: bool, fanout: bool, unroutable: bool, multipleTargets: bool)

  datatype CompiledExchange = CompiledExchange(id: nat, kind: ExchangeKind, fanoutRoute: Option<nat>)

  datatype RouteEntry = RouteEntry(generation: nat, exchange: nat, queueSet: nat, flags: RouteFlags)

  datatype RouteId = RouteId(index: nat, generation: nat)

  datatype ResolvedRoute = ResolvedRoute(id: RouteId, version: nat, flags: RouteFlags)

  const GENERATION := 1

  /** The table's contents. */
  datatype Table = Table(version: nat, exchanges: seq<CompiledExchange>, routes: seq<RouteEntry>, sets: seq<QueueSet>,
                         direct: map<(nat, Key), RouteId>, byId: map<nat, nat>)

  // ---- Lookups

  /** `resolve_direct` */
  function ResolveDirect(t: Table, id: nat, key: Key): (r: Outcome<ResolvedRoute, ResolveError>)
    requires forall k :: k in t.direct ==> t.direct[k].index < |t.routes|
    requires forall k :: 0 <= k < |t.exchanges| && t.exchanges[k].fanoutRoute.Some? ==>
      t.exchanges[k].fanoutRoute.value < |t.routes|
  {
    if id !in t.byId || t.byId[id] >= |t.exchanges| then Bad(NoSuchExchange) else
    var exchange := t.exchanges[t.byId[id]];
    match exchange.kind
    case Direct =>
      if (id, key) !in t.direct then Bad(NoRoute) else
      var route := t.direct[(id, key)];
      var entry := t.routes[route.index];
      if entry.flags.unroutable then Bad(NoRoute) else Good(ResolvedRoute(route, t.version, entry.flags))
    case Fanout =>
      if exchange.fanoutRoute.None? then Bad(NoRoute) else
      var index := exchange.fanoutRoute.value;
      var entry := t.routes[index];
      if entry.flags.unroutable then Bad(NoRoute)
      else Good(ResolvedRoute(RouteId(index, entry.generation), t.version, entry.flags))
    case _ => Bad(UnsupportedKind)
  }

  /** `get_by_route_id` */
  function GetByRouteId(t: Table, id: RouteId, expectedVersion: nat): (r: Outcome<QueueSet, LookupError>) {
    if t.version != expectedVersion then Bad(VersionMismatch)
    else if id.index >= |t.routes| then Bad(RouteIdInvalid)
    else
      var entry := t.routes[id.index];
      if entry.generation != id.generation then Bad(GenerationMismatch)
      else if entry.flags.unroutable then Bad(NotRoutable)
      else Good(if entry.queueSet < |t.sets| then t.sets[entry.queueSet] else EmptySet)
  }

  /** `route_flags_for_entry` */
  function FlagsFor(s: QueueSet, base: RouteFlags): (f: RouteFlags) {
    match s
    case EmptySet => base.(unroutable := true)
    case OneTarget(_) => base
    case SmallSet(len, _) => if len > 1 then base.(multipleTargets := true) else base
    case ShardGrouped(_) => base.(multipleTargets := true)
  }

  // ---- What the bindings mean

  predicate Declared(c: Config, id: nat) {
    exists k :: 0 <= k < |c.exchanges| && c.exchanges[k].id == id
  }

  predicate UniqueExchanges(c: Config) {
    forall j, k :: 0 <= j < k < |c.exchanges| ==> c.exchanges[j].id != c.exchanges[k].id
  }

  predicate RulesResolve(c: Config) {
    forall k :: 0 <= k < |c.rules| ==> Declared(c, c.rules[k].exchange)
  }

  predicate Supported(c: Config) {
    forall k :: 0 <= k < |c.exchanges| ==> c.exchanges[k].kind == Direct || c.exchanges[k].kind == Fanout
  }

  /** The rule applies to messages for this exchange with this key. */
  predicate Applies(r: Rule, x: Exchange, key: Key) {
    r.exchange == x.id && (x.kind == Fanout || r.key == key)
  }

  ghost predicate Bound(c: Config, x: Exchange, key: Key, t: Target) {
    exists k :: 0 <= k < |c.rules| && Applies(c.rules[k], x, key) && c.rules[k].target == t
  }

  ghost predicate AnyBound(c: Config, x: Exchange, key: Key) {
    exists k :: 0 <= k < |c.rules| && Applies(c.rules[k], x, key)
  }

  // ---- What a compiled route must say

  /** Route `index` of the exchange leads to exactly the targets bound for the key, sorted, and is flagged
      by the exchange's kind, unroutable exactly when there are none and multiple exactly when there are
      several. */
  ghost predicate RouteServes(t: Table, index: nat, c: Config, x: Exchange, key: Key) {
    && index < |t.routes| && t.routes[index].generation == GENERATION && t.routes[index].queueSet < |t.sets|
    && var s, flags := t.sets[t.routes[index].queueSet], t.routes[index].flags;
    && SetOk(s) && Strict(TargetsOf(s)) && (forall target :: target in TargetsOf(s) <==> Bound(c, x, key, target))
    && (flags.unroutable <==> TargetsOf(s) == []) && (flags.multipleTargets <==> |TargetsOf(s)| > 1)
    && (flags.direct <==> x.kind == Direct) && (flags.fanout <==> x.kind == Fanout)
    && t.routes[index].exchange == x.id
  }

  ghost predicate Compiled(t: Table, c: Config, x: Exchange) {
    && x.id in t.byId && t.byId[x.id] < |t.exchanges| && t.exchanges[t.byId[x.id]].kind == x.kind
    && (x.kind == Direct ==> forall key :: (x.id, key) in t.direct <==> AnyBound(c, x, key))
    && (x.kind == Direct ==> forall key :: (x.id, key) in t.direct ==>
      t.direct[(x.id, key)].generation == GENERATION && RouteServes(t, t.direct[(x.id, key)].index, c, x, key))
    && (x.kind == Fanout ==> var route := t.exchanges[t.byId[x.id]].fanoutRoute;
      route.Some? && forall key :: RouteServes(t, route.value, c, x, key))
  }

  ghost predicate TableOk(t: Table) {
    && (forall k :: k in t.direct ==> t.direct[k].index < |t.routes|)
    && (forall k :: 0 <= k < |t.exchanges| && t.exchanges[k].fanoutRoute.Some? ==>
      t.exchanges[k].fanoutRoute.value < |t.routes|)
    && (forall id :: id in t.byId ==> t.byId[id] < |t.exchanges|)
  }

  /** A route is found under the table's own version and its own generation only. */
  ghost predicate OnlyAsHandedOut(t: Table, c: Config, id: RouteId) {
    && (forall v :: v != c.version ==> GetByRouteId(t, id, v) == Bad(VersionMismatch))
    && (forall g :: g != id.generation ==> GetByRouteId(t, RouteId(id.index, g), c.version) == Bad(GenerationMismatch))
  }

  /** The route of a fanout exchange. */
  function FanoutId(t: Table, x: Exchange): (id: Option<RouteId>) {
    if x.id !in t.byId || t.byId[x.id] >= |t.exchanges| then None else
      var index := t.exchanges[t.byId[x.id]].fanoutRoute;
      if index.None? then None else Some(RouteId(index.value, GENERATION))
  }

  /** Routing through the table finds exactly the bound targets, each once, in sorted order, under the
      version and the id that were handed out and under no other; it reports no route exactly when nothing
      is bound, and a fanout route without targets is refused by its id as well. */
  ghost predicate RoutesAs(t: Table, c: Config, x: Exchange, key: Key)
    requires TableOk(t)
  {
    match ResolveDirect(t, x.id, key)
    case Bad(e) =>
      && e == NoRoute && !AnyBound(c, x, key)
      && (x.kind == Fanout ==> var id := FanoutId(t, x);
        id.Some? && GetByRouteId(t, id.value, c.version) == Bad(NotRoutable) && OnlyAsHandedOut(t, c, id.value))
    case Good(route) =>
      && AnyBound(c, x, key) && route.version == c.version && OnlyAsHandedOut(t, c, route.id)
      && !route.flags.unroutable && (route.flags.direct <==> x.kind == Direct)
      && (route.flags.fanout <==> x.kind == Fanout)
      && var found := GetByRouteId(t, route.id, route.version);
      && found.Good? && SetOk(found.value) && Strict(TargetsOf(found.value))
      && (forall target :: target in TargetsOf(found.value) <==> Bound(c, x, key, target))
      && (route.flags.multipleTargets <==> |TargetsOf(found.value)| > 1)
  }

  lemma CompiledRoutes(t: Table, c: Config, x: Exchange, key: Key)
    requires TableOk(t) && t.version == c.version && Compiled(t, c, x) && (x.kind == Direct || x.kind == Fanout)
    ensures RoutesAs(t, c, x, key)
  {
    hide TargetsOf, Strict;
    if x.kind == Direct {
      if (x.id, key) in t.direct { ServedMeans(t, t.direct[(x.id, key)].index, c, x, key); }
    } else {
      ServedMeans(t, t.exchanges[t.byId[x.id]].fanoutRoute.value, c, x, key);
    }
  }

  lemma ServedMeans(t: Table, index: nat, c: Config, x: Exchange, key: Key)
    requires RouteServes(t, index, c, x, key)
    ensures t.routes[index].flags.unroutable <==> !AnyBound(c, x, key)
  {
    hide Strict;
    var ts := TargetsOf(t.sets[t.routes[index].queueSet]);
    if AnyBound(c, x, key) {
      var k :| 0 <= k < |c.rules| && Applies(c.rules[k], x, key);
      assert Bound(c, x, key, c.rules[k].target);
    }
    if ts != [] { assert ts[0] in ts; }
  }

  // ---- Growing a table

  /** Everything that was in the table stays; only exchange `id` may gain entries. */
  ghost predicate Grows(a: Table, b: Table, id: nat) {
    && b.version == a.version && a.exchanges <= b.exchanges && a.routes <= b.routes && a.sets <= b.sets
    && (forall i :: i in a.byId && i != id ==> i in b.byId && b.byId[i] == a.byId[i])
    && (forall i :: i in b.byId && i != id ==> i in a.byId)
    && (forall i, key :: i != id ==> ((i, key) in b.direct <==> (i, key) in a.direct))
    && (forall i, key :: i != id && (i, key) in a.direct ==> b.direct[(i, key)] == a.direct[(i, key)])
  }

  lemma GrowsTwice(a: Table, b: Table, d: Table, id: nat)
    requires Grows(a, b, id) && Grows(b, d, id)
    ensures Grows(a, d, id)
  {
  }

  lemma ServedStill(a: Table, b: Table, index: nat, c: Config, x: Exchange, key: Key)
    requires a.routes <= b.routes && a.sets <= b.sets && RouteServes(a, index, c, x, key)
    ensures RouteServes(b, index, c, x, key)
  {
    hide Strict, TargetsOf, Bound;
  }

  /** Compiling another exchange does not disturb this one. */
  lemma CompiledStill(a: Table, b: Table, c: Config, x: Exchange, id: nat)
    requires Compiled(a, c, x) && Grows(a, b, id) && id != x.id
    ensures Compiled(b, c, x)
  {
    hide RouteServes, AnyBound;
    if x.kind == Direct {
      forall key | (x.id, key) in b.direct ensures RouteServes(b, b.direct[(x.id, key)].index, c, x, key) {
        ServedStill(a, b, a.direct[(x.id, key)].index, c, x, key);
      }
    }
    if x.kind == Fanout {
      var route := a.exchanges[a.byId[x.id]].fanoutRoute;
      forall key ensures RouteServes(b, route.value, c, x, key) { ServedStill(a, b, route.value, c, x, key); }
    }
  }

  class RouteTable {
    const version: nat
    var exchanges: seq<CompiledExchange>
    var routes: seq<RouteEntry>
    var sets: seq<QueueSet>
    var direct: map<(nat, Key), RouteId>
    var byId: map<nat, nat>

    function Value(): (t: Table)
      reads this
    {
      Table(version, exchanges, routes, sets, direct, byId)
    }

    constructor (version: nat)
      ensures Value() == Table(version, [], [], [], map[], map[])
    {
      this.version, exchanges, routes, sets, direct, byId := version, [], [], [], map[], map[];
    }

    method PushExchange(x: CompiledExchange)
      modifies this
      ensures Value() == old(Value()).(exchanges := old(exchanges) + [x], byId := old(byId)[x.id := |old(exchanges)|])
    {
      byId := byId[x.id := |exchanges|];
      exchanges := exchanges + [x];
    }

    method PushRouteEntry(e: RouteEntry) returns (id: RouteId)
      modifies this
      ensures Value() == old(Value()).(routes := old(routes) + [e]) && id == RouteId(|old(routes)|, e.generation)
    {
      id := RouteId(|routes|, e.generation);
      routes := routes + [e];
    }

    method PushSet(s: QueueSet) returns (id: nat)
      modifies this
      ensures Value() == old(Value()).(sets := old(sets) + [s]) && id == |old(sets)|
    {
      id := |sets|;
      sets := sets + [s];
    }

    method MapDirect(exchange: nat, key: Key, route: RouteId)
      modifies this
      ensures Value() == old(Value()).(direct := old(direct)[(exchange, key) := route])
    {
      direct := direct[(exchange, key) := route];
    }

    /** Push a queue set and a route to it. */
    method AddRoute(x: Exchange, ghost c: Config, ghost key: Key, targets: seq<Target>, base: RouteFlags)
      returns (id: RouteId)
      requires TableOk(Value()) && Strict(targets) && !base.unroutable && !base.multipleTargets
      requires (base.direct <==> x.kind == Direct) && (base.fanout <==> x.kind == Fanout)
      requires forall t :: t in targets <==> Bound(c, x, key, t)
      modifies this
      ensures exchanges == old(exchanges) && direct == old(direct) && byId == old(byId)
      ensures old(routes) <= routes && |routes| == |old(routes)| + 1 && old(sets) <= sets
      ensures TableOk(Value()) && id == RouteId(|old(routes)|, GENERATION) && RouteServes(Value(), id.index, c, x, key)
    {
      hide Strict, Bound, AnyBound;
      var s := BuildSet(targets);
      FlagsMean(s, base, targets);
      var setId := PushSet(s);
      var entry := RouteEntry(GENERATION, x.id, setId, FlagsFor(s, base));
      id := PushRouteEntry(entry);
    }
  }

  /** The flags tell no targets, and several, apart from one. */
  lemma FlagsMean(s: QueueSet, base: RouteFlags, targets: seq<Target>)
    requires SetOk(s) && TargetsOf(s) == targets && !base.unroutable && !base.multipleTargets
    requires s.EmptySet? <==> targets == []
    requires s.ShardGrouped? ==> |targets| > 1
    ensures var f := FlagsFor(s, base);
      && (f.unroutable <==> targets == []) && (f.multipleTargets <==> |targets| > 1)
      && f.direct == base.direct && f.fanout == base.fanout
  {
  }

  // ---- Compiling

  ghost predicate HasRule(rules: seq<Rule>, x: Exchange, key: Key) {
    exists k :: 0 <= k < |rules| && rules[k].exchange == x.id && rules[k].key == key
  }

  ghost predicate Collected(byKey: map<Key, seq<Target>>, rules: seq<Rule>, x: Exchange) {
    && (forall key :: key in byKey <==> HasRule(rules, x, key))
    && (forall key, t :: key in byKey ==> (t in byKey[key] <==> Rule(x.id, key, t) in rules))
  }

  /** The targets of a direct exchange, by routing key. */
  method CollectByKey(x: Exchange, c: Config) returns (byKey: map<Key, seq<Target>>)
    ensures Collected(byKey, c.rules, x)
  {
    byKey := map[];
    for k := 0 to |c.rules|
      invariant Collected(byKey, c.rules[..k], x)
    {
      var rule := c.rules[k];
      assert c.rules[..k + 1] == c.rules[..k] + [rule];
      CollectNext(byKey, c.rules, k, x);
      if rule.exchange == x.id {
        byKey := byKey[rule.key := (if rule.key in byKey then byKey[rule.key] else []) + [rule.target]];
      }
    }
    assert c.rules[..|c.rules|] == c.rules;
  }

  lemma CollectNext(byKey: map<Key, seq<Target>>, rules: seq<Rule>, k: nat, x: Exchange)
    requires k < |rules| && Collected(byKey, rules[..k], x)
    ensures var rule := rules[k];
      Collected(if rule.exchange != x.id then byKey
        else byKey[rule.key := (if rule.key in byKey then byKey[rule.key] else []) + [rule.target]], rules[..k + 1], x)
  {
    var rule, a, b := rules[k], rules[..k], rules[..k + 1];
    assert b == a + [rule];
    var next := if rule.exchange != x.id then byKey
      else byKey[rule.key := (if rule.key in byKey then byKey[rule.key] else []) + [rule.target]];
    forall key ensures key in next <==> HasRule(b, x, key) {
      KeyNext(rules, k, x, key);
    }
    forall key, t | key in next ensures t in next[key] <==> Rule(x.id, key, t) in b {
      KeyNext(rules, k, x, key);
      assert Rule(x.id, key, t) in b <==> Rule(x.id, key, t) in a || Rule(x.id, key, t) == rule;
      if key !in byKey { NoSuchRule(a, x, key, t); }
    }
  }

  lemma KeyNext(rules: seq<Rule>, k: nat, x: Exchange, key: Key)
    requires k < |rules|
    ensures HasRule(rules[..k + 1], x, key) <==>
      HasRule(rules[..k], x, key) || (rules[k].exchange == x.id && rules[k].key == key)
  {
    var a, b := rules[..k], rules[..k + 1];
    assert b[k] == rules[k] && forall j :: 0 <= j < k ==> b[j] == a[j];
  }

  lemma NoSuchRule(rules: seq<Rule>, x: Exchange, key: Key, t: Target)
    requires !HasRule(rules, x, key)
    ensures Rule(x.id, key, t) !in rules
  {
  }

  lemma CollectedMeans(byKey: map<Key, seq<Target>>, c: Config, x: Exchange, key: Key)
    requires x.kind == Direct && Collected(byKey, c.rules, x)
    ensures key in byKey <==> AnyBound(c, x, key)
    ensures key in byKey ==> forall t :: t in byKey[key] <==> Bound(c, x, key, t)
  {
    if key in byKey {
      forall t ensures t in byKey[key] <==> Bound(c, x, key, t) {
        if Bound(c, x, key, t) {
          var k :| 0 <= k < |c.rules| && Applies(c.rules[k], x, key) && c.rules[k].target == t;
          assert c.rules[k] == Rule(x.id, key, t);
        }
      }
    }
  }

  /** The exchange has no entries yet. */
  ghost predicate Unseen(t: Table, id: nat) {
    id !in t.byId && forall key :: (id, key) !in t.direct
  }

  /** The keys compiled so far have their routes, the others none. */
  ghost predicate DirectSoFar(a: Table, b: Table, c: Config, x: Exchange, done: set<Key>) {
    && Grows(a, b, x.id) && TableOk(b)
    && x.id in b.byId && b.byId[x.id] < |b.exchanges| && b.exchanges[b.byId[x.id]].kind == Direct
    && (forall key :: (x.id, key) in b.direct <==> key in done)
    && (forall key :: key in done ==>
      (x.id, key) in b.direct && b.direct[(x.id, key)].generation == GENERATION
        && RouteServes(b, b.direct[(x.id, key)].index, c, x, key))
  }

  lemma DirectStarts(a: Table, b: Table, c: Config, x: Exchange)
    requires TableOk(a) && Unseen(a, x.id)
    requires b ==
      a.(exchanges := a.exchanges + [CompiledExchange(x.id, Direct, None)], byId := a.byId[x.id := |a.exchanges|])
    ensures DirectSoFar(a, b, c, x, {})
  {
  }

  lemma DirectStep(a: Table, b: Table, m: Table, d: Table, c: Config, x: Exchange, done: set<Key>, key: Key,
      route: RouteId)
    requires DirectSoFar(a, b, c, x, done) && key !in done && TableOk(m)
    requires m.version == b.version && m.exchanges == b.exchanges && m.direct == b.direct && m.byId == b.byId
    requires b.routes <= m.routes && b.sets <= m.sets
    requires route.index < |m.routes| && route.generation == GENERATION && RouteServes(m, route.index, c, x, key)
    requires d == m.(direct := m.direct[(x.id, key) := route])
    ensures DirectSoFar(a, d, c, x, done + {key})
  {
    hide RouteServes;
    assert forall k :: k in d.direct ==> k in m.direct || k == (x.id, key);
    assert Grows(b, d, x.id);
    GrowsTwice(a, b, d, x.id);
    forall k | k in done + {key} ensures RouteServes(d, d.direct[(x.id, k)].index, c, x, k) {
      if k == key {
        ServedStill(m, d, route.index, c, x, key);
      } else {
        ServedStill(b, d, b.direct[(x.id, k)].index, c, x, k);
      }
    }
  }

  lemma DirectDone(a: Table, b: Table, c: Config, x: Exchange, byKey: map<Key, seq<Target>>)
    requires x.kind == Direct && DirectSoFar(a, b, c, x, byKey.Keys) && Collected(byKey, c.rules, x)
    ensures Compiled(b, c, x)
  {
    hide RouteServes, AnyBound, Bound, Collected;
    forall key ensures (x.id, key) in b.direct <==> AnyBound(c, x, key) { CollectedMeans(byKey, c, x, key); }
  }

  /** `compile_direct` */
  method CompileDirect(x: Exchange, c: Config, table: RouteTable)
    requires x.kind == Direct && TableOk(table.Value()) && Unseen(table.Value(), x.id)
    modifies table
    ensures TableOk(table.Value()) && Grows(old(table.Value()), table.Value(), x.id) && Compiled(table.Value(), c, x)
  {
    hide TableOk, RouteServes, AnyBound, Bound, Collected, Strict;
    var byKey := CollectByKey(x, c);
    ghost var a := table.Value();
    table.PushExchange(CompiledExchange(x.id, Direct, None));
    DirectStarts(a, table.Value(), c, x);
    var pending := byKey.Keys;
    ghost var done := {};
    while pending != {}
      invariant pending !! done && pending + done == byKey.Keys && DirectSoFar(a, table.Value(), c, x, done)
      decreases pending
    {
      var key :| key in pending;
      pending := pending - {key};
      CollectedMeans(byKey, c, x, key);
      ghost var b := table.Value();
      var targets := DedupeTargets(byKey[key]);
      var route := table.AddRoute(x, c, key, targets, RouteFlags(true, false, false, false));
      ghost var m := table.Value();
      table.MapDirect(x.id, key, route);
      RouteInRange(m, route.index, c, x, key);
      DirectStep(a, b, m, table.Value(), c, x, done, key, route);
      done := done + {key};
    }
    assert done == byKey.Keys;
    DirectDone(a, table.Value(), c, x, byKey);
  }

  lemma RouteInRange(t: Table, index: nat, c: Config, x: Exchange, key: Key)
    requires RouteServes(t, index, c, x, key)
    ensures index < |t.routes|
  {
  }

  /** The targets of a fanout exchange, whatever their keys. */
  method CollectAll(x: Exchange, c: Config) returns (targets: seq<Target>)
    requires x.kind == Fanout
    ensures forall t, key :: t in targets <==> Bound(c, x, key, t)
  {
    targets := [];
    for k := 0 to |c.rules|
      invariant forall t ::
        t in targets <==> exists j :: 0 <= j < k && c.rules[j].exchange == x.id && c.rules[j].target == t
    {
      if c.rules[k].exchange == x.id {
        targets := targets + [c.rules[k].target];
      }
    }
    forall t, key ensures t in targets <==> Bound(c, x, key, t) {
      if Bound(c, x, key, t) {
        var k :| 0 <= k < |c.rules| && Applies(c.rules[k], x, key) && c.rules[k].target == t;
      }
    }
  }

  /** `compile_fanout` */
  method CompileFanout(x: Exchange, c: Config, table: RouteTable)
    requires x.kind == Fanout && TableOk(table.Value()) && Unseen(table.Value(), x.id)
    modifies table
    ensures TableOk(table.Value()) && Grows(old(table.Value()), table.Value(), x.id) && Compiled(table.Value(), c, x)
  {
    hide TableOk, RouteServes, AnyBound, Bound, Strict;
    var all := CollectAll(x, c);
    var targets := DedupeTargets(all);
    ghost var a := table.Value();
    var route := table.AddRoute(x, c, [], targets, RouteFlags(false, true, false, false));
    ghost var m := table.Value();
    table.PushExchange(CompiledExchange(x.id, Fanout, Some(route.index)));
    FanoutDone(a, m, table.Value(), c, x, route.index);
  }

  lemma FanoutDone(a: Table, m: Table, d: Table, c: Config, x: Exchange, index: nat)
    requires x.kind == Fanout && TableOk(a) && TableOk(m) && Unseen(a, x.id) && RouteServes(m, index, c, x, [])
    requires m.version == a.version && m.exchanges == a.exchanges && m.direct == a.direct && m.byId == a.byId
    requires a.routes <= m.routes && a.sets <= m.sets
    requires d == m.(exchanges := m.exchanges + [CompiledExchange(x.id, Fanout, Some(index))],
      byId := m.byId[x.id := |m.exchanges|])
    ensures TableOk(d) && Grows(a, d, x.id) && Compiled(d, c, x)
  {
    hide RouteServes;
    RouteInRange(m, index, c, x, []);
    forall key ensures RouteServes(d, index, c, x, key) { FanoutAnyKey(m, d, index, c, x, key); }
  }

  lemma FanoutAnyKey(m: Table, d: Table, index: nat, c: Config, x: Exchange, key: Key)
    requires x.kind == Fanout && m.routes <= d.routes && m.sets <= d.sets && RouteServes(m, index, c, x, [])
    ensures RouteServes(d, index, c, x, key)
  {
    hide Strict, TargetsOf;
    forall t ensures Bound(c, x, key, t) <==> Bound(c, x, [], t) { }
  }

  /** Why a configuration is refused, in the order of the checks. */
  function Verdict(c: Config): (e: Option<CompileError>)
    ensures e == Some(EmptyConfig) <==> c.exchanges == []
    ensures e == Some(DuplicateExchangeId) <==> !UniqueExchanges(c)
    ensures e == Some(ExchangeNotFound) <==> c.exchanges != [] && UniqueExchanges(c) && !RulesResolve(c)
    ensures e == None <==> c.exchanges != [] && UniqueExchanges(c) && RulesResolve(c) && Supported(c)
  {
    if c.exchanges == [] then Some(EmptyConfig)
    else if !UniqueExchanges(c) then Some(DuplicateExchangeId)
    else if !RulesResolve(c) then Some(ExchangeNotFound)
    else if !Supported(c) then Some(UnsupportedExchangeKind)
    else None
  }

  method CheckUnique(c: Config) returns (unique: bool)
    ensures unique <==> UniqueExchanges(c)
  {
    var seen := {};
    for k := 0 to |c.exchanges|
      invariant forall id :: id in seen <==> exists j :: 0 <= j < k && c.exchanges[j].id == id
      invariant forall i, j :: 0 <= i < j < k ==> c.exchanges[i].id != c.exchanges[j].id
    {
      if c.exchanges[k].id in seen {
        return false;
      }
      seen := seen + {c.exchanges[k].id};
    }
    unique := true;
  }

  method CheckRules(c: Config) returns (resolve: bool)
    ensures resolve <==> RulesResolve(c)
  {
    var ids := set k | 0 <= k < |c.exchanges| :: c.exchanges[k].id;
    for k := 0 to |c.rules|
      invariant forall j :: 0 <= j < k ==> Declared(c, c.rules[j].exchange)
    {
      if c.rules[k].exchange !in ids {
        assert !Declared(c, c.rules[k].exchange);
        return false;
      }
    }
    resolve := true;
  }

  ghost predicate CompiledUpTo(t: Table, c: Config, n: nat)
    requires n <= |c.exchanges|
  {
    && TableOk(t) && t.version == c.version
    && (forall id :: id in t.byId ==> exists k :: 0 <= k < n && c.exchanges[k].id == id)
    && (forall id, key :: (id, key) in t.direct ==> exists k :: 0 <= k < n && c.exchanges[k].id == id)
    && (forall k :: 0 <= k < n ==> Compiled(t, c, c.exchanges[k]))
  }

  lemma NotSeenYet(t: Table, c: Config, n: nat)
    requires UniqueExchanges(c) && n < |c.exchanges| && CompiledUpTo(t, c, n)
    ensures Unseen(t, c.exchanges[n].id)
  {
    hide Compiled, TableOk;
  }

  lemma CompileNext(a: Table, b: Table, c: Config, n: nat)
    requires UniqueExchanges(c) && n < |c.exchanges| && CompiledUpTo(a, c, n)
    requires TableOk(b) && Grows(a, b, c.exchanges[n].id) && Compiled(b, c, c.exchanges[n])
    ensures CompiledUpTo(b, c, n + 1)
  {
    hide Compiled, TableOk;
    forall k | 0 <= k < n ensures Compiled(b, c, c.exchanges[k]) {
      CompiledStill(a, b, c, c.exchanges[k], c.exchanges[n].id);
    }
    forall id, key | (id, key) in b.direct ensures exists k :: 0 <= k < n + 1 && c.exchanges[k].id == id {
      if id != c.exchanges[n].id { assert (id, key) in a.direct; }
    }
  }

  /** `compile`: a configuration is accepted exactly when it is not empty, its exchange ids are
      unique, its bindings name declared exchanges and all kinds are supported; the table then
      routes as the bindings say. */
  method Compile(c: Config) returns (error: Option<CompileError>, table: RouteTable)
    ensures error == Verdict(c) && fresh(table)
    ensures error.None? ==> TableOk(table.Value()) && table.version == c.version
    ensures error.None? ==> forall k, key :: 0 <= k < |c.exchanges| ==> RoutesAs(table.Value(), c, c.exchanges[k], key)
    ensures error.None? ==>
      forall id, key :: !Declared(c, id) ==> ResolveDirect(table.Value(), id, key) == Bad(NoSuchExchange)
    ensures error.None? ==> forall id: RouteId :: id.index >= |table.routes| ==>
      GetByRouteId(table.Value(), id, c.version) == Bad(RouteIdInvalid)
  {
    hide TableOk, Compiled, RoutesAs, CompiledUpTo;
    table := new RouteTable(c.version);
    if c.exchanges == [] {
      return Some(EmptyConfig), table;
    }
    var unique := CheckUnique(c);
    if !unique {
      return Some(DuplicateExchangeId), table;
    }
    var resolve := CheckRules(c);
    if !resolve {
      return Some(ExchangeNotFound), table;
    }
    NothingCompiled(c);
    for k := 0 to |c.exchanges|
      invariant fresh(table) && table.version == c.version && CompiledUpTo(table.Value(), c, k)
      invariant forall j :: 0 <= j < k ==> c.exchanges[j].kind == Direct || c.exchanges[j].kind == Fanout
    {
      ghost var before := table.Value();
      NotSeenYet(before, c, k);
      UpToOk(before, c, k);
      match c.exchanges[k].kind {
        case Direct => CompileDirect(c.exchanges[k], c, table);
        case Fanout => CompileFanout(c.exchanges[k], c, table);
        case Topic => return Some(UnsupportedExchangeKind), table;
        case Headers => return Some(UnsupportedExchangeKind), table;
      }
      CompileNext(before, table.Value(), c, k);
    }
    Finished(table.Value(), c);
    error := None;
  }

  lemma NothingCompiled(c: Config)
    ensures CompiledUpTo(Table(c.version, [], [], [], map[], map[]), c, 0)
  {
  }

  lemma UpToOk(t: Table, c: Config, n: nat)
    requires n <= |c.exchanges| && CompiledUpTo(t, c, n)
    ensures TableOk(t)
  {
  }

  lemma Finished(t: Table, c: Config)
    requires Supported(c) && CompiledUpTo(t, c, |c.exchanges|)
    ensures TableOk(t)
    ensures forall k, key :: 0 <= k < |c.exchanges| ==> RoutesAs(t, c, c.exchanges[k], key)
    ensures forall id, key :: !Declared(c, id) ==> ResolveDirect(t, id, key) == Bad(NoSuchExchange)
  {
    hide Compiled, RoutesAs;
    forall k, key | 0 <= k < |c.exchanges| ensures RoutesAs(t, c, c.exchanges[k], key) {
      CompiledRoutes(t, c, c.exchanges[k], key);
    }
  }
}
