/** Intrusive doubly linked lists over the indices of an external arena (aurum-intrusive). */
module IntrusiveList {

  datatype Option<+T> = None | Some(value: T)

  const U32_MAX: nat := 0xFFFF_FFFF

  /** Bit 31 of a link state marks the node as linked; the low bits hold the list tag. */
  const LINKED: nat := 0x8000_0000
  const MAX_LIST_TAG: nat := 0x7FFF_FFFF

  datatype Link = Link(prev: Option<nat>, next: Option<nat>, state: nat) {
    predicate IsLinked() { state >= LINKED }

    function Tag(): (t: Option<nat>)
      ensures t.Some? <==> IsLinked()
    {
      if IsLinked() then Some(state - LINKED) else None
    }

    predicate BelongsTo(tag: nat) { state == LINKED + tag }
  }

  const UNLINKED: Link := Link(None, None, 0)

  datatype ListError =
    | IndexOutOfBounds(index: nat, len: nat)
    | AlreadyLinked(index: nat, tag: Option<nat>)
    | NotLinked(index: nat)
    | WrongList(index: nat, expectedTag: nat, actualTag: Option<nat>)
    | LengthOverflow

  datatype ValidateError =
    | EmptyListHasHead(head: Option<nat>)
    | EmptyListHasTail(tail: Option<nat>)
    | NonEmptyListMissingHead
    | NonEmptyListMissingTail
    | LenExceedsNodes(len: nat, nodes: nat)
    | NodeOutOfBounds(index: nat, nodes: nat)
    | UnlinkedNodeInList(index: nat)
    | WrongTag(index: nat, expectedTag: nat, actualTag: Option<nat>)
    | BrokenPrev(index: nat, expected: Option<nat>, actual: Option<nat>)
    | BrokenNext(index: nat, expected: Option<nat>, actual: Option<nat>)
    | TailMismatch(expected: Option<nat>, actual: Option<nat>)
    | HeadMismatch(expected: Option<nat>, actual: Option<nat>)
    | LengthMismatch(expectedLen: nat, actualLen: nat)
    | CycleDetected

  datatype Outcome<+E> = Ok | Err(error: E)

  /** The nodes of an arena: payloads, and for every link slot the column of that slot's links. */
  class Arena<T> {
    var nodes: seq<T>
    var links: seq<seq<Link>>

    ghost predicate Valid()
      reads this
    {
      |nodes| <= U32_MAX && forall s :: 0 <= s < |links| ==> |links[s]| == |nodes|
    }

    constructor (slots: nat)
      ensures Valid() && nodes == [] && |links| == slots
    {
      nodes := [];
      links := seq(slots, _ => []);
    }

    /** A fresh node is unlinked in every slot. */
    method Push(node: T)
      requires Valid() && |nodes| < U32_MAX
      modifies this
      ensures Valid() && nodes == old(nodes) + [node] && |links| == |old(links)|
      ensures forall s :: 0 <= s < |links| ==> links[s] == old(links[s]) + [UNLINKED]
    {
      nodes := nodes + [node];
      links := seq(|links|, s requires 0 <= s < |links| reads this => links[s] + [UNLINKED]);
    }
  }

  predicate Distinct<T(==)>(s: seq<T>) {
    forall j, k :: 0 <= j < k < |s| ==> s[j] != s[k]
  }

  function PrevOf(items: seq<nat>, k: nat): (p: Option<nat>)
    requires k < |items|
  {
    if k == 0 then None else Some(items[k - 1])
  }

  function NextOf(items: seq<nat>, k: nat): (n: Option<nat>)
    requires k < |items|
  {
    if k == |items| - 1 then None else Some(items[k + 1])
  }

  function First(items: seq<nat>): (f: Option<nat>) {
    if items == [] then None else Some(items[0])
  }

  function Last(items: seq<nat>): (l: Option<nat>) {
    if items == [] then None else Some(items[|items| - 1])
  }

  datatype Header = Header(head: Option<nat>, tail: Option<nat>, len: nat)

  /** Only links of `touched` nodes in one slot differ. */
  ghost predicate LinksApart(was: seq<seq<Link>>, links: seq<seq<Link>>, slot: nat, touched: seq<nat>) {
    && slot < |was| == |links|
    && (forall s :: 0 <= s < |links| && s != slot ==> links[s] == was[s])
    && |links[slot]| == |was[slot]|
    && (forall i :: 0 <= i < |links[slot]| && i !in touched ==> links[slot][i] == was[slot][i])
  }

  /** A header and a link column realise the sequence of node indices `items`. */
  ghost predicate Realises(h: Header, links: seq<Link>, tag: nat, items: seq<nat>) {
    && h == Header(First(items), Last(items), |items|)
    && Distinct(items)
    && (forall k :: 0 <= k < |items| ==> items[k] < |links|)
    && (forall k {:trigger MemberLink(links, tag, items, k)} :: 0 <= k < |items| ==> MemberLink(links, tag, items, k))
  }

  /** Member `k` is linked between its neighbours and carries the list's tag. */
  ghost predicate MemberLink(links: seq<Link>, tag: nat, items: seq<nat>, k: int)
    requires 0 <= k < |items| && items[k] < |links|
  {
    links[items[k]] == Link(PrevOf(items, k), NextOf(items, k), LINKED + tag)
  }

  lemma MembersAreLinked(h: Header, links: seq<Link>, tag: nat, items: seq<nat>)
    requires Realises(h, links, tag, items)
    ensures forall i :: i in items ==> i < |links| && links[i].BelongsTo(tag)
  {
    forall i | i in items ensures i < |links| && links[i].BelongsTo(tag) {
      var k :| 0 <= k < |items| && items[k] == i;
      assert MemberLink(links, tag, items, k);
    }
  }

  /** Only the links of its own members matter to a list. */
  lemma OtherLinksAreIrrelevant(h: Header, links: seq<Link>, links': seq<Link>, tag: nat, items: seq<nat>)
    requires Realises(h, links, tag, items)
    requires forall k :: 0 <= k < |items| ==> items[k] < |links'| && links'[items[k]] == links[items[k]]
    ensures Realises(h, links', tag, items)
  {
    forall k | 0 <= k < |items| ensures MemberLink(links', tag, items, k) { assert MemberLink(links, tag, items, k); }
  }

  // ---- The column edits behind insertion and removal

  /** Write `index` between `prev` and `next`, in the order `push_*` and `insert_*` write it. */
  function LinkBetween(links: seq<Link>, tag: nat, prev: Option<nat>, next: Option<nat>, index: nat): (r: seq<Link>)
    requires index < |links|
    requires prev.Some? ==> prev.value < |links|
    requires next.Some? ==> next.value < |links|
    requires prev != Some(index) && next != Some(index) && (prev.Some? ==> prev != next)
    ensures |r| == |links|
    ensures forall i :: 0 <= i < |r| ==>
      (r[i] == if i == index then Link(prev, next, LINKED + tag)
               else if prev == Some(i) then links[i].(next := Some(index))
               else if next == Some(i) then links[i].(prev := Some(index))
               else links[i])
  {
    var a := links[index := Link(prev, next, LINKED + tag)];
    var b := if prev.Some? then a[prev.value := a[prev.value].(next := Some(index))] else a;
    if next.Some? then b[next.value := b[next.value].(prev := Some(index))] else b
  }

  /** `splice_out`: route the neighbours of `index` around it. */
  function Splice(links: seq<Link>, index: nat): (r: seq<Link>)
    requires index < |links|
    requires links[index].prev.Some? ==> links[index].prev.value < |links|
    requires links[index].next.Some? ==> links[index].next.value < |links|
    requires links[index].prev.Some? ==> links[index].prev != links[index].next
    ensures |r| == |links|
    ensures forall i :: 0 <= i < |r| ==>
      (r[i] == if links[index].prev == Some(i) then links[i].(next := links[index].next)
               else if links[index].next == Some(i) then links[i].(prev := links[index].prev)
               else links[i])
  {
    var Link(prev, next, _) := links[index];
    var a := if prev.Some? then links[prev.value := links[prev.value].(next := next)] else links;
    if next.Some? then a[next.value := a[next.value].(prev := prev)] else a
  }

  function InsertAt<T>(items: seq<T>, k: nat, index: T): (r: seq<T>)
    requires k <= |items|
    ensures |r| == |items| + 1
    ensures forall j {:trigger r[j]} :: 0 <= j < |r| ==>
      r[j] == if j < k then items[j] else if j == k then index else items[j - 1]
  {
    items[..k] + [index] + items[k..]
  }

  function RemoveAt<T>(items: seq<T>, k: nat): (r: seq<T>)
    requires k < |items|
    ensures |r| == |items| - 1
    ensures forall j {:trigger r[j]} :: 0 <= j < |r| ==> r[j] == if j < k then items[j] else items[j + 1]
  {
    items[..k] + items[k + 1..]
  }

  lemma InsertRealises(h: Header, links: seq<Link>, tag: nat, items: seq<nat>, k: nat, index: nat)
    requires Realises(h, links, tag, items)
    requires k <= |items| && index < |links| && index !in items
    ensures var prev := if k == 0 then None else Some(items[k - 1]);
            var next := if k == |items| then None else Some(items[k]);
            var h' :=
              Header(if k == 0 then Some(index) else h.head, if k == |items| then Some(index) else h.tail, h.len + 1);
            Realises(h', LinkBetween(links, tag, prev, next, index), tag, InsertAt(items, k, index))
  {
    hide InsertAt, LinkBetween;
    var r := InsertAt(items, k, index);
    var prev := if k == 0 then None else Some(items[k - 1]);
    var next := if k == |items| then None else Some(items[k]);
    var links' := LinkBetween(links, tag, prev, next, index);
    forall j | 0 <= j < |r| ensures MemberLink(links', tag, r, j) {
      if j < k { assert MemberLink(links, tag, items, j); }
      else if j > k { assert MemberLink(links, tag, items, j - 1); }
    }
  }

  /** The header once member `k` is unlinked. */
  function WithoutMember(h: Header, items: seq<nat>, k: nat): (r: Header)
    requires k < |items| && h.len > 0
  {
    var head := if k == 0 then NextOf(items, k) else h.head;
    var tail := if k == |items| - 1 then PrevOf(items, k) else h.tail;
    Header(head, tail, h.len - 1)
  }

  lemma RemoveRealises(h: Header, links: seq<Link>, tag: nat, items: seq<nat>, k: nat)
    requires Realises(h, links, tag, items) && k < |items|
    ensures MemberLink(links, tag, items, k)
    ensures Realises(WithoutMember(h, items, k), Splice(links, items[k]), tag, RemoveAt(items, k))
  {
    assert MemberLink(links, tag, items, k);
    hide RemoveAt, Splice;
    var r := RemoveAt(items, k);
    assert Distinct(r);
    var links' := Splice(links, items[k]);
    forall j | 0 <= j < |r| ensures MemberLink(links', tag, r, j) {
      if j < k { assert MemberLink(links, tag, items, j); }
      else { assert MemberLink(links, tag, items, j + 1); }
    }
  }

  lemma RemovedIsGone(items: seq<nat>, k: nat)
    requires Distinct(items) && k < |items|
    ensures forall i :: i in RemoveAt(items, k) <==> i in items && i != items[k]
  {
    assert items == items[..k] + [items[k]] + items[k + 1..];
  }

  class IndexList {
    const slot: nat
    const tag: nat
    var head: Option<nat>
    var tail: Option<nat>
    var len: nat
    ghost var items: seq<nat>

    constructor (slot: nat, tag: nat)
      requires tag <= MAX_LIST_TAG
      ensures this.slot == slot && this.tag == tag && items == []
      ensures head == None && tail == None && len == 0
    {
      this.slot, this.tag := slot, tag;
      head, tail, len, items := None, None, 0, [];
    }

    ghost predicate Valid<T>(arena: Arena<T>)
      reads this, arena
    {
      && arena.Valid()
      && slot < |arena.links|
      && tag <= MAX_LIST_TAG
      && Realises(Header(head, tail, len), arena.links[slot], tag, items)
    }

    /** What every operation leaves alone: payloads, the other slots, and the links of all
        nodes outside `touched`. */
    twostate predicate Frame<T>(arena: Arena<T>, touched: seq<nat>)
      reads this, arena
    {
      arena.nodes == old(arena.nodes) && LinkFrame(arena, touched)
    }

    twostate predicate LinkFrame<T>(arena: Arena<T>, touched: seq<nat>)
      reads this, arena
    {
      LinksApart(old(arena.links), arena.links, slot, touched)
    }

    /** Link `index` behind the tail: shared by `push_back` and `move_to_back`, which differ in
        what they do to `len`. */
    method LinkBack<T>(arena: Arena<T>, index: nat)
      requires arena.Valid() && slot < |arena.links| && index < |arena.nodes| && index !in items
      requires Realises(Header(head, tail, |items|), arena.links[slot], tag, items)
      modifies this`head, this`tail, this`items, arena`links
      ensures items == old(items) + [index]
      ensures arena.Valid() && Frame(arena, old(items) + [index])
      ensures Realises(Header(head, tail, |items|), arena.links[slot], tag, items)
    {
      InsertRealises(Header(head, tail, |items|), arena.links[slot], tag, items, |items|, index);
      var oldTail := tail;
      var col := arena.links[slot][index := Link(oldTail, None, LINKED + tag)];
      match oldTail {
        case Some(t) => col := col[t := col[t].(next := Some(index))];
        case None => head := Some(index);
      }
      arena.links := arena.links[slot := col];
      tail := Some(index);
      items := InsertAt(items, |items|, index);
    }

    method LinkFront<T>(arena: Arena<T>, index: nat)
      requires arena.Valid() && slot < |arena.links| && index < |arena.nodes| && index !in items
      requires Realises(Header(head, tail, |items|), arena.links[slot], tag, items)
      modifies this`head, this`tail, this`items, arena`links
      ensures items == [index] + old(items)
      ensures arena.Valid() && Frame(arena, old(items) + [index])
      ensures Realises(Header(head, tail, |items|), arena.links[slot], tag, items)
    {
      InsertRealises(Header(head, tail, |items|), arena.links[slot], tag, items, 0, index);
      var oldHead := head;
      var col := arena.links[slot][index := Link(None, oldHead, LINKED + tag)];
      match oldHead {
        case Some(h) => col := col[h := col[h].(prev := Some(index))];
        case None => tail := Some(index);
      }
      arena.links := arena.links[slot := col];
      head := Some(index);
      items := InsertAt(items, 0, index);
    }

    method PushBack<T>(arena: Arena<T>, index: nat)
      requires Valid(arena)
      requires index < |arena.nodes| && !arena.links[slot][index].IsLinked()
      requires len < U32_MAX
      modifies this, arena`links
      ensures Valid(arena) && items == old(items) + [index]
      ensures Frame(arena, old(items) + [index])
    {
      MembersAreLinked(Header(head, tail, len), arena.links[slot], tag, items);
      LinkBack(arena, index);
      len := len + 1;
    }

    method PushFront<T>(arena: Arena<T>, index: nat)
      requires Valid(arena)
      requires index < |arena.nodes| && !arena.links[slot][index].IsLinked()
      requires len < U32_MAX
      modifies this, arena`links
      ensures Valid(arena) && items == [index] + old(items)
      ensures Frame(arena, old(items) + [index])
    {
      MembersAreLinked(Header(head, tail, len), arena.links[slot], tag, items);
      LinkFront(arena, index);
      len := len + 1;
    }

    /** The writes of `insert_after` and `insert_before` between two members. */
    method LinkIn<T>(arena: Arena<T>, prev: nat, next: nat, index: nat, ghost k: nat)
      requires Valid(arena) && 0 < k < |items| && items[k - 1] == prev && items[k] == next
      requires index < |arena.nodes| && !arena.links[slot][index].IsLinked()
      requires len < U32_MAX
      modifies this, arena`links
      ensures Valid(arena) && items == old(InsertAt(items, k, index))
      ensures Frame(arena, old(items) + [index])
    {
      hide InsertAt;
      MembersAreLinked(Header(head, tail, len), arena.links[slot], tag, items);
      InsertRealises(Header(head, tail, len), arena.links[slot], tag, items, k, index);
      var col := arena.links[slot];
      col := col[index := Link(Some(prev), Some(next), LINKED + tag)];
      col := col[prev := col[prev].(next := Some(index))];
      col := col[next := col[next].(prev := Some(index))];
      arena.links := arena.links[slot := col];
      len := len + 1;
      items := InsertAt(items, k, index);
    }

    method InsertAfter<T>(arena: Arena<T>, at: nat, index: nat, ghost k: nat)
      requires Valid(arena) && k < |items| && items[k] == at
      requires index < |arena.nodes| && !arena.links[slot][index].IsLinked()
      requires len < U32_MAX
      modifies this, arena`links
      ensures Valid(arena) && items == old(InsertAt(items, k + 1, index))
      ensures Frame(arena, old(items) + [index])
    {
      if tail == Some(at) {
        assert k == |items| - 1;
        PushBack(arena, index);
      } else {
        assert MemberLink(arena.links[slot], tag, items, k);
        LinkIn(arena, at, arena.links[slot][at].next.value, index, k + 1);
      }
    }

    method InsertBefore<T>(arena: Arena<T>, at: nat, index: nat, ghost k: nat)
      requires Valid(arena) && k < |items| && items[k] == at
      requires index < |arena.nodes| && !arena.links[slot][index].IsLinked()
      requires len < U32_MAX
      modifies this, arena`links
      ensures Valid(arena) && items == old(InsertAt(items, k, index))
      ensures Frame(arena, old(items) + [index])
    {
      if head == Some(at) {
        assert k == 0;
        PushFront(arena, index);
      } else {
        assert MemberLink(arena.links[slot], tag, items, k);
        LinkIn(arena, arena.links[slot][at].prev.value, at, index, k);
      }
    }

    /** Route the neighbours of member `k` around it; its own link is left for the caller. */
    method SpliceOut<T>(arena: Arena<T>, index: nat, ghost k: nat)
      requires Valid(arena) && k < |items| && items[k] == index
      modifies this`head, this`tail, this`items, arena`links
      ensures items == old(RemoveAt(items, k))
      ensures arena.Valid() && |arena.links| == |old(arena.links)| && Frame(arena, old(items))
      ensures arena.links[slot][index] == old(arena.links[slot][index])
      ensures Realises(Header(head, tail, len - 1), arena.links[slot], tag, items)
    {
      RemoveRealises(Header(head, tail, len), arena.links[slot], tag, items, k);
      var col := arena.links[slot];
      var prev, next := col[index].prev, col[index].next;
      match prev {
        case Some(p) => col := col[p := col[p].(next := next)];
        case None => head := next;
      }
      match next {
        case Some(n) => col := col[n := col[n].(prev := prev)];
        case None => tail := prev;
      }
      arena.links := arena.links[slot := col];
      items := RemoveAt(items, k);
    }

    method UnlinkKnownMember<T>(arena: Arena<T>, index: nat, ghost k: nat)
      requires Valid(arena) && k < |items| && items[k] == index
      modifies this, arena`links
      ensures Valid(arena) && items == old(RemoveAt(items, k))
      ensures arena.links[slot][index] == UNLINKED
      ensures Frame(arena, old(items))
    {
      SpliceOut(arena, index, k);
      ghost var spliced := arena.links[slot];
      arena.links := arena.links[slot := arena.links[slot][index := UNLINKED]];
      len := len - 1;
      OtherLinksAreIrrelevant(Header(head, tail, len), spliced, arena.links[slot], tag, items);
    }

    method PopFront<T>(arena: Arena<T>) returns (r: Option<nat>)
      requires Valid(arena)
      modifies this, arena`links
      ensures Valid(arena) && r == old(First(items))
      ensures r.Some? ==> items == old(items)[1..] && arena.links[slot][r.value] == UNLINKED
      ensures r.None? ==> items == [] && arena.links == old(arena.links)
      ensures Frame(arena, old(items))
    {
      r := head;
      if r.Some? { UnlinkKnownMember(arena, r.value, 0); }
    }

    method PopBack<T>(arena: Arena<T>) returns (r: Option<nat>)
      requires Valid(arena)
      modifies this, arena`links
      ensures Valid(arena) && r == old(Last(items))
      ensures r.Some? ==> items == old(items)[..|old(items)| - 1] && arena.links[slot][r.value] == UNLINKED
      ensures r.None? ==> items == [] && arena.links == old(arena.links)
      ensures Frame(arena, old(items))
    {
      r := tail;
      if r.Some? { UnlinkKnownMember(arena, r.value, |items| - 1); }
    }

    /** Member `k` goes to the back; every other link keeps its place. */
    method MoveToBack<T>(arena: Arena<T>, index: nat, ghost k: nat)
      requires Valid(arena) && k < |items| && items[k] == index
      modifies this, arena`links
      ensures Valid(arena) && items == old(RemoveAt(items, k)) + [index]
      ensures Frame(arena, old(items))
    {
      if tail == Some(index) {
        assert items == RemoveAt(items, k) + [index];
        return;
      }
      RemovedIsGone(items, k);
      SpliceOut(arena, index, k);
      LinkBack(arena, index);
    }

    method MoveToFront<T>(arena: Arena<T>, index: nat, ghost k: nat)
      requires Valid(arena) && k < |items| && items[k] == index
      modifies this, arena`links
      ensures Valid(arena) && items == [index] + old(RemoveAt(items, k))
      ensures Frame(arena, old(items))
    {
      if head == Some(index) {
        assert items == [index] + RemoveAt(items, k);
        return;
      }
      RemovedIsGone(items, k);
      SpliceOut(arena, index, k);
      LinkFront(arena, index);
    }

    /** `remove`: false exactly when the node is not linked; a linked node must be ours. */
    method Remove<T>(arena: Arena<T>, index: nat) returns (removed: bool)
      requires Valid(arena) && index < |arena.nodes|
      requires arena.links[slot][index].IsLinked() ==> index in items
      modifies this, arena`links
      ensures Valid(arena) && Frame(arena, old(items))
      ensures removed == old(index in items)
      ensures removed ==>
        exists k :: 0 <= k < |old(items)| && old(items[k]) == index && items == old(RemoveAt(items, k))
      ensures !removed ==> items == old(items) && arena.links == old(arena.links)
      ensures !arena.links[slot][index].IsLinked()
    {
      MembersAreLinked(Header(head, tail, len), arena.links[slot], tag, items);
      if !arena.links[slot][index].IsLinked() { return false; }
      ghost var k :| 0 <= k < |items| && items[k] == index;
      UnlinkKnownMember(arena, index, k);
      removed := true;
    }

    /** `contains`: a bounded walk over the links. */
    method Contains<T>(arena: Arena<T>, index: nat) returns (found: bool)
      requires Valid(arena)
      ensures found == (index in items)
    {
      var next, remaining: nat := head, len;
      while remaining != 0 && next.Some?
        invariant remaining <= len
        invariant next == if remaining == 0 then None else Some(items[len - remaining])
        invariant index !in items[..len - remaining]
        decreases remaining
      {
        assert MemberLink(arena.links[slot], tag, items, len - remaining);
        assert items[..len - remaining + 1] == items[..len - remaining] + [next.value];
        if next.value == index { return true; }
        next := arena.links[slot][next.value].next;
        remaining := remaining - 1;
      }
      assert items[..len] == items;
      found := false;
    }

    /** `iter`: the members in order. */
    method Iterate<T>(arena: Arena<T>) returns (out: seq<nat>)
      requires Valid(arena)
      ensures out == items
    {
      out := [];
      var next, remaining: nat := head, len;
      while remaining != 0 && next.Some?
        invariant remaining <= len && out == items[..len - remaining]
        invariant next == if remaining == 0 then None else Some(items[len - remaining])
        decreases remaining
      {
        assert MemberLink(arena.links[slot], tag, items, len - remaining);
        out := out + [next.value];
        next := arena.links[slot][next.value].next;
        remaining := remaining - 1;
      }
    }

    /** `iter_rev`: the members in reverse order. */
    method IterateReverse<T>(arena: Arena<T>) returns (out: seq<nat>)
      requires Valid(arena)
      ensures |out| == |items| && forall k :: 0 <= k < |items| ==> out[k] == items[|items| - 1 - k]
    {
      out := [];
      var next, remaining: nat := tail, len;
      while remaining != 0 && next.Some?
        invariant remaining <= len && |out| == len - remaining
        invariant forall k :: 0 <= k < |out| ==> out[k] == items[len - 1 - k]
        invariant next == if remaining == 0 then None else Some(items[remaining - 1])
        decreases remaining
      {
        assert MemberLink(arena.links[slot], tag, items, remaining - 1);
        out := out + [next.value];
        next := arena.links[slot][next.value].prev;
        remaining := remaining - 1;
      }
    }

    method CheckRemovePreconditions<T>(arena: Arena<T>, index: nat) returns (r: Outcome<ListError>)
      requires Valid(arena)
      ensures r.Ok? <==> index in items
      ensures index >= |arena.nodes| ==> r == Err(IndexOutOfBounds(index, |arena.nodes|))
      ensures index < |arena.nodes| && !arena.links[slot][index].IsLinked() ==> r == Err(NotLinked(index))
      ensures index < |arena.nodes| && arena.links[slot][index].IsLinked() && index !in items
        ==> r == Err(WrongList(index, tag, arena.links[slot][index].Tag()))
    {
      MembersAreLinked(Header(head, tail, len), arena.links[slot], tag, items);
      if index >= |arena.nodes| { return Err(IndexOutOfBounds(index, |arena.nodes|)); }
      var link := arena.links[slot][index];
      if !link.IsLinked() { return Err(NotLinked(index)); }
      var member := Contains(arena, index);
      if !link.BelongsTo(tag) || !member { return Err(WrongList(index, tag, link.Tag())); }
      return Ok;
    }

    method CheckInsertPreconditions<T>(arena: Arena<T>, index: nat) returns (r: Outcome<ListError>)
      requires Valid(arena)
      ensures r.Ok? <==> index < |arena.nodes| && !arena.links[slot][index].IsLinked() && len < U32_MAX
      ensures index >= |arena.nodes| ==> r == Err(IndexOutOfBounds(index, |arena.nodes|))
      ensures index < |arena.nodes| && arena.links[slot][index].IsLinked()
        ==> r == Err(AlreadyLinked(index, arena.links[slot][index].Tag()))
      ensures index < |arena.nodes| && !arena.links[slot][index].IsLinked() && len == U32_MAX ==>
        r == Err(LengthOverflow)
    {
      LengthFits(arena.links[slot], items);
      if index >= |arena.nodes| { return Err(IndexOutOfBounds(index, |arena.nodes|)); }
      var link := arena.links[slot][index];
      if link.IsLinked() { return Err(AlreadyLinked(index, link.Tag())); }
      if len == U32_MAX { return Err(LengthOverflow); }
      return Ok;
    }

    method TryPushBack<T>(arena: Arena<T>, index: nat) returns (r: Outcome<ListError>)
      requires Valid(arena)
      modifies this, arena`links
      ensures Valid(arena) && Frame(arena, old(items) + [index])
      ensures r.Ok? <==> old(index < |arena.nodes| && !arena.links[slot][index].IsLinked() && len < U32_MAX)
      ensures index >= |arena.nodes| ==> r == Err(IndexOutOfBounds(index, |arena.nodes|))
      ensures old(index < |arena.nodes| && arena.links[slot][index].IsLinked()) ==>
        r == Err(AlreadyLinked(index, old(arena.links[slot][index].Tag())))
      ensures old(index < |arena.nodes| && !arena.links[slot][index].IsLinked() && len == U32_MAX) ==>
        r == Err(LengthOverflow)
      ensures r.Ok? ==> items == old(items) + [index]
      ensures r.Err? ==> items == old(items) && arena.links == old(arena.links)
    {
      r := CheckInsertPreconditions(arena, index);
      if r.Ok? { PushBack(arena, index); }
    }

    method TryRemove<T>(arena: Arena<T>, index: nat) returns (r: Outcome<ListError>)
      requires Valid(arena)
      modifies this, arena`links
      ensures Valid(arena) && Frame(arena, old(items))
      ensures r.Ok? <==> old(index in items)
      ensures index >= |arena.nodes| ==> r == Err(IndexOutOfBounds(index, |arena.nodes|))
      ensures old(index < |arena.nodes| && !arena.links[slot][index].IsLinked()) ==> r == Err(NotLinked(index))
      ensures old(index < |arena.nodes| && arena.links[slot][index].IsLinked() && index !in items) ==>
        r == Err(WrongList(index, tag, old(arena.links[slot][index].Tag())))
      ensures r.Ok? ==> index !in items && arena.links[slot][index] == UNLINKED
      ensures r.Ok? ==> exists k :: 0 <= k < |old(items)| && old(items[k]) == index && items == old(RemoveAt(items, k))
      ensures r.Err? ==> items == old(items) && arena.links == old(arena.links)
    {
      r := CheckRemovePreconditions(arena, index);
      if r.Ok? {
        ghost var k :| 0 <= k < |items| && items[k] == index;
        UnlinkKnownMember(arena, index, k);
      }
    }

    /** `append`: all of `other` moves behind this list in constant time. */
    method Append<T>(arena: Arena<T>, other: IndexList)
      requires other != this && slot == other.slot && tag == other.tag
      requires Valid(arena) && other.Valid(arena)
      requires forall i :: i in items ==> i !in other.items
      modifies this, other, arena`links
      ensures Valid(arena) && items == old(items) + old(other.items) && len <= U32_MAX
      ensures other.Valid(arena) && other.items == []
      ensures Frame(arena, items)
    {
      AppendRealises(Header(head, tail, len), Header(other.head, other.tail, other.len), arena.links[slot], tag, items,
        other.items);
      LengthFits(arena.links[slot], items + other.items);
      if other.len == 0 {
        assert items + other.items == items;
        return;
      }
      if len == 0 {
        assert items + other.items == other.items;
        head, tail, len := other.head, other.tail, other.len;
        items := other.items;
      } else {
        var selfTail, otherHead := tail.value, other.head.value;
        var col := arena.links[slot];
        col := col[selfTail := col[selfTail].(next := Some(otherHead))];
        col := col[otherHead := col[otherHead].(prev := Some(selfTail))];
        arena.links := arena.links[slot := col];
        tail := other.tail;
        len := len + other.len;
        items := items + other.items;
      }
      other.head, other.tail, other.len, other.items := None, None, 0, [];
    }

    /** `clear`: every member's link is reset. */
    method Clear<T>(arena: Arena<T>)
      requires Valid(arena)
      modifies this, arena`links
      ensures Valid(arena) && items == [] && Frame(arena, old(items))
      ensures forall i :: i in old(items) ==> arena.links[slot][i] == UNLINKED
    {
      var current, remaining: nat := head, len;
      ghost var was, all := arena.links, items;
      var col := arena.links[slot];
      while remaining != 0
        invariant remaining <= |all| && |col| == |was[slot]|
        invariant current == if remaining == 0 then None else Some(all[|all| - remaining])
        invariant forall k :: 0 <= k < |all| - remaining ==> col[all[k]] == UNLINKED
        invariant forall i :: 0 <= i < |col| && i !in all[..|all| - remaining] ==> col[i] == was[slot][i]
      {
        ghost var k := |all| - remaining;
        assert MemberLink(was[slot], tag, all, k);
        assert all[..k + 1] == all[..k] + [all[k]];
        var index := current.value;
        var next := col[index].next;
        col := col[index := UNLINKED];
        current := next;
        remaining := remaining - 1;
      }
      assert all[..|all|] == all;
      arena.links := arena.links[slot := col];
      head, tail, len, items := None, None, 0, [];
    }

    /** `retain`: visit every member once, in order, with its payload; keep the members the closure
        accepts and reset the others. The closure may change the payload it is shown and carries a
        state of its own from visit to visit. */
    method Retain<S, T>(arena: Arena<T>, start: S, visit: (S, nat, T) -> (S, bool, T)) returns (state: S)
      requires Valid(arena)
      modifies this, arena
      ensures Valid(arena) && LinkFrame(arena, old(items))
      ensures Retained(state, items, arena.nodes) == RetainAll(visit, start, old(arena.nodes), old(items))
      ensures Dropped(old(items), items, arena.links[slot])
    {
      hide Realises, First, RetainAll, Dropped, Distinct;
      ghost var all, n, nodes, links := items, 0, arena.nodes, arena.links;
      RetainStarted(Header(head, tail, len), links[slot], tag, all);
      RetainNone(visit, start, nodes, all);
      DroppedNone(all, links[slot]);
      var current := head;
      state := start;
      while current.Some?
        invariant Retaining(arena, visit, start, state, all, n, nodes, links) && current == First(all[n..])
        decreases |all| - n
      {
        current, state := RetainTurn(arena, current.value, visit, state, start, all, n, nodes, links);
        n := n + 1;
      }
      RetainFinished(all, n);
    }

    /** The first `n` members have been visited. */
    ghost predicate Retaining<S, T>(arena: Arena<T>, visit: (S, nat, T) -> (S, bool, T), start: S, state: S,
        all: seq<nat>, n: nat, nodes: seq<T>, links: seq<seq<Link>>)
      reads this, arena
    {
      && n <= |all| && Valid(arena) && Distinct(all) && (forall k :: 0 <= k < |all| ==> all[k] < |nodes|)
      && var done := RetainAll(visit, start, nodes, all[..n]);
      && items == done.kept + all[n..] && state == done.state && arena.nodes == done.nodes
      && LinksApart(links, arena.links, slot, all) && Dropped(all, items, arena.links[slot])
    }

    method RetainTurn<S, T>(arena: Arena<T>, index: nat, visit: (S, nat, T) -> (S, bool, T), state: S,
        ghost start: S, ghost all: seq<nat>, ghost n: nat, ghost nodes: seq<T>, ghost links: seq<seq<Link>>)
      returns (next: Option<nat>, state': S)
      requires Retaining(arena, visit, start, state, all, n, nodes, links) && First(all[n..]) == Some(index)
      modifies this, arena
      ensures Retaining(arena, visit, start, state', all, n + 1, nodes, links)
      ensures n < |all| && next == First(all[n + 1..])
    {
      hide Realises, RemoveAt, NextOf, First, RetainAll, Distinct, Dropped, LinksApart;
      ghost var before, was, kept := items, arena.links, RetainAll(visit, start, nodes, all[..n]).kept;
      NextMember(all, n, index);
      ghost var keep := visit(state, index, arena.nodes[index]).1;
      KeptStep(all, n, kept, keep);
      RetainStep(visit, start, nodes, all, n);
      next, state' := RetainOne(arena, index, visit, state, |kept|);
      ApartTwice(links, was, arena.links, slot, all, before);
      DroppedStep(all, before, items, was[slot], arena.links[slot], index, keep);
    }

    /** One turn of `retain`, returning the successor read before the verdict. */
    method RetainOne<S, T>(arena: Arena<T>, index: nat, visit: (S, nat, T) -> (S, bool, T), state: S, ghost k: nat)
      returns (next: Option<nat>, state': S)
      requires Valid(arena) && k < |items| && items[k] == index < |arena.nodes|
      modifies this, arena
      ensures Valid(arena) && LinkFrame(arena, old(items))
      ensures var (s, keep, node) := visit(state, index, old(arena.nodes)[index]);
        && state' == s && arena.nodes == old(arena.nodes)[index := node]
        && items == (if keep then old(items) else old(RemoveAt(items, k)))
        && (keep || arena.links[slot][index] == UNLINKED)
        && (forall i :: i in items <==> i in old(items) && (keep || i != index))
      ensures next == old(NextOf(items, k))
    {
      assert MemberLink(arena.links[slot], tag, items, k);
      next := arena.links[slot][index].next;
      assert items == items[..k] + [index] + items[k + 1..];
      var (s, keep, node) := visit(state, index, arena.nodes[index]);
      state' := s;
      arena.nodes := arena.nodes[index := node];
      if !keep { UnlinkKnownMember(arena, index, k); }
    }
  }

  /** A list over the same arena whose members were not touched stays valid; a list in another
      link slot stays valid whatever was touched. */
  twostate lemma OtherListKept<T>(list: IndexList, other: IndexList, arena: Arena<T>, touched: seq<nat>)
    requires list.LinkFrame(arena, touched) && arena.Valid()
    requires other.head == old(other.head) && other.tail == old(other.tail) && other.len == old(other.len)
    requires other.items == old(other.items)
    requires old(other.Valid(arena))
    requires other.slot != list.slot || forall i :: i in other.items ==> i !in touched
    ensures other.Valid(arena)
  {
    OtherLinksAreIrrelevant(Header(other.head, other.tail, other.len), old(arena.links[other.slot]),
                            arena.links[other.slot], other.tag, other.items);
  }

  // ---- Structural validation of arbitrary headers and links

  /** What `validate_link` and `validate_index` accept. */
  function CheckNode(links: seq<Link>, tag: nat, index: nat): (r: Outcome<ValidateError>)
    ensures r.Ok? <==> index < |links| && links[index].BelongsTo(tag)
  {
    if index >= |links| then Err(NodeOutOfBounds(index, |links|))
    else if !links[index].IsLinked() then Err(UnlinkedNodeInList(index))
    else if !links[index].BelongsTo(tag) then Err(WrongTag(index, tag, links[index].Tag()))
    else Ok
  }

  /** A chain of nodes in which every node names its predecessor visits no node twice. */
  lemma {:induction false} BackLinkedChainIsDistinct(links: seq<Link>, items: seq<nat>)
    requires forall k :: 0 <= k < |items| ==> items[k] < |links|
    requires forall k {:trigger PrevOf(items, k)} :: 0 <= k < |items| ==> links[items[k]].prev == PrevOf(items, k)
    ensures Distinct(items)
  {
    forall j, k | 0 <= j < k < |items| ensures items[j] != items[k] {
      ChainPairDiffers(links, items, j, k);
    }
  }

  lemma {:induction false} ChainPairDiffers(links: seq<Link>, items: seq<nat>, j: nat, k: nat)
    requires forall i :: 0 <= i < |items| ==> items[i] < |links|
    requires forall i {:trigger PrevOf(items, i)} :: 0 <= i < |items| ==> links[items[i]].prev == PrevOf(items, i)
    requires j < k < |items|
    ensures items[j] != items[k]
    decreases j
  {
    assert PrevOf(items, k) == Some(items[k - 1]);
    if j == 0 { assert PrevOf(items, 0) == None; }
    else {
      assert PrevOf(items, j) == Some(items[j - 1]);
      ChainPairDiffers(links, items, j - 1, k - 1);
    }
  }

  /** The nodes visited so far by a forward walk all check out. */
  ghost predicate Walked(h: Header, links: seq<Link>, tag: nat, items: seq<nat>, current: Option<nat>) {
    && (forall k :: 0 <= k < |items| ==> items[k] < |links| && links[items[k]].BelongsTo(tag))
    && (forall k {:trigger PrevOf(items, k)} :: 0 <= k < |items| ==> links[items[k]].prev == PrevOf(items, k))
    && (forall k {:trigger NextOf(items, k)} :: 0 <= k < |items| - 1 ==> links[items[k]].next == NextOf(items, k))
    && (if items == [] then current == h.head
        else h.head == Some(items[0]) && links[items[|items| - 1]].next == current)
  }

  lemma WalkStep(h: Header, links: seq<Link>, tag: nat, items: seq<nat>, index: nat)
    requires Walked(h, links, tag, items, Some(index))
    requires index < |links| && links[index].BelongsTo(tag) && links[index].prev == Last(items)
    ensures Walked(h, links, tag, items + [index], links[index].next)
  {
    var r := items + [index];
    forall k | 0 <= k < |r| ensures links[r[k]].prev == PrevOf(r, k) {
      if k < |items| { assert PrevOf(items, k) == PrevOf(r, k); }
    }
    forall k | 0 <= k < |r| - 1 ensures links[r[k]].next == NextOf(r, k) {
      if k < |items| - 1 { assert NextOf(items, k) == NextOf(r, k); }
    }
  }

  /** A walk never gets longer than the arena, however the links are tangled. */
  lemma WalkIsBounded(h: Header, links: seq<Link>, tag: nat, items: seq<nat>, current: Option<nat>)
    requires Walked(h, links, tag, items, current)
    ensures Distinct(items) && |items| <= |links|
  {
    BackLinkedChainIsDistinct(links, items);
    LengthFits(links, items);
  }

  lemma FinishedWalkRealises(h: Header, links: seq<Link>, tag: nat, items: seq<nat>)
    requires Walked(h, links, tag, items, None) && h.head.Some?
    requires h.tail == Last(items) && h.len == |items|
    ensures Realises(h, links, tag, items)
  {
    WalkIsBounded(h, links, tag, items, None);
    forall k | 0 <= k < |items| ensures MemberLink(links, tag, items, k) {
      assert links[items[k]].prev == PrevOf(items, k);
      if k < |items| - 1 { assert links[items[k]].next == NextOf(items, k); }
    }
  }

  /** Along a realised list the walk meets exactly its members. */
  lemma WalkFollows(h: Header, links: seq<Link>, tag: nat, items: seq<nat>, current: Option<nat>, its: seq<nat>)
    requires Walked(h, links, tag, items, current) && Realises(h, links, tag, its) && items <= its
    ensures current == (if |items| < |its| then Some(its[|items|]) else None)
    ensures |items| < |its| ==>
      current.value < |links| && links[current.value].BelongsTo(tag) && links[current.value].prev == Last(items)
    ensures h.tail == Last(its) && h.len == |its| && (|items| == |its| ==> items == its)
  {
    if items != [] { assert MemberLink(links, tag, its, |items| - 1); }
    if |items| < |its| { assert MemberLink(links, tag, its, |items|); }
  }

  /** `validate_forward`: the walk ends on every input, and passes exactly when the header and
      the links realise some sequence. */
  method ValidateForward(h: Header, links: seq<Link>, tag: nat, ghost its: seq<nat>)
    returns (r: Outcome<ValidateError>, ghost items: seq<nat>)
    requires h.head.Some? && h.tail.Some?
    ensures r.Ok? ==> Realises(h, links, tag, items)
    ensures Realises(h, links, tag, its) ==> r.Ok?
    ensures r != Err(CycleDetected) && (r.Err? ==> Fault(h, links, tag, items, r.error))
  {
    hide Realises, Walked, MemberLink;
    var count: nat, prev: Option<nat>, current, last: Option<nat> := 0, None, h.head, None;
    items := [];
    WalkStarts(h, links, tag);
    while current.Some?
      invariant count == |items| && prev == last == Last(items)
      invariant Walked(h, links, tag, items, current)
      invariant Realises(h, links, tag, its) ==> items <= its
      decreases |links| - count
    {
      WalkIsBounded(h, links, tag, items, current);
      if Realises(h, links, tag, its) { WalkFollows(h, links, tag, items, current, its); }
      var index := current.value;
      if count > |links| { return Err(CycleDetected), items; }
      var checked := CheckNode(links, tag, index);
      if checked.Err? { return checked, items; }
      var link := links[index];
      if link.prev != prev { return Err(BrokenPrev(index, prev, link.prev)), items; }
      WalkStep(h, links, tag, items, index);
      WalkIsBounded(h, links, tag, items + [index], link.next);
      last, prev, current, count := Some(index), Some(index), link.next, count + 1;
      items := items + [index];
    }
    if Realises(h, links, tag, its) { WalkFollows(h, links, tag, items, current, its); }
    if last != h.tail { return Err(TailMismatch(last, h.tail)), items; }
    if count != h.len { return Err(LengthMismatch(h.len, count)), items; }
    FinishedWalkRealises(h, links, tag, items);
    r := Ok;
  }

  /** What a reported fault means. The walk over `items` found nothing wrong; the fault is the next thing it
      meets, or what it finds at its end. The backward walk and the cycle guard never report one. */
  ghost predicate Fault(h: Header, links: seq<Link>, tag: nat, items: seq<nat>, e: ValidateError) {
    match e
    case EmptyListHasHead(head) => h.len == 0 && h.head.Some? && head == h.head
    case EmptyListHasTail(tail) => h.len == 0 && h.head.None? && h.tail.Some? && tail == h.tail
    case NonEmptyListMissingHead => h.len > 0 && h.head.None?
    case NonEmptyListMissingTail => h.len > 0 && h.head.Some? && h.tail.None?
    case LenExceedsNodes(len, nodes) => h.head.Some? && h.tail.Some? && len == h.len > |links| == nodes
    case NodeOutOfBounds(i, nodes) => Walked(h, links, tag, items, Some(i)) && i >= |links| == nodes
    case UnlinkedNodeInList(i) => Walked(h, links, tag, items, Some(i)) && i < |links| && !links[i].IsLinked()
    case WrongTag(i, expected, actual) =>
      && Walked(h, links, tag, items, Some(i)) && i < |links| && links[i].IsLinked() && !links[i].BelongsTo(tag)
      && expected == tag && actual == links[i].Tag()
    case BrokenPrev(i, expected, actual) =>
      && Walked(h, links, tag, items, Some(i)) && i < |links| && links[i].BelongsTo(tag)
      && expected == Last(items) && actual == links[i].prev && expected != actual
    case TailMismatch(expected, actual) =>
      Walked(h, links, tag, items, None) && expected == Last(items) && actual == h.tail && expected != actual
    case LengthMismatch(expected, actual) =>
      && Walked(h, links, tag, items, None) && h.tail == Last(items)
      && expected == h.len && actual == |items| && expected != actual
    case _ => false
  }

  lemma WalkStarts(h: Header, links: seq<Link>, tag: nat)
    ensures Walked(h, links, tag, [], h.head)
  {
  }

  /** `validate_backward`: it also ends on every input, and never rejects what the forward walk
      accepted. */
  method ValidateBackward(h: Header, links: seq<Link>, tag: nat, ghost its: seq<nat>)
    returns (r: Outcome<ValidateError>)
    ensures Realises(h, links, tag, its) ==> r.Ok?
  {
    var count: nat, next: Option<nat>, current, first: Option<nat> := 0, None, h.tail, None;
    ghost var n := |its|;
    ghost var ours := Realises(h, links, tag, its);
    while current.Some?
      invariant count <= |links| + 1
      invariant ours ==> count <= n && current == (if count < n then Some(its[n - 1 - count]) else None)
      invariant ours ==> next == first == (if count == 0 then None else Some(its[n - count]))
      decreases |links| + 1 - count
    {
      if ours {
        LengthFits(links, its);
        assert MemberLink(links, tag, its, n - 1 - count);
      }
      var index := current.value;
      if count > |links| { return Err(CycleDetected); }
      var checked := CheckNode(links, tag, index);
      if checked.Err? { return checked; }
      var link := links[index];
      if link.next != next { return Err(BrokenNext(index, next, link.next)); }
      first, next, current, count := Some(index), Some(index), link.prev, count + 1;
    }
    if first != h.head { return Err(HeadMismatch(first, h.head)); }
    if count != h.len { return Err(LengthMismatch(h.len, count)); }
    r := Ok;
  }

  /** `validate`: Ok exactly when header and links realise some duplicate-free sequence. */
  method Validate(h: Header, links: seq<Link>, tag: nat) returns (r: Outcome<ValidateError>)
    ensures r.Ok? <==> exists items :: Realises(h, links, tag, items)
    ensures r != Err(CycleDetected)
    ensures r.Err? ==> exists items :: Fault(h, links, tag, items, r.error)
  {
    ghost var its := [];
    if exists items :: Realises(h, links, tag, items) {
      its :| Realises(h, links, tag, its);
      LengthFits(links, its);
    }
    if h.len == 0 {
      if h.head.Some? {
        r := Err(EmptyListHasHead(h.head));
        assert Fault(h, links, tag, [], r.error);
        return;
      }
      if h.tail.Some? {
        r := Err(EmptyListHasTail(h.tail));
        assert Fault(h, links, tag, [], r.error);
        return;
      }
      assert Realises(h, links, tag, []);
      return Ok;
    }
    if h.head.None? {
      r := Err(NonEmptyListMissingHead);
      assert Fault(h, links, tag, [], r.error);
      return;
    }
    if h.tail.None? {
      r := Err(NonEmptyListMissingTail);
      assert Fault(h, links, tag, [], r.error);
      return;
    }
    if h.len > |links| {
      r := Err(LenExceedsNodes(h.len, |links|));
      assert Fault(h, links, tag, [], r.error);
      return;
    }
    ghost var walked;
    r, walked := ValidateForward(h, links, tag, its);
    if r.Err? { return; }
    r := ValidateBackward(h, links, tag, walked);
  }

  /** What a closure leaves behind: its state, the members it kept and the payloads. */
  datatype Retained<S, T> = Retained(state: S, kept: seq<nat>, nodes: seq<T>)

  /** The closure applied to one member after the other. */
  ghost function RetainAll<S, T>(visit: (S, nat, T) -> (S, bool, T), start: S, nodes: seq<T>, all: seq<nat>)
    : (r: Retained<S, T>)
    ensures |r.nodes| == |nodes|
    ensures forall i :: 0 <= i < |nodes| && i !in all ==> r.nodes[i] == nodes[i]
  {
    if all == [] then Retained(start, [], nodes) else
      var init, last := all[..|all| - 1], all[|all| - 1];
      assert all == init + [last];
      var done := RetainAll(visit, start, nodes, init);
      if last >= |nodes| then done else
      var (s, keep, node) := visit(done.state, last, done.nodes[last]);
      Retained(s, done.kept + (if keep then [last] else []), done.nodes[last := node])
  }

  /** The members that left are unlinked, and nobody joined. */
  ghost predicate Dropped(all: seq<nat>, items: seq<nat>, links: seq<Link>) {
    && (forall i :: i in items ==> i in all)
    && (forall i :: i in all && i !in items && i < |links| ==> links[i] == UNLINKED)
  }

  lemma DroppedNone(all: seq<nat>, links: seq<Link>)
    ensures Dropped(all, all, links)
  {
  }

  lemma ApartTwice(l0: seq<seq<Link>>, l1: seq<seq<Link>>, l2: seq<seq<Link>>, slot: nat, all: seq<nat>,
      items: seq<nat>)
    requires LinksApart(l0, l1, slot, all) && LinksApart(l1, l2, slot, items) && slot < |l1|
    requires Dropped(all, items, l1[slot])
    ensures LinksApart(l0, l2, slot, all) && slot < |l2| == |l1| && |l2[slot]| == |l1[slot]|
    ensures forall i :: 0 <= i < |l2[slot]| && i !in items ==> l2[slot][i] == l1[slot][i]
  {
  }

  lemma DroppedStep(all: seq<nat>, before: seq<nat>, items: seq<nat>, was: seq<Link>, links: seq<Link>, index: nat,
      keep: bool)
    requires Dropped(all, before, was) && |was| == |links| && index < |links|
    requires forall i :: i in items <==> i in before && (keep || i != index)
    requires forall i :: 0 <= i < |links| && i !in before ==> links[i] == was[i]
    requires keep || links[index] == UNLINKED
    ensures Dropped(all, items, links)
  {
  }

  lemma RetainNone<S, T>(visit: (S, nat, T) -> (S, bool, T), start: S, nodes: seq<T>, all: seq<nat>)
    ensures RetainAll(visit, start, nodes, all[..0]) == Retained(start, [], nodes)
  {
  }

  /** The next member is shown its own payload, which no earlier visit has touched. */
  lemma RetainStep<S, T>(visit: (S, nat, T) -> (S, bool, T), start: S, nodes: seq<T>, all: seq<nat>, n: nat)
    requires n < |all| && Distinct(all) && all[n] < |nodes|
    ensures var i, done := all[n], RetainAll(visit, start, nodes, all[..n]);
      var (s, keep, node) := visit(done.state, i, done.nodes[i]);
      && done.nodes[i] == nodes[i]
      && RetainAll(visit, start, nodes, all[..n + 1]) ==
        Retained(s, done.kept + (if keep then [i] else []), done.nodes[i := node])
  {
    assert all[..n + 1][..n] == all[..n];
    assert all[n] !in all[..n];
  }

  lemma RetainStarted(h: Header, links: seq<Link>, tag: nat, all: seq<nat>)
    requires Realises(h, links, tag, all)
    ensures [] + all[0..] == all && h.head == First(all[0..])
    ensures Distinct(all) && forall k :: 0 <= k < |all| ==> all[k] < |links|
  {
  }

  lemma NextMember(all: seq<nat>, n: nat, index: nat)
    requires n <= |all| && First(all[n..]) == Some(index)
    ensures n < |all| && all[n] == index
  {
  }

  lemma RetainFinished(all: seq<nat>, n: nat)
    requires n <= |all| && First(all[n..]) == None
    ensures all[..n] == all && all[n..] == []
  {
  }

  /** The list after one turn of `retain`, whichever way the closure decides. */
  lemma KeptStep(all: seq<nat>, n: nat, kept: seq<nat>, keep: bool)
    requires n <= |all| && First(all[n..]) != None
    ensures var k, items := |kept|, kept + all[n..];
      && n < |all| && k < |items|
      && First(all[n..]) == Some(items[k]) && items[k] == all[n]
      && NextOf(items, k) == First(all[n + 1..])
      && (if keep then items else RemoveAt(items, k)) == kept + (if keep then [all[n]] else []) + all[n + 1..]
  {
    assert all[n..] == [all[n]] + all[n + 1..];
  }

  lemma AppendRealises(h: Header, g: Header, links: seq<Link>, tag: nat, a: seq<nat>, b: seq<nat>)
    requires Realises(h, links, tag, a) && Realises(g, links, tag, b)
    requires forall i :: i in a ==> i !in b
    ensures a != [] && b != [] ==>
      var t, f := a[|a| - 1], b[0];
      var c := links[t := links[t].(next := Some(f))];
      Realises(Header(h.head, g.tail, h.len + g.len), c[f := c[f].(prev := Some(t))], tag, a + b)
    ensures Distinct(a + b)
  {
    var r := a + b;
    DistinctConcat(a, b);
    if a != [] && b != [] {
      var t, f := a[|a| - 1], b[0];
      var c0 := links[t := links[t].(next := Some(f))];
      var c := c0[f := c0[f].(prev := Some(t))];
      assert Last(r) == g.tail && First(r) == h.head;
      forall k | 0 <= k < |r| ensures MemberLink(c, tag, r, k) {
        assert t in a && f in b && r[k] in r;
        if k < |a| { assert r[k] in a; assert MemberLink(links, tag, a, k); }
        else { assert r[k] in b; assert MemberLink(links, tag, b, k - |a|); }
      }
    }
  }

  lemma DistinctConcat<T>(a: seq<T>, b: seq<T>)
    requires Distinct(a) && Distinct(b)
    requires forall x :: x in a ==> x !in b
    ensures Distinct(a + b)
  {
    var r := a + b;
    forall j, k | 0 <= j < k < |r| ensures r[j] != r[k] {
      if j < |a| <= k { assert r[j] in a && r[k] == b[k - |a|]; }
    }
  }

  /** Pigeonhole: distinct indices into a column are no more than its length. */
  lemma LengthFits(links: seq<Link>, items: seq<nat>)
    requires Distinct(items) && forall k :: 0 <= k < |items| ==> items[k] < |links|
    ensures |items| <= |links|
  {
    DistinctBelow(items, |links|);
  }

  lemma {:induction false} DistinctBelow(items: seq<nat>, n: nat)
    requires Distinct(items) && forall k :: 0 <= k < |items| ==> items[k] < n
    ensures |items| <= n
    decreases n
  {
    if items == [] {
    } else {
      assert items[0] < n;
      if n - 1 in items {
        var k :| 0 <= k < |items| && items[k] == n - 1;
        DistinctBelow(RemoveAt(items, k), n - 1);
      } else {
        forall k | 0 <= k < |items| ensures items[k] < n - 1 { assert items[k] in items; }
        DistinctBelow(items, n - 1);
      }
    }
  }
}
