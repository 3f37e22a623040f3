/** Ordered maps as association lists in strictly ascending key order. */
module SortedMaps {
  import opened IntrusiveList

  datatype Binding<V> = Binding(key: nat, value: V)

  predicate Sorted<V>(m: seq<Binding<V>>) {
    forall j, k :: 0 <= j < k < |m| ==> m[j].key < m[k].key
  }

  predicate Has<V>(m: seq<Binding<V>>, key: nat) {
    exists k :: 0 <= k < |m| && m[k].key == key
  }

  /** Insert or overwrite. */
  function Insert<V>(m: seq<Binding<V>>, key: nat, value: V): (r: seq<Binding<V>>) {
    if m == [] || m[|m| - 1].key < key then m + [Binding(key, value)]
    else if m[|m| - 1].key == key then m[..|m| - 1] + [Binding(key, value)]
    else Insert(m[..|m| - 1], key, value) + [m[|m| - 1]]
  }

  /** Afterwards the key has the value, and all other bindings are as before. */
  lemma {:induction false} InsertMember<V>(m: seq<Binding<V>>, key: nat, value: V, b: Binding<V>)
    requires Sorted(m)
    ensures b in Insert(m, key, value) <==> b == Binding(key, value) || (b in m && b.key != key)
  {
    if m == [] {
    } else {
      var n := |m| - 1;
      assert m == m[..n] + [m[n]];
      assert forall j :: 0 <= j < n ==> m[j].key < m[n].key;
      if key < m[n].key { InsertMember(m[..n], key, value, b); }
    }
  }

  lemma {:induction false} InsertBelow<V>(m: seq<Binding<V>>, key: nat, value: V, bound: nat)
    requires key < bound && forall k :: 0 <= k < |m| ==> m[k].key < bound
    ensures forall k :: 0 <= k < |Insert(m, key, value)| ==> Insert(m, key, value)[k].key < bound
  {
    if m != [] && key < m[|m| - 1].key { InsertBelow(m[..|m| - 1], key, value, bound); }
  }

  lemma {:induction false} InsertSorted<V>(m: seq<Binding<V>>, key: nat, value: V)
    requires Sorted(m)
    ensures Sorted(Insert(m, key, value))
  {
    if m != [] && key < m[|m| - 1].key {
      var n := |m| - 1;
      InsertSorted(m[..n], key, value);
      InsertBelow(m[..n], key, value, m[n].key);
    }
  }
}
