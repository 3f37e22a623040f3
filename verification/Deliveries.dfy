/** Outstanding deliveries as a plain list of (tag, message) pairs in tag order. */
module Deliveries {
  import opened IntrusiveList
  import opened QueueSpec

  datatype Entry = Entry(tag: nat, msg: nat)

  predicate TagsAscend(entries: seq<Entry>) {
    forall j, k :: 0 <= j < k < |entries| ==> entries[j].tag < entries[k].tag
  }

  predicate HasTag(entries: seq<Entry>, tag: nat) {
    exists k :: 0 <= k < |entries| && entries[k].tag == tag
  }

  /** The first position of `tag`, which is its only one when tags ascend. */
  function TagIndex(entries: seq<Entry>, tag: nat): (k: nat)
    requires HasTag(entries, tag)
    ensures k < |entries| && entries[k].tag == tag
  {
    if entries[0].tag == tag then 0 else
      assert HasTag(entries[1..], tag) by {
        var k :| 0 <= k < |entries| && entries[k].tag == tag;
        assert entries[1..][k - 1].tag == tag;
      }
      1 + TagIndex(entries[1..], tag)
  }

  lemma TagIndexIs(entries: seq<Entry>, k: nat)
    requires TagsAscend(entries) && k < |entries|
    ensures HasTag(entries, entries[k].tag) && TagIndex(entries, entries[k].tag) == k
  {
    assert HasTag(entries, entries[k].tag);
  }

  function Messages(entries: seq<Entry>): (r: seq<nat>)
    ensures |r| == |entries|
    ensures forall k :: 0 <= k < |r| ==> r[k] == entries[k].msg
  {
    seq(|entries|, k requires 0 <= k < |entries| => entries[k].msg)
  }

  function TagsOf(entries: seq<Entry>): (r: seq<nat>)
    ensures |r| == |entries|
    ensures forall k :: 0 <= k < |r| ==> r[k] == entries[k].tag
  {
    seq(|entries|, k requires 0 <= k < |entries| => entries[k].tag)
  }

  /** Consecutive tags from `first` for a list of messages. */
  function Tagged(first: nat, msgs: seq<nat>): (r: seq<Entry>)
    ensures |r| == |msgs|
    ensures forall k :: 0 <= k < |r| ==> r[k] == Entry(first + k, msgs[k])
  {
    seq(|msgs|, k requires 0 <= k < |msgs| => Entry(first + k, msgs[k]))
  }

  lemma TaggedConcat(first: nat, a: seq<nat>, b: seq<nat>)
    ensures Tagged(first, a + b) == Tagged(first, a) + Tagged(first + |a|, b)
  {
  }

  lemma MessagesConcat(a: seq<Entry>, b: seq<Entry>)
    ensures Messages(a + b) == Messages(a) + Messages(b)
    ensures multiset(Messages(a + b)) == multiset(Messages(a)) + multiset(Messages(b))
  {
    assert Messages(a + b) == Messages(a) + Messages(b);
  }

  // ---- First deliveries and redeliveries

  /** The first deliveries among the messages, or the redeliveries, in order. */
  function Pick(msgs: seq<nat>, redelivered: set<nat>, first: bool): (r: seq<nat>)
    ensures forall i :: i in r <==> i in msgs && (first <==> i !in redelivered)
  {
    if msgs == [] then [] else
      var n := |msgs| - 1;
      Pick(msgs[..n], redelivered, first) + if first <==> msgs[n] !in redelivered then [msgs[n]] else []
  }

  /** The order in which a settlement reaches the queue: first deliveries, then redeliveries. */
  function SettleOrder(msgs: seq<nat>, redelivered: set<nat>): (r: seq<nat>) {
    Pick(msgs, redelivered, true) + Pick(msgs, redelivered, false)
  }

  lemma {:induction false} PickConcat(a: seq<nat>, b: seq<nat>, redelivered: set<nat>, first: bool)
    ensures Pick(a + b, redelivered, first) == Pick(a, redelivered, first) + Pick(b, redelivered, first)
  {
    if b == [] {
      assert a + b == a;
    } else {
      assert (a + b)[..|a + b| - 1] == a + b[..|b| - 1];
      PickConcat(a, b[..|b| - 1], redelivered, first);
    }
  }

  lemma {:induction false} PickAlike(msgs: seq<nat>, redelivered: set<nat>, kind: bool, first: bool)
    requires forall i :: i in msgs ==> (kind <==> i !in redelivered)
    ensures Pick(msgs, redelivered, first) == if kind == first then msgs else []
  {
    if msgs == [] {
    } else {
      var init, last := msgs[..|msgs| - 1], msgs[|msgs| - 1];
      assert msgs == init + [last];
      assert last in msgs && forall i :: i in init ==> i in msgs;
      PickAlike(init, redelivered, kind, first);
    }
  }

  /** Each message is settled once. */
  lemma {:induction false} SettleOrderComplete(msgs: seq<nat>, redelivered: set<nat>)
    ensures multiset(SettleOrder(msgs, redelivered)) == multiset(msgs)
  {
    if msgs == [] {
    } else {
      var n := |msgs| - 1;
      SettleOrderComplete(msgs[..n], redelivered);
      assert msgs == msgs[..n] + [msgs[n]];
    }
  }

  /** Duplicate-freedom is a property of the multiset. */
  lemma DistinctIsMultiset<T>(s: seq<T>)
    ensures Distinct(s) <==> forall x :: multiset(s)[x] <= 1
  {
    if Distinct(s) {
      forall x ensures multiset(s)[x] <= 1 { DistinctCount(s, x); }
    }
    if forall x :: multiset(s)[x] <= 1 {
      forall j, k | 0 <= j < k < |s| ensures s[j] != s[k] { PairCount(s, j, k); }
    }
  }

  lemma {:induction false} DistinctCount<T>(s: seq<T>, x: T)
    requires Distinct(s)
    ensures multiset(s)[x] <= 1
  {
    if s == [] {
    } else {
      var n := |s| - 1;
      assert s == s[..n] + [s[n]];
      DistinctCount(s[..n], x);
      assert s[n] !in s[..n];
    }
  }

  lemma PairCount<T>(s: seq<T>, j: nat, k: nat)
    requires j < k < |s| && forall x :: multiset(s)[x] <= 1
    ensures s[j] != s[k]
  {
    var a, b := s[..k], s[k..];
    assert s == a + b && a[j] in a && b[0] in b;
    assert multiset(s)[s[j]] <= 1 && multiset(a)[s[j]] >= 1 && multiset(b)[s[k]] >= 1;
  }

  /** Two lists with the same multiset agree on duplicate-freedom, members and length. */
  lemma SameMultiset(a: seq<nat>, b: seq<nat>)
    requires multiset(a) == multiset(b)
    ensures Distinct(a) <==> Distinct(b)
    ensures forall x :: x in a <==> x in b
    ensures |a| == |b|
  {
    DistinctIsMultiset(a);
    DistinctIsMultiset(b);
    forall x ensures x in a <==> x in b { assert x in multiset(a) <==> x in multiset(b); }
    assert |multiset(a)| == |a| && |multiset(b)| == |b|;
  }
}
