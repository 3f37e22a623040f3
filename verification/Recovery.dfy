/** Rebuilding a queue's image from its index and ack-ledger entries. */
module Recovery {
  import opened Words
  import opened Kernels
  import opened RecordBodies
  import opened SortedMaps

  datatype Image = Image(queueId: nat, nextSeq: nat, ready: seq<Binding<PayloadRef>>)

  /** `ref` is what the last entry for message `i` of queue `q` says. */
  ghost predicate LastEntry(es: seq<IndexEntry>, q: nat, i: nat, ref: PayloadRef) {
    exists k :: 0 <= k < |es| && es[k] == IndexEntry(q, i, ref) && NoneAfter(es, k, q, i)
  }

  ghost predicate NoneAfter(es: seq<IndexEntry>, k: int, q: nat, i: nat) {
    forall j :: k < j < |es| && j >= 0 ==> !(es[j].queueId == q && es[j].seqNo == i)
  }

  /** The ledger entry settles message `i` of queue `q`. A mask counts bits from its block base;
      its word index plays no part. */
  ghost predicate Settles(e: AckEntry, q: nat, i: nat) {
    e.queueId == q && match e
      case AckRangeEntry(_, start, len) => start <= i < start + len
      case DeadLetterEntry(_, start, len) => start <= i < start + len
      case NackRequeueEntry(_, _, _) => false
      case AckMaskEntry(_, base, _, mask) => base <= i < base + 64 && Bit(mask, i - base)
  }

  ghost predicate SettledIn(es: seq<AckEntry>, q: nat, i: nat) {
    exists k :: 0 <= k < |es| && Settles(es[k], q, i)
  }

  lemma LastEntryAppend(es: seq<IndexEntry>, e: IndexEntry, q: nat, i: nat, ref: PayloadRef)
    ensures LastEntry(es + [e], q, i, ref) <==>
      if e.queueId == q && e.seqNo == i then ref == e.ref else LastEntry(es, q, i, ref)
  {
    var r, n := es + [e], |es|;
    if e.queueId == q && e.seqNo == i {
      if LastEntry(r, q, i, ref) {
        var k :| 0 <= k < |r| && r[k] == IndexEntry(q, i, ref) && NoneAfter(r, k, q, i);
        assert r[n] == e;
      }
      if ref == e.ref { assert r[n] == IndexEntry(q, i, ref) && NoneAfter(r, n, q, i); }
    } else {
      if LastEntry(r, q, i, ref) {
        var k :| 0 <= k < |r| && r[k] == IndexEntry(q, i, ref) && NoneAfter(r, k, q, i);
        assert r[n] == e && k < n && es[k] == r[k];
        forall j | k < j < n ensures !(es[j].queueId == q && es[j].seqNo == i) { assert es[j] == r[j]; }
        assert NoneAfter(es, k, q, i);
      }
      if LastEntry(es, q, i, ref) {
        var k :| 0 <= k < n && es[k] == IndexEntry(q, i, ref) && NoneAfter(es, k, q, i);
        assert r[k] == es[k];
        forall j | k < j <= n ensures !(r[j].queueId == q && r[j].seqNo == i) { if j < n { assert es[j] == r[j]; } }
        assert NoneAfter(r, k, q, i);
      }
    }
  }

  ghost predicate Reflects(m: seq<Binding<PayloadRef>>, es: seq<IndexEntry>, q: nat) {
    Sorted(m) && forall b :: b in m <==> LastEntry(es, q, b.key, b.value)
  }

  /** The last write wins, in ascending order. */
  method IndexBySeq(q: nat, es: seq<IndexEntry>) returns (m: seq<Binding<PayloadRef>>)
    ensures Reflects(m, es, q)
  {
    hide Sorted, LastEntry, Insert;
    m := [];
    NothingReflected(es, q);
    for k := 0 to |es|
      invariant Reflects(m, es[..k], q)
    {
      ReflectNext(m, es, k, q);
      if es[k].queueId == q {
        m := Insert(m, es[k].seqNo, es[k].ref);
      }
    }
    assert es[..|es|] == es;
  }

  lemma NothingReflected(es: seq<IndexEntry>, q: nat)
    ensures Reflects([], es[..0], q)
  {
  }

  lemma ReflectNext(m: seq<Binding<PayloadRef>>, es: seq<IndexEntry>, k: nat, q: nat)
    requires k < |es| && Reflects(m, es[..k], q)
    ensures Reflects(if es[k].queueId == q then Insert(m, es[k].seqNo, es[k].ref) else m, es[..k + 1], q)
  {
    hide LastEntry, Insert;
    assert es[..k + 1] == es[..k] + [es[k]];
    var r := if es[k].queueId == q then Insert(m, es[k].seqNo, es[k].ref) else m;
    if es[k].queueId == q { InsertSorted(m, es[k].seqNo, es[k].ref); }
    forall b: Binding<PayloadRef> ensures b in r <==> LastEntry(es[..k + 1], q, b.key, b.value) {
      LastEntryAppend(es[..k], es[k], q, b.key, b.value);
      if es[k].queueId == q { InsertMember(m, es[k].seqNo, es[k].ref, b); }
    }
  }

  method SettleRange(settled: set<nat>, start: nat, len: nat) returns (r: set<nat>)
    ensures forall i :: i in r <==> i in settled || start <= i < start + len
  {
    r := settled;
    for k := 0 to len
      invariant forall i :: i in r <==> i in settled || start <= i < start + k
    {
      r := r + {start + k};
    }
  }

  method SettleMask(settled: set<nat>, base: nat, mask: nat) returns (r: set<nat>)
    ensures forall i: nat :: i in r <==> i in settled || (base <= i < base + 64 && Bit(mask, i - base))
  {
    hide Bit;
    r := settled;
    for k := 0 to 64
      invariant forall i: nat :: i in r <==> i in settled || (base <= i < base + k && Bit(mask, i - base))
    {
      if Bit(mask, k) {
        r := r + {base + k};
      }
    }
  }

  method SettledSet(q: nat, es: seq<AckEntry>) returns (r: set<nat>)
    ensures forall i: nat :: i in r <==> SettledIn(es, q, i)
  {
    hide Bit;
    r := {};
    for k := 0 to |es|
      invariant forall i: nat :: i in r <==> SettledIn(es[..k], q, i)
    {
      forall i: nat ensures SettledIn(es[..k + 1], q, i) <==> SettledIn(es[..k], q, i) || Settles(es[k], q, i) {
        SettledNext(es, k, q, i);
      }
      match es[k] {
        case AckRangeEntry(p, start, len) => if p == q { r := SettleRange(r, start, len); }
        case DeadLetterEntry(p, start, len) => if p == q { r := SettleRange(r, start, len); }
        case NackRequeueEntry(_, _, _) =>
        case AckMaskEntry(p, base, _, mask) => if p == q { r := SettleMask(r, base, mask); }
      }
    }
    assert es[..|es|] == es;
  }

  lemma SettledNext(es: seq<AckEntry>, k: nat, q: nat, i: nat)
    requires k < |es|
    ensures SettledIn(es[..k + 1], q, i) <==> SettledIn(es[..k], q, i) || Settles(es[k], q, i)
  {
    hide Settles;
    assert forall j :: 0 <= j < k ==> es[..k + 1][j] == es[..k][j];
    assert es[..k + 1][k] == es[k];
  }

  /** What recovery must produce. */
  ghost predicate ImageOf(image: Image, q: nat, indexed: seq<IndexEntry>, acked: seq<AckEntry>) {
    && image.queueId == q && Sorted(image.ready)
    && (forall b :: b in image.ready <==> LastEntry(indexed, q, b.key, b.value) && !SettledIn(acked, q, b.key))
    && (forall k :: 0 <= k < |indexed| && indexed[k].queueId == q ==> indexed[k].seqNo < image.nextSeq)
    && (image.nextSeq > 0 ==>
      exists k :: 0 <= k < |indexed| && indexed[k].queueId == q && indexed[k].seqNo == image.nextSeq - 1)
  }

  /** The bindings whose keys are not settled, in order. */
  method Unsettled(m: seq<Binding<PayloadRef>>, settled: set<nat>) returns (r: seq<Binding<PayloadRef>>)
    requires Sorted(m)
    ensures Sorted(r) && forall b :: b in r <==> b in m && b.key !in settled
  {
    r := [];
    for k := 0 to |m|
      invariant Sorted(r) && (forall j :: 0 <= j < |r| && k < |m| ==> r[j].key < m[k].key)
      invariant forall b :: b in r <==> b in m[..k] && b.key !in settled
      invariant forall j :: 0 <= j < |r| ==> r[j] in m[..k]
    {
      assert m[..k + 1] == m[..k] + [m[k]];
      if m[k].key !in settled {
        r := r + [m[k]];
      }
    }
    assert m[..|m|] == m;
  }

  /** `build_image` */
  method BuildImage(q: nat, indexed: seq<IndexEntry>, acked: seq<AckEntry>) returns (image: Image)
    ensures ImageOf(image, q, indexed, acked)
  {
    hide LastEntry, SettledIn;
    var bySeq := IndexBySeq(q, indexed);
    var settled := SettledSet(q, acked);
    var nextSeq := if bySeq == [] then 0 else bySeq[|bySeq| - 1].key + 1;
    NextSeqIs(bySeq, indexed, q);
    var ready := Unsettled(bySeq, settled);
    image := Image(q, nextSeq, ready);
  }

  lemma NextSeqIs(m: seq<Binding<PayloadRef>>, es: seq<IndexEntry>, q: nat)
    requires Reflects(m, es, q)
    ensures var next := if m == [] then 0 else m[|m| - 1].key + 1;
      && (forall k :: 0 <= k < |es| && es[k].queueId == q ==> es[k].seqNo < next)
      && (next > 0 ==> exists k :: 0 <= k < |es| && es[k].queueId == q && es[k].seqNo == next - 1)
  {
    forall k | 0 <= k < |es| && es[k].queueId == q ensures es[k].seqNo < if m == [] then 0 else m[|m| - 1].key + 1 {
      var ref := HasLast(es, k);
      assert Binding(es[k].seqNo, ref) in m;
    }
    if m != [] {
      assert m[|m| - 1] in m;
      assert LastEntry(es, q, m[|m| - 1].key, m[|m| - 1].value);
    }
  }

  /** A message with an entry has a last one. */
  lemma {:induction false} HasLast(es: seq<IndexEntry>, k: nat) returns (ref: PayloadRef)
    requires k < |es|
    ensures LastEntry(es, es[k].queueId, es[k].seqNo, ref)
    decreases |es|
  {
    hide LastEntry;
    var n := |es| - 1;
    assert es == es[..n] + [es[n]];
    if es[n].queueId == es[k].queueId && es[n].seqNo == es[k].seqNo {
      ref := es[n].ref;
    } else {
      ref := HasLast(es[..n], k);
    }
    LastEntryAppend(es[..n], es[n], es[k].queueId, es[k].seqNo, ref);
  }
}
