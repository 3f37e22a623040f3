/** Where the settlement commands differ from their documentation, and exactly when they agree. */
module SettlementMeaning {
  import opened Words
  import opened Kernels
  import opened QueueSpec
  import opened Deliveries
  import opened SessionSpec
  import opened ShardExecutor

  /** Settling either list of tags leaves the same deliveries outstanding, whatever they are. */
  ghost predicate SameEffect(a: seq<nat>, b: seq<nat>) {
    forall list: seq<Entry> :: WithoutTags(list, a) == WithoutTags(list, b)
  }

  /** An ack mask is documented to settle `base + i` for every set bit `i`. It settles `base`,
      `base + 1`, ... instead, which is the same for every list of outstanding tags exactly when
      the set bits are the lowest ones. */
  lemma AckMaskAsDocumented(base: nat, mask: u64)
    ensures SameEffect(Span(base, PopCount(mask)), MaskTags(base, mask)) <==> mask == LowMask(PopCount(mask))
  {
    hide PopCount, Span, MaskTags, WithoutTags, LowMask, Bit, SameEffect;
    var a, b := Span(base, PopCount(mask)), MaskTags(base, mask);
    BitListBounds(mask);
    forall t: nat ensures t in b <==> t >= base && Bit(mask, t - base) { MaskTagsAre(base, mask, t); }
    if mask == LowMask(PopCount(mask)) {
      assert forall t: nat :: t in a <==> t in b;
      SameTagsSameEffect(a, b);
    }
    if SameEffect(a, b) {
      forall i: nat ensures Bit(mask, i) <==> Bit(LowMask(PopCount(mask)), i) {
        OneTagTells(a, b, base + i);
        NoHighBit(mask, i);
      }
      SameBitsSameWord(mask, LowMask(PopCount(mask)));
    }
  }

  lemma SameTagsSameEffect(a: seq<nat>, b: seq<nat>)
    requires forall t: nat :: t in a <==> t in b
    ensures SameEffect(a, b)
  {
    forall list: seq<Entry> ensures WithoutTags(list, a) == WithoutTags(list, b) { SameTagsHere(list, a, b); }
  }

  lemma NoHighBit(mask: u64, i: nat)
    ensures Bit(mask, i) ==> i < 64
  {
    BitListBounds(mask);
    assert Bit(mask, i) <==> i in BitList(mask);
  }

  /** One outstanding tag tells two tag lists apart. */
  lemma OneTagTells(a: seq<nat>, b: seq<nat>, t: nat)
    requires SameEffect(a, b)
    ensures t in a <==> t in b
  {
    var list := [Entry(t, 0)];
    assert list[..0] == [];
    assert WithoutTags(list, a) == if t in a then [] else [Entry(t, 0)];
    assert WithoutTags(list, b) == if t in b then [] else [Entry(t, 0)];
  }

  /** What a caller can check before the call: no outstanding tag is among the settled ones or the
      documented ones without being among both. */
  predicate MaskIsSafe(list: seq<Entry>, base: nat, mask: u64) {
    forall k :: 0 <= k < |list| ==>
      (base <= list[k].tag < base + PopCount(mask) <==> list[k].tag >= base && Bit(mask, list[k].tag - base))
  }

  /** The same, for the tags that one session has outstanding. */
  lemma AckMaskOnSession(list: seq<Entry>, base: nat, mask: u64)
    ensures (WithoutTags(list, Span(base, PopCount(mask))) == WithoutTags(list, MaskTags(base, mask))) <==>
      MaskIsSafe(list, base, mask)
  {
    hide PopCount, Span, MaskTags, WithoutTags, Bit;
    forall k | 0 <= k < |list|
      ensures list[k].tag in MaskTags(base, mask) <==> list[k].tag >= base && Bit(mask, list[k].tag - base)
    {
      MaskTagsAre(base, mask, list[k].tag);
    }
    SameRestIff(list, Span(base, PopCount(mask)), MaskTags(base, mask));
  }

  lemma SameRestIff(list: seq<Entry>, a: seq<nat>, b: seq<nat>)
    ensures WithoutTags(list, a) == WithoutTags(list, b) <==>
      forall k :: 0 <= k < |list| ==> (list[k].tag in a <==> list[k].tag in b)
  {
    hide WithoutTags;
    if WithoutTags(list, a) == WithoutTags(list, b) {
      forall k | 0 <= k < |list| ensures list[k].tag in a <==> list[k].tag in b {
        WithoutTagsKeeps(list, a, list[k]);
        WithoutTagsKeeps(list, b, list[k]);
      }
    }
    if forall k :: 0 <= k < |list| ==> (list[k].tag in a <==> list[k].tag in b) {
      SameTagsHere(list, a, b);
    }
  }

  lemma {:induction false} SameTagsHere(list: seq<Entry>, a: seq<nat>, b: seq<nat>)
    requires forall k :: 0 <= k < |list| ==> (list[k].tag in a <==> list[k].tag in b)
    ensures WithoutTags(list, a) == WithoutTags(list, b)
  {
    if list == [] {
    } else {
      SameTagsHere(list[..|list| - 1], a, b);
    }
  }

  /** Mask 2 from tag 1 should settle tag 2; it settles tag 1. */
  lemma AckMaskDiffers()
    ensures var list := [Entry(1, 7), Entry(2, 8)];
      WithoutTags(list, Span(1, PopCount(2))) == [Entry(2, 8)] && WithoutTags(list, MaskTags(1, 2)) == [Entry(1, 7)]
  {
    var list := [Entry(1, 7), Entry(2, 8)];
    assert PopCount(2) == 1 by { assert PopCount(1) == 1; }
    forall t: nat ensures t in MaskTags(1, 2) <==> t == 2 {
      MaskTagsAre(1, 2, t);
      OnlyBitOne(t);
    }
    assert list[..1] == [Entry(1, 7)] && list[..1][..0] == [];
  }

  lemma OnlyBitOne(t: nat)
    ensures t >= 1 && Bit(2, t - 1) <==> t == 2
  {
    if t >= 3 {
      assert Bit(2, t - 1) == Bit(1, t - 2) == Bit(0, t - 3);
      ZeroHasNoBit(t - 3);
    }
  }

  /** The tags of a documented range, both ends included. */
  function RangeTags(start: nat, end: nat): (tags: seq<nat>)
    ensures forall t :: t in tags <==> start <= t <= end
  {
    if start <= end then Span(start, end + 1 - start) else []
  }

  /** What a caller can check before the call: with the end outstanding, nothing before the start is; with
      the end already settled, nothing of the range is outstanding. */
  predicate RangeIsSafe(list: seq<Entry>, start: nat, end: nat) {
    if HasTag(list, end) then forall k :: 0 <= k < |list| ==> start <= list[k].tag
    else forall k :: 0 <= k < |list| ==> !(start <= list[k].tag <= end)
  }

  /** An ack range is documented to settle the tags from `start` to `end`. It settles everything up to `end`
      when `end` is outstanding and nothing otherwise, which is the same exactly when the range is safe. */
  lemma AckRangeAsDocumented(s: Session, start: nat, end: nat)
    requires SessionOk(s)
    ensures AfterSettle(s.list, end, Multiple) == WithoutTags(s.list, RangeTags(start, end))
      <==> RangeIsSafe(s.list, start, end)
  {
    hide WithoutTags, RangeTags;
    if HasTag(s.list, end) {
      OutstandingEnd(s.list, start, end);
    } else {
      SettledEnd(s.list, start, end);
    }
  }

  lemma OutstandingEnd(list: seq<Entry>, start: nat, end: nat)
    requires TagsAscend(list) && HasTag(list, end)
    ensures list[TagIndex(list, end) + 1..] == WithoutTags(list, RangeTags(start, end))
      <==> forall k :: 0 <= k < |list| ==> start <= list[k].tag
  {
    hide WithoutTags, RangeTags, TagIndex, HasTag;
    var n, tags := TagIndex(list, end) + 1, RangeTags(start, end);
    if forall k :: 0 <= k < |list| ==> start <= list[k].tag {
      assert forall k :: 0 <= k < n ==> list[k].tag in tags;
      assert forall k :: n <= k < |list| ==> list[k].tag !in tags;
      WithoutPrefix(list, n, tags);
    }
    if list[n..] == WithoutTags(list, tags) {
      if start > end { KeptStays(list, n, tags, n - 1); }
      forall k | 0 <= k < |list| ensures start <= list[k].tag {
        if k < n { KeptStays(list, n, tags, k); }
      }
    }
  }

  /** An entry whose tag is not settled is not in the dropped prefix. */
  lemma KeptStays(list: seq<Entry>, n: nat, tags: seq<nat>, k: nat)
    requires TagsAscend(list) && k < n <= |list| && list[n..] == WithoutTags(list, tags)
    ensures list[k].tag in tags
  {
    hide WithoutTags;
    WithoutTagsKeeps(list, tags, list[k]);
  }

  lemma SettledEnd(list: seq<Entry>, start: nat, end: nat)
    ensures list == WithoutTags(list, RangeTags(start, end))
      <==> forall k :: 0 <= k < |list| ==> !(start <= list[k].tag <= end)
  {
    hide WithoutTags, RangeTags;
    var tags := RangeTags(start, end);
    if forall k :: 0 <= k < |list| ==> !(start <= list[k].tag <= end) {
      WithoutPrefix(list, 0, tags);
      assert list[0..] == list;
    }
    if list == WithoutTags(list, tags) {
      forall k | 0 <= k < |list| ensures !(start <= list[k].tag <= end) { WithoutTagsKeeps(list, tags, list[k]); }
    }
  }

  /** When the first `n` entries are settled and no other is, the others remain. */
  lemma {:induction false} WithoutPrefix(list: seq<Entry>, n: nat, tags: seq<nat>)
    requires n <= |list|
    requires forall k :: 0 <= k < n ==> list[k].tag in tags
    requires forall k :: n <= k < |list| ==> list[k].tag !in tags
    ensures WithoutTags(list, tags) == list[n..]
  {
    if list == [] {
    } else {
      hide WithoutTags;
      var m := |list| - 1;
      var front := list[..m];
      assert list == front + [list[m]];
      WithoutAppend(front, list[m], tags);
      WithoutPrefix(front, if n <= m then n else m, tags);
      assert list[n..] == if n <= m then front[n..] + [list[m]] else front[m..];
    }
  }

  /** Tags 1 and 2 outstanding. */
  const TWO_OUTSTANDING := Session(3, Credit(Unlimited, 2), [Entry(1, 7), Entry(2, 8)], false)

  /** Tags 3 and 4 outstanding, 5 settled. */
  const END_SETTLED := Session(6, Credit(Unlimited, 2), [Entry(3, 7), Entry(4, 8)], false)

  /** Range 2 to 2 should leave tag 1 outstanding; it settles tag 1 too. Range 3 to 5 should settle tags 3 and
      4; it is refused and settles nothing. */
  lemma AckRangeDiffers()
    ensures SessionOk(TWO_OUTSTANDING) && HasTag(TWO_OUTSTANDING.list, 2)
    ensures AfterSettle(TWO_OUTSTANDING.list, 2, Multiple) == []
    ensures WithoutTags(TWO_OUTSTANDING.list, RangeTags(2, 2)) == [Entry(1, 7)]
    ensures SessionOk(END_SETTLED) && SettleError(END_SETTLED, 5).Some?
    ensures AfterSettle(END_SETTLED.list, 5, Multiple) == END_SETTLED.list
    ensures WithoutTags(END_SETTLED.list, RangeTags(3, 5)) == []
  {
    var a, b := TWO_OUTSTANDING.list, END_SETTLED.list;
    assert a[1].tag == 2;
    TagIndexIs(a, 1);
    assert a[..1] == [Entry(1, 7)] && a[..1][..0] == [];
    assert b[..1] == [Entry(3, 7)] && b[..1][..0] == [];
  }
}
