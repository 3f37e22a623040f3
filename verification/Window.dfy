/** The segment delivery window (aurum-core consumer): outstanding deliveries as ranges and
    rank-indexed masks, and the ordered list of (tag, message) pairs they stand for. */
module DeliveryWindow {
  import opened Words
  import opened Kernels
  import opened IntrusiveList
  import opened QueueSpec
  import opened Blocks
  import opened Deliveries

  datatype Segment =
    | RangeSegment(firstTag: nat, startSeq: nat, len: nat, redelivered: bool)
    | MaskSegment(firstTag: nat, block: nat, word: nat, originalMask: u64, remainingRankMask: u64, redelivered: bool)
  {
    function LastTag(): (t: int) {
      match this
      case RangeSegment(first, _, len, _) => first + len - 1
      case MaskSegment(first, _, _, original, _, _) => first + PopCount(original) - 1
    }

    predicate ContainsTag(tag: nat) {
      match this
      case RangeSegment(first, _, len, _) => first <= tag < first + len
      case MaskSegment(first, _, _, original, remaining, _) =>
        first <= tag && tag - first < PopCount(original) && Bit(remaining, tag - first)
    }

    /** A non-empty segment whose unsettled ranks are ranks of the delivery. */
    ghost predicate Ok() {
      match this
      case RangeSegment(_, _, len, _) => len > 0
      case MaskSegment(_, _, word, original, remaining, _) =>
        word < WORDS_PER_BLOCK && original != 0 && forall r: nat :: Bit(remaining, r) ==> r < PopCount(original)
    }
  }

  /** The entries of a mask segment whose rank is below `n`. */
  ghost function MaskEntries(first: nat, base: nat, order: seq<nat>, remaining: nat, n: nat): (r: seq<Entry>)
    requires n <= |order|
  {
    if n == 0 then [] else
      MaskEntries(first, base, order, remaining, n - 1) + if Bit(remaining, n - 1) then
        [Entry(first + n - 1, base + order[n - 1])] else []
  }

  function WordBase(block: nat, word: nat): (b: nat) {
    block * MSGS_PER_BLOCK + word * 64
  }

  /** The outstanding deliveries of one segment, in tag order. */
  ghost function Entries(s: Segment): (r: seq<Entry>) {
    match s
    case RangeSegment(first, start, len, _) => seq(len, k requires 0 <= k => Entry(first + k, start + k))
    case MaskSegment(first, block, word, original, remaining, _) =>
      MaskEntries(first, WordBase(block, word), BitList(original), remaining, PopCount(original))
  }

  ghost function Outstanding(segments: seq<Segment>): (r: seq<Entry>) {
    if segments == [] then [] else Entries(segments[0]) + Outstanding(segments[1..])
  }

  ghost predicate Within(entries: seq<Entry>, lo: int, hi: int) {
    forall k :: 0 <= k < |entries| ==> lo <= entries[k].tag <= hi
  }

  /** Segments are non-empty and their tag intervals ascend without overlap. */
  ghost predicate SegmentsOk(segments: seq<Segment>) {
    && (forall k :: 0 <= k < |segments| ==> segments[k].Ok())
    && (forall j, k :: 0 <= j < k < |segments| ==> segments[j].LastTag() < segments[k].firstTag)
  }

  // ---- Entries of one segment

  lemma {:induction false} MaskEntriesTags(first: nat, base: nat, order: seq<nat>, remaining: nat, n: nat)
    requires n <= |order|
    ensures var r := MaskEntries(first, base, order, remaining, n);
      TagsAscend(r) && Within(r, first, first + n - 1) && forall tag: nat :: HasTag(r, tag) <==>
        first <= tag < first + n && Bit(remaining, tag - first)
  {
    if n == 0 {
    } else {
      MaskEntriesTags(first, base, order, remaining, n - 1);
      var a, r := MaskEntries(first, base, order, remaining, n - 1), MaskEntries(first, base, order, remaining, n);
      forall tag: nat ensures HasTag(r, tag) <==> first <= tag < first + n && Bit(remaining, tag - first) {
        if HasTag(a, tag) { var k :| 0 <= k < |a| && a[k].tag == tag; assert r[k].tag == tag; }
        if tag == first + n - 1 && Bit(remaining, n - 1) { assert r[|r| - 1].tag == tag; }
      }
    }
  }

  lemma EntriesTags(s: Segment)
    requires s.Ok()
    ensures TagsAscend(Entries(s)) && Within(Entries(s), s.firstTag, s.LastTag())
    ensures forall tag: nat :: HasTag(Entries(s), tag) <==> s.ContainsTag(tag)
    ensures s.firstTag <= s.LastTag()
  {
    match s
    case RangeSegment(first, start, len, _) =>
      forall tag: nat | s.ContainsTag(tag) ensures HasTag(Entries(s), tag) {
        assert Entries(s)[tag - first].tag == tag;
      }
    case MaskSegment(first, block, word, original, remaining, _) =>
      MaskEntriesTags(first, WordBase(block, word), BitList(original), remaining, PopCount(original));
  }

  lemma ConcatAscend(a: seq<Entry>, b: seq<Entry>, mid: int)
    requires TagsAscend(a) && TagsAscend(b)
    requires forall k :: 0 <= k < |a| ==> a[k].tag <= mid
    requires forall k :: 0 <= k < |b| ==> mid < b[k].tag
    ensures TagsAscend(a + b)
    ensures forall tag: nat :: HasTag(a + b, tag) <==> HasTag(a, tag) || HasTag(b, tag)
  {
    forall tag: nat ensures HasTag(a + b, tag) <==> HasTag(a, tag) || HasTag(b, tag) {
      if HasTag(a, tag) { var k :| 0 <= k < |a| && a[k].tag == tag; assert (a + b)[k].tag == tag; }
      if HasTag(b, tag) { var k :| 0 <= k < |b| && b[k].tag == tag; assert (a + b)[|a| + k].tag == tag; }
    }
  }

  /** The window lists its deliveries in strictly ascending tag order, so no tag twice, and a
      tag is outstanding exactly when some segment contains it. */
  lemma {:induction false} OutstandingTags(segments: seq<Segment>)
    requires SegmentsOk(segments)
    ensures TagsAscend(Outstanding(segments))
    ensures forall tag: nat ::
      HasTag(Outstanding(segments), tag) <==> exists k :: 0 <= k < |segments| && segments[k].ContainsTag(tag)
    ensures segments != [] ==>
      forall k :: 0 <= k < |Outstanding(segments)| ==> segments[0].firstTag <= Outstanding(segments)[k].tag
  {
    if segments == [] {
    } else {
      var a, b := Entries(segments[0]), Outstanding(segments[1..]);
      EntriesTags(segments[0]);
      OutstandingTags(segments[1..]);
      ConcatAscend(a, b, segments[0].LastTag());
      forall tag: nat ensures HasTag(a + b, tag) <==> exists k :: 0 <= k < |segments| && segments[k].ContainsTag(tag) {
        if HasTag(b, tag) {
          var k :| 0 <= k < |segments[1..]| && segments[1..][k].ContainsTag(tag);
          assert segments[k + 1].ContainsTag(tag);
        }
        if exists k :: 0 <= k < |segments| && segments[k].ContainsTag(tag) {
          var k :| 0 <= k < |segments| && segments[k].ContainsTag(tag);
          if k > 0 { assert segments[1..][k - 1].ContainsTag(tag); }
        }
      }
    }
  }

  lemma {:induction false} OutstandingConcat(a: seq<Segment>, b: seq<Segment>)
    ensures Outstanding(a + b) == Outstanding(a) + Outstanding(b)
  {
    if a == [] {
      assert a + b == b;
    } else {
      assert (a + b)[1..] == a[1..] + b;
      OutstandingConcat(a[1..], b);
    }
  }

  lemma OutstandingOfOne(s: Segment)
    ensures Outstanding([s]) == Entries(s)
  {
    assert [s][1..] == [];
  }

  /** The list around segment `idx`. */
  lemma OutstandingAround(segments: seq<Segment>, idx: nat, replaced: seq<Segment>)
    requires idx < |segments|
    ensures Outstanding(segments) ==
      Outstanding(segments[..idx]) + Entries(segments[idx]) + Outstanding(segments[idx + 1..])
    ensures Outstanding(segments[..idx] + replaced + segments[idx + 1..])
         == Outstanding(segments[..idx]) + Outstanding(replaced) + Outstanding(segments[idx + 1..])
  {
    assert segments == segments[..idx] + [segments[idx]] + segments[idx + 1..];
    OutstandingConcat(segments[..idx] + [segments[idx]], segments[idx + 1..]);
    OutstandingConcat(segments[..idx], [segments[idx]]);
    OutstandingOfOne(segments[idx]);
    OutstandingConcat(segments[..idx] + replaced, segments[idx + 1..]);
    OutstandingConcat(segments[..idx], replaced);
  }

  // ---- Settling one delivery

  datatype SegAction =
    | RemoveSegment
    | RangeTrimFront
    | RangeTrimBack
    | RangeSplitAt(leftLen: nat, right: Segment)
    | MaskClearRank(rank: nat)
    | MaskRemove

  /** The segments `apply_seg_action` leaves in place of `s`. */
  function Applied(s: Segment, action: SegAction): (r: seq<Segment>)
    requires action.RangeTrimFront? || action.RangeTrimBack? ==> s.RangeSegment? && s.len > 0
    requires action.RangeSplitAt? ==> s.RangeSegment?
    requires action.MaskClearRank? ==> s.MaskSegment? && action.rank < 64
  {
    match action
    case RemoveSegment => []
    case MaskRemove => []
    case RangeTrimFront => [s.(firstTag := s.firstTag + 1, startSeq := s.startSeq + 1, len := s.len - 1)]
    case RangeTrimBack => [s.(len := s.len - 1)]
    case RangeSplitAt(leftLen, right) => [s.(len := leftLen), right]
    case MaskClearRank(rank) => [s.(remainingRankMask := AndNot(s.remainingRankMask, OneAt(rank)))]
  }

  lemma AppliedKind(s: Segment, tag: nat, action: SegAction)
    requires s.Ok() && s.ContainsTag(tag) && ChosenFor(s, tag, action) && (action.MaskClearRank? ==> action.rank < 64)
    ensures forall k :: 0 <= k < |Applied(s, action)| ==> Applied(s, action)[k].RangeSegment? == s.RangeSegment?
  {
  }

  /** Position of `tag` in the entries of a segment. */
  ghost predicate At(entries: seq<Entry>, k: int, tag: nat) {
    0 <= k < |entries| && entries[k].tag == tag
  }

  /** Clearing one rank removes exactly its entry. */
  lemma {:induction false} RankAt(first: nat, base: nat, order: seq<nat>, remaining: nat, cleared: nat, n: nat,
      rank: nat)
    returns (k: nat)
    requires rank < n <= |order| && Bit(remaining, rank)
    requires forall r: nat :: Bit(cleared, r) <==> Bit(remaining, r) && r != rank
    ensures var e := MaskEntries(first, base, order, remaining, n);
      && At(e, k, first + rank) && e[k].msg == base + order[rank]
      && MaskEntries(first, base, order, cleared, n) == RemoveAt(e, k)
  {
    hide Bit;
    var prev := MaskEntries(first, base, order, remaining, n - 1);
    if rank == n - 1 {
      k := |prev|;
      SameRanks(first, base, order, remaining, cleared, n - 1);
    } else {
      k := RankAt(first, base, order, remaining, cleared, n - 1, rank);
    }
  }

  lemma {:induction false} SameRanks(first: nat, base: nat, order: seq<nat>, a: nat, b: nat, n: nat)
    requires n <= |order| && forall r: nat :: r < n ==> Bit(a, r) == Bit(b, r)
    ensures MaskEntries(first, base, order, a, n) == MaskEntries(first, base, order, b, n)
  {
    if n == 0 {
    } else {
      SameRanks(first, base, order, a, b, n - 1);
    }
  }

  /** The action chosen for a tag. */
  ghost predicate ChosenFor(s: Segment, tag: nat, action: SegAction)
    requires s.Ok() && s.ContainsTag(tag)
  {
    match s
    case RangeSegment(first, start, len, red) =>
      var offset := tag - first;
      if len == 1 then action == RemoveSegment
      else if offset == 0 then action == RangeTrimFront
      else if offset == len - 1 then action == RangeTrimBack
      else action == RangeSplitAt(offset, RangeSegment(tag + 1, start + offset + 1, len - offset - 1, red))
    case MaskSegment(first, _, _, _, remaining, _) =>
      if PopCount(remaining) == 1 then action == MaskRemove else action == MaskClearRank(tag - first)
  }

  /** Whatever the action, exactly the entry of `tag` disappears, and what is left stays inside
      the tag interval of the segment. */
  lemma OneActionEffect(s: Segment, tag: nat, action: SegAction) returns (k: nat)
    requires s.Ok() && s.ContainsTag(tag) && ChosenFor(s, tag, action)
    ensures action.MaskClearRank? ==> action.rank < 64
    ensures At(Entries(s), k, tag)
    ensures Outstanding(Applied(s, action)) == RemoveAt(Entries(s), k)
    ensures SegmentsOk(Applied(s, action))
    ensures forall j :: 0 <= j < |Applied(s, action)| ==>
      s.firstTag <= Applied(s, action)[j].firstTag && Applied(s, action)[j].LastTag() <= s.LastTag()
  {
    match s
    case RangeSegment(_, _, _, _) => k := RangeActionEffect(s, tag, action);
    case MaskSegment(_, _, _, _, _, _) => k := MaskActionEffect(s, tag, action);
  }

  lemma RangeActionEffect(s: Segment, tag: nat, action: SegAction) returns (k: nat)
    requires s.RangeSegment? && s.Ok() && s.ContainsTag(tag) && ChosenFor(s, tag, action)
    ensures At(Entries(s), k, tag)
    ensures Outstanding(Applied(s, action)) == RemoveAt(Entries(s), k)
    ensures SegmentsOk(Applied(s, action))
    ensures forall j :: 0 <= j < |Applied(s, action)| ==>
      s.firstTag <= Applied(s, action)[j].firstTag && Applied(s, action)[j].LastTag() <= s.LastTag()
  {
    k := tag - s.firstTag;
    var r := Applied(s, action);
    if |r| == 1 {
      OutstandingOfOne(r[0]);
    } else if |r| == 2 {
      assert r == [r[0]] + [r[1]];
      OutstandingConcat([r[0]], [r[1]]);
      OutstandingOfOne(r[0]); OutstandingOfOne(r[1]);
    }
    assert Outstanding(r) == RemoveAt(Entries(s), k);
  }

  lemma MaskActionEffect(s: Segment, tag: nat, action: SegAction) returns (k: nat)
    requires s.MaskSegment? && s.Ok() && s.ContainsTag(tag) && ChosenFor(s, tag, action)
    ensures action.MaskClearRank? ==> action.rank < 64
    ensures At(Entries(s), k, tag)
    ensures Outstanding(Applied(s, action)) == RemoveAt(Entries(s), k)
    ensures SegmentsOk(Applied(s, action))
    ensures forall j :: 0 <= j < |Applied(s, action)| ==>
      s.firstTag <= Applied(s, action)[j].firstTag && Applied(s, action)[j].LastTag() <= s.LastTag()
  {
    hide Bit, PopCount, BitList, AndNot, OneAt, MaskEntries;
    var rank := tag - s.firstTag;
    BitListBounds(s.originalMask);
    var base, order := WordBase(s.block, s.word), BitList(s.originalMask);
    if action.MaskClearRank? {
      k := RankAt(s.firstTag, base, order, s.remainingRankMask, AndNot(s.remainingRankMask, OneAt(rank)),
        PopCount(s.originalMask), rank);
      OutstandingOfOne(Applied(s, action)[0]);
    } else {
      OnlyRank(s.remainingRankMask, rank);
      NoBits();
      k := RankAt(s.firstTag, base, order, s.remainingRankMask, 0, PopCount(s.originalMask), rank);
      NoRanks(s.firstTag, base, order, PopCount(s.originalMask));
    }
  }

  lemma {:induction false} NoRanks(first: nat, base: nat, order: seq<nat>, n: nat)
    requires n <= |order|
    ensures MaskEntries(first, base, order, 0, n) == []
  {
    NoBits();
    if n == 0 {
    } else {
      NoRanks(first, base, order, n - 1);
    }
  }

  lemma OnlyRank(w: u64, rank: nat)
    requires PopCount(w) == 1 && Bit(w, rank)
    ensures forall r: nat :: Bit(w, r) <==> r == rank
  {
    var s := BitList(w);
    assert rank in s && |s| == 1;
    forall r: nat | Bit(w, r) ensures r == rank { assert r in s; }
  }

  // ---- Settling a prefix

  lemma {:induction false} RankedMessages(first: nat, base: nat, order: seq<nat>, remaining: nat, n: nat)
    requires n <= |order|
    ensures var bits, e := RankedBits(order, remaining, n), MaskEntries(first, base, order, remaining, n);
      |bits| == |e| && forall k :: 0 <= k < |e| ==> e[k].msg == base + bits[k]
  {
    if n == 0 {
    } else {
      RankedMessages(first, base, order, remaining, n - 1);
    }
  }

  /** A word mask holding the unsettled ranks below `n` stands for exactly their messages. */
  lemma RankedMaskSeqs(first: nat, m: WordMask, order: seq<nat>, remaining: nat, n: nat)
    requires m.word < WORDS_PER_BLOCK && n <= |order| && BitList(m.mask) == RankedBits(order, remaining, n)
    ensures MaskSeqs(m) == Messages(MaskEntries(first, WordBase(m.block, m.word), order, remaining, n))
  {
    RankedMessages(first, WordBase(m.block, m.word), order, remaining, n);
  }

  /** Clearing the ranks below `n` splits the entries of a mask segment in two. */
  lemma {:induction false} RankSplit(first: nat, base: nat, order: seq<nat>, remaining: nat, rest: nat, n: nat,
      total: nat)
    requires n <= total <= |order|
    requires forall r: nat :: r < total ==> (Bit(rest, r) <==> Bit(remaining, r) && r >= n)
    ensures MaskEntries(first, base, order, remaining, total)
         == MaskEntries(first, base, order, remaining, n) + MaskEntries(first, base, order, rest, total)
    decreases total
  {
    hide Bit;
    if total > n {
      RankSplit(first, base, order, remaining, rest, n, total - 1);
    } else if n > 0 {
      NoneBelow(first, base, order, rest, n);
    }
  }

  lemma {:induction false} NoneBelow(first: nat, base: nat, order: seq<nat>, ranks: nat, n: nat)
    requires n <= |order| && forall r: nat :: r < n ==> !Bit(ranks, r)
    ensures MaskEntries(first, base, order, ranks, n) == []
  {
    if n == 0 {
    } else {
      NoneBelow(first, base, order, ranks, n - 1);
    }
  }

  // ---- First deliveries and redeliveries are kept apart

  /** The segment's messages if it is a range (`first`) or a mask (not `first`), else nothing. */
  ghost function Part(s: Segment, first: bool): (r: seq<nat>) {
    if s.RangeSegment? == first then Messages(Entries(s)) else []
  }

  /** The outstanding messages of all range segments, or of all mask segments. */
  ghost function OfKind(segments: seq<Segment>, first: bool): (r: seq<nat>) {
    if segments == [] then [] else Part(segments[0], first) + OfKind(segments[1..], first)
  }

  /** The messages a batch lists as ranges, or as masks. */
  ghost function Batched(w: Work, first: bool): (r: seq<nat>)
    requires MasksOk(w.masks)
  {
    if first then RangesSeqs(w.ranges) else MasksSeqs(w.masks)
  }

  /** The batch grew by the segment, each kind by its own. */
  ghost predicate Joined(batch: Work, r: Work, s: Segment)
    requires MasksOk(batch.masks) && MasksOk(r.masks)
  {
    forall first :: Batched(r, first) == Batched(batch, first) + Part(s, first)
  }

  /** The batch grew by what the segment lost. */
  ghost predicate Shared(batch: Work, r: Work, s: Segment, s': Segment)
    requires MasksOk(batch.masks) && MasksOk(r.masks)
  {
    forall first :: Batched(r, first) + Part(s', first) == Batched(batch, first) + Part(s, first)
  }

  lemma SharedPart(batch: Work, r: Work, s: Segment, s': Segment, taken: seq<Entry>)
    requires MasksOk(batch.masks) && MasksOk(r.masks)
    requires s.RangeSegment? == s'.RangeSegment? && Entries(s) == taken + Entries(s')
    requires if s.RangeSegment? then r.masks == batch.masks else r.ranges == batch.ranges
    requires Batched(r, s.RangeSegment?) == Batched(batch, s.RangeSegment?) + Messages(taken)
    ensures Shared(batch, r, s, s')
  {
    hide Entries, Messages, RangesSeqs, MasksSeqs;
    MessagesConcat(taken, Entries(s'));
    var a, b, c := Batched(batch, s.RangeSegment?), Messages(taken), Messages(Entries(s'));
    assert (a + b) + c == a + (b + c);
  }

  /** Ranges come from range segments and masks from mask segments, in their order. */
  ghost predicate Balanced(before: seq<Segment>, batch: Work, segments: seq<Segment>)
    requires MasksOk(batch.masks)
  {
    forall first :: Batched(batch, first) + OfKind(segments, first) == OfKind(before, first)
  }

  /** Nothing changes its kind. */
  ghost predicate Drawn(before: seq<Segment>, batch: Work, segments: seq<Segment>)
    requires MasksOk(batch.masks)
  {
    forall first, i :: i in Batched(batch, first) || i in OfKind(segments, first) ==> i in OfKind(before, first)
  }

  /** Range segments hold first deliveries and mask segments hold redeliveries. */
  ghost predicate Matches(segments: seq<Segment>, redelivered: set<nat>) {
    forall first, i :: i in OfKind(segments, first) ==> (first <==> i !in redelivered)
  }

  lemma {:induction false} MatchedKind(segments: seq<Segment>, redelivered: set<nat>, first: bool)
    requires Matches(segments, redelivered)
    ensures OfKind(segments, first) == Pick(Messages(Outstanding(segments)), redelivered, first)
  {
    hide Entries, Pick;
    if segments == [] {
      PickAlike([], redelivered, true, first);
    } else {
      var s, rest := segments[0], segments[1..];
      var a, b := Messages(Entries(s)), Messages(Outstanding(rest));
      assert Matches(rest, redelivered) by {
        forall f, i | i in OfKind(rest, f) ensures f <==> i !in redelivered { assert i in OfKind(segments, f); }
      }
      MatchedKind(rest, redelivered, first);
      MessagesConcat(Entries(s), Outstanding(rest));
      PickConcat(a, b, redelivered, first);
      forall i | i in a ensures s.RangeSegment? <==> i !in redelivered {
        assert i in OfKind(segments, s.RangeSegment?);
      }
      PickAlike(a, redelivered, s.RangeSegment?, first);
    }
  }

  /** A prefix settlement lists exactly the first deliveries as ranges and the others as masks. */
  lemma BalancedSplit(before: seq<Segment>, batch: Work, after: seq<Segment>, taken: seq<Entry>, redelivered: set<nat>)
    requires MasksOk(batch.masks) && Balanced(before, batch, after) && Matches(before, redelivered)
    requires Outstanding(before) == taken + Outstanding(after)
    ensures Matches(after, redelivered)
    ensures forall first :: Batched(batch, first) == Pick(Messages(taken), redelivered, first)
  {
    hide OfKind, Batched, Pick, Outstanding, Messages;
    forall first, i | i in OfKind(after, first) ensures first <==> i !in redelivered {
      assert i in Batched(batch, first) + OfKind(after, first);
    }
    forall first ensures Batched(batch, first) == Pick(Messages(taken), redelivered, first) {
      MatchedKind(before, redelivered, first);
      MatchedKind(after, redelivered, first);
      MessagesConcat(taken, Outstanding(after));
      PickConcat(Messages(taken), Messages(Outstanding(after)), redelivered, first);
      SameSuffix(Batched(batch, first), Pick(Messages(taken), redelivered, first), OfKind(after, first));
    }
  }

  lemma SameSuffix(a: seq<nat>, b: seq<nat>, c: seq<nat>)
    requires a + c == b + c
    ensures a == b
  {
    assert |a + c| == |b + c|;
    forall k | 0 <= k < |a| ensures a[k] == b[k] { assert (a + c)[k] == (b + c)[k]; }
  }

  /** So does the settlement of one tag. */
  lemma DrawnSplit(before: seq<Segment>, batch: Work, after: seq<Segment>, msg: nat, redelivered: set<nat>)
    requires MasksOk(batch.masks) && Drawn(before, batch, after) && Matches(before, redelivered)
    requires WorkSeqs(batch) == [msg]
    ensures Matches(after, redelivered)
    ensures forall first :: Batched(batch, first) == Pick([msg], redelivered, first)
  {
    hide OfKind, Pick, RangesSeqs, MasksSeqs;
    assert Batched(batch, true) + Batched(batch, false) == [msg];
    var first := msg !in redelivered;
    assert msg in Batched(batch, true) + Batched(batch, false);
    assert msg in Batched(batch, first) && Batched(batch, first) == [msg] && Batched(batch, !first) == [];
    PickAlike([msg], redelivered, first, true);
    PickAlike([msg], redelivered, first, false);
  }

  lemma NothingMatches(redelivered: set<nat>)
    ensures Matches([], redelivered)
  {
  }

  lemma MatchesPushed(before: seq<Segment>, after: seq<Segment>, redelivered: set<nat>, msgs: seq<nat>, kind: bool)
    requires Matches(before, redelivered) && forall i :: i in msgs ==> (kind <==> i !in redelivered)
    requires OfKind(after, kind) == OfKind(before, kind) + msgs && OfKind(after, !kind) == OfKind(before, !kind)
    ensures Matches(after, redelivered)
  {
    hide OfKind;
  }

  lemma {:induction false} OfKindConcat(a: seq<Segment>, b: seq<Segment>, first: bool)
    ensures OfKind(a + b, first) == OfKind(a, first) + OfKind(b, first)
  {
    if a == [] {
      assert a + b == b;
    } else {
      assert (a + b)[1..] == a[1..] + b;
      OfKindConcat(a[1..], b, first);
    }
  }

  lemma OfKindOne(s: Segment, first: bool)
    ensures OfKind([s], first) == Part(s, first)
  {
    assert [s][1..] == [];
  }

  lemma {:induction false} OfKindOutstanding(segments: seq<Segment>, first: bool, i: nat)
    requires i in OfKind(segments, first)
    ensures i in Messages(Outstanding(segments))
  {
    hide Entries, Messages;
    if segments == [] {
    } else {
      MessagesConcat(Entries(segments[0]), Outstanding(segments[1..]));
      if i in OfKind(segments[1..], first) { OfKindOutstanding(segments[1..], first, i); }
    }
  }

  /** Pieces of a segment, of its own kind. */
  lemma {:induction false} OfKindPieces(pieces: seq<Segment>, range: bool, first: bool)
    requires forall k :: 0 <= k < |pieces| ==> pieces[k].RangeSegment? == range
    ensures OfKind(pieces, first) == if range == first then Messages(Outstanding(pieces)) else []
  {
    hide Entries, Messages;
    if pieces == [] {
      NoWork();
    } else {
      MessagesConcat(Entries(pieces[0]), Outstanding(pieces[1..]));
      OfKindPieces(pieces[1..], range, first);
    }
  }

  /** Replacing a segment by pieces of its kind with fewer entries. */
  lemma DrawnReplaced(segments: seq<Segment>, idx: nat, pieces: seq<Segment>, j: nat, batch: Work)
    requires idx < |segments| && MasksOk(batch.masks) && j < |Entries(segments[idx])|
    requires forall k :: 0 <= k < |pieces| ==> pieces[k].RangeSegment? == segments[idx].RangeSegment?
    requires Outstanding(pieces) == RemoveAt(Entries(segments[idx]), j)
    requires forall first, i :: i in Batched(batch, first) ==> i in Part(segments[idx], first)
    ensures Drawn(segments, batch, segments[..idx] + pieces + segments[idx + 1..])
  {
    hide Outstanding, Entries, Batched, OfKind, RemoveAt;
    var s, a, b := segments[idx], segments[..idx], segments[idx + 1..];
    assert segments == a + [s] + b;
    forall first, i | i in Batched(batch, first) || i in OfKind(a + pieces + b, first)
      ensures i in OfKind(segments, first)
    {
      OfKindConcat(a + [s], b, first);
      OfKindConcat(a, [s], first);
      OfKindOne(s, first);
      OfKindConcat(a + pieces, b, first);
      OfKindConcat(a, pieces, first);
      OfKindPieces(pieces, s.RangeSegment?, first);
      FewerMessages(Entries(s), j);
    }
  }

  lemma FewerMessages(entries: seq<Entry>, j: nat)
    requires j < |entries|
    ensures forall i :: i in Messages(RemoveAt(entries, j)) ==> i in Messages(entries)
  {
    var r := RemoveAt(entries, j);
    forall k | 0 <= k < |r| ensures r[k].msg in Messages(entries) {
      assert Messages(entries)[if k < j then k else k + 1] == r[k].msg;
    }
  }

  lemma BalancedStart(segments: seq<Segment>)
    ensures Balanced(segments, Work([], []), segments)
  {
  }

  lemma BalancedFull(before: seq<Segment>, batch: Work, r: Work, segments: seq<Segment>)
    requires MasksOk(batch.masks) && MasksOk(r.masks) && segments != []
    requires Balanced(before, batch, segments) && Joined(batch, r, segments[0])
    ensures Balanced(before, r, segments[1..])
  {
    hide Batched, Part;
    forall first ensures Batched(r, first) + OfKind(segments[1..], first) == OfKind(before, first) {
      Regroup(Batched(batch, first), Part(segments[0], first), OfKind(segments[1..], first));
    }
  }

  lemma Regroup(a: seq<nat>, b: seq<nat>, c: seq<nat>)
    ensures (a + b) + c == a + (b + c)
  {
  }

  lemma BalancedPart(before: seq<Segment>, batch: Work, r: Work, segments: seq<Segment>, s': Segment)
    requires MasksOk(batch.masks) && MasksOk(r.masks) && segments != []
    requires Balanced(before, batch, segments) && Shared(batch, r, segments[0], s')
    ensures Balanced(before, r, segments[0 := s'])
  {
    hide Batched, Part;
    assert segments[0 := s'][1..] == segments[1..];
    forall first ensures Batched(r, first) + OfKind(segments[0 := s'], first) == OfKind(before, first) {
      Regroup(Batched(batch, first), Part(segments[0], first), OfKind(segments[1..], first));
      Regroup(Batched(r, first), Part(s', first), OfKind(segments[1..], first));
    }
  }

  lemma WorkPlusRange(w: Work, r: Range)
    requires MasksOk(w.masks)
    ensures multiset(WorkSeqs(w.(ranges := w.ranges + [r]))) == multiset(WorkSeqs(w)) + multiset(Span(r.start, r.len))
    ensures RangesSeqs(w.ranges + [r]) == RangesSeqs(w.ranges) + Span(r.start, r.len)
  {
    hide Span, MasksSeqs;
    var ranges := w.ranges + [r];
    assert ranges[..|w.ranges|] == w.ranges;
    assert RangesSeqs(ranges) == RangesSeqs(w.ranges) + Span(r.start, r.len);
  }

  lemma WorkPlusMask(w: Work, m: WordMask)
    requires MasksOk(w.masks) && m.word < WORDS_PER_BLOCK && m.mask != 0
    ensures MasksOk(w.masks + [m])
    ensures multiset(WorkSeqs(w.(masks := w.masks + [m]))) == multiset(WorkSeqs(w)) + multiset(MaskSeqs(m))
    ensures MasksSeqs(w.masks + [m]) == MasksSeqs(w.masks) + MaskSeqs(m)
  {
    hide MaskSeqs, RangesSeqs;
    var masks := w.masks + [m];
    assert masks[..|w.masks|] == w.masks;
    assert MasksSeqs(masks) == MasksSeqs(w.masks) + MaskSeqs(m);
  }

  /** `full_segment_to_ack` and `full_segment_to_nack`: the whole segment joins the batch. */
  method FullSegment(s: Segment, batch: Work) returns (r: Work, count: nat)
    requires s.Ok() && MasksOk(batch.masks)
    ensures MasksOk(r.masks) && count == |Entries(s)|
    ensures multiset(WorkSeqs(r)) == multiset(WorkSeqs(batch)) + multiset(Messages(Entries(s)))
    ensures Joined(batch, r, s)
  {
    hide MaskSeqs, WorkSeqs, BitList, PopCount, MaskEntries, RankedBits;
    match s
    case RangeSegment(first, start, len, _) =>
      WorkPlusRange(batch, Range(start, len));
      assert Messages(Entries(s)) == Span(start, len);
      r, count := batch.(ranges := batch.ranges + [Range(start, len)]), len;
    case MaskSegment(first, block, word, original, remaining, _) =>
      var bits := ExtractAllRemainingBits(original, remaining);
      var m := WordMask(block, word, bits);
      RankedMaskSeqs(first, m, BitList(original), remaining, PopCount(original));
      count := PopCount(bits);
      if bits != 0 {
        WorkPlusMask(batch, m);
        r := batch.(masks := batch.masks + [m]);
      } else {
        r := batch;
      }
  }

  /** `partial_segment_to_ack` and `partial_segment_to_nack`: the entries up to `tag` join the
      batch and leave the segment; a mask segment may be left with nothing unsettled. */
  method PartialSegment(s: Segment, tag: nat, batch: Work)
    returns (s': Segment, r: Work, count: nat, ghost taken: seq<Entry>)
    requires s.Ok() && MasksOk(batch.masks) && s.firstTag <= tag < s.LastTag()
    ensures s'.Ok() && s.firstTag <= s'.firstTag && s'.LastTag() == s.LastTag()
    ensures Entries(s) == taken + Entries(s')
    ensures forall k :: 0 <= k < |taken| ==> taken[k].tag <= tag
    ensures forall k :: 0 <= k < |Entries(s')| ==> tag < Entries(s')[k].tag
    ensures MasksOk(r.masks) && count == |taken|
    ensures multiset(WorkSeqs(r)) == multiset(WorkSeqs(batch)) + multiset(Messages(taken))
    ensures Shared(batch, r, s, s')
  {
    match s
    case RangeSegment(first, start, len, red) =>
      hide MaskSeqs, WorkSeqs, Shared, RangesSeqs, MasksSeqs;
      var consumed := tag - first + 1;
      s' := RangeSegment(first + consumed, start + consumed, len - consumed, red);
      taken := Entries(RangeSegment(first, start, consumed, red));
      WorkPlusRange(batch, Range(start, consumed));
      assert Messages(taken) == Span(start, consumed);
      r, count := batch.(ranges := batch.ranges + [Range(start, consumed)]), consumed;
      SharedPart(batch, r, s, s', taken);
    case MaskSegment(first, block, word, original, remaining, red) =>
      hide MaskSeqs, WorkSeqs, Shared, RangesSeqs, MasksSeqs, BitList, PopCount, MaskEntries, RankedBits, Bit;
      var upTo := tag - first;
      var bits, rest := ExtractBitsUpToRank(original, remaining, upTo);
      var m := WordMask(block, word, bits);
      s' := s.(remainingRankMask := rest);
      ghost var base, order := WordBase(block, word), BitList(original);
      taken := MaskEntries(first, base, order, remaining, upTo + 1);
      RankSplit(first, base, order, remaining, rest, upTo + 1, PopCount(original));
      MaskEntriesTags(first, base, order, remaining, upTo + 1);
      MaskEntriesTags(first, base, order, rest, PopCount(original));
      RankedMaskSeqs(first, m, order, remaining, upTo + 1);
      LateRanks(Entries(s'), first, rest, upTo, PopCount(original));
      count := PopCount(bits);
      if bits != 0 {
        WorkPlusMask(batch, m);
        r := batch.(masks := batch.masks + [m]);
      } else {
        r := batch;
      }
      SharedPart(batch, r, s, s', taken);
  }

  lemma LateRanks(e: seq<Entry>, first: nat, rest: nat, upTo: nat, n: nat)
    requires forall tag: nat :: HasTag(e, tag) <==> first <= tag < first + n && Bit(rest, tag - first)
    requires forall r: nat :: Bit(rest, r) ==> r > upTo
    ensures forall k :: 0 <= k < |e| ==> first + upTo < e[k].tag
  {
    forall k | 0 <= k < |e| ensures first + upTo < e[k].tag { assert HasTag(e, e[k].tag); }
  }

  datatype OneEntry = RangeEntry(msg: nat) | MaskEntry(block: nat, word: nat, bit: u64)

  function OneBatch(e: OneEntry): (w: Work) {
    match e
    case RangeEntry(msg) => Work([Range(msg, 1)], [])
    case MaskEntry(block, word, bit) => Work([], [WordMask(block, word, bit)])
  }

  /** `compute_one_action`: the batch entry for `tag` and the edit its segment needs. */
  method ComputeOneAction(s: Segment, tag: nat) returns (e: OneEntry, action: SegAction)
    requires s.Ok() && s.ContainsTag(tag)
    ensures ChosenFor(s, tag, action)
    ensures MasksOk(OneBatch(e).masks)
    ensures forall k :: At(Entries(s), k, tag) ==> WorkSeqs(OneBatch(e)) == [Entries(s)[k].msg]
    ensures e.RangeEntry? <==> s.RangeSegment?
  {
    hide Entries, BitList, WorkSeqs, PopCount;
    match s
    case RangeSegment(first, start, len, red) =>
      var offset := tag - first;
      var msg := start + offset;
      e := RangeEntry(msg);
      action := if len == 1 then RemoveSegment else if offset == 0 then RangeTrimFront
        else if offset == len - 1 then RangeTrimBack
                else RangeSplitAt(offset, RangeSegment(tag + 1, msg + 1, len - offset - 1, red));
      RangeEntryAt(s, tag);
    case MaskSegment(first, block, word, original, remaining, _) =>
      var rank := tag - first;
      var bit := BitForRank(original, rank);
      e := MaskEntry(block, word, bit);
      action := if PopCount(remaining) == 1 then MaskRemove else MaskClearRank(rank);
      MaskEntryAt(s, tag, bit);
  }

  lemma RangeEntryAt(s: Segment, tag: nat)
    requires s.RangeSegment? && s.Ok() && s.ContainsTag(tag)
    ensures var w := Work([Range(s.startSeq + (tag - s.firstTag), 1)], []);
      forall k :: At(Entries(s), k, tag) ==> WorkSeqs(w) == [Entries(s)[k].msg]
  {
    hide WorkSeqs;
    EntriesTags(s);
    OneRangeWork(s.startSeq + (tag - s.firstTag));
    UniqueEntry(Entries(s), tag - s.firstTag, tag);
  }

  lemma MaskEntryAt(s: Segment, tag: nat, bit: u64)
    requires s.MaskSegment? && s.Ok() && s.ContainsTag(tag)
    requires BitList(bit) == [BitList(s.originalMask)[tag - s.firstTag]]
    ensures var w := Work([], [WordMask(s.block, s.word, bit)]);
      MasksOk(w.masks) && forall k :: At(Entries(s), k, tag) ==> WorkSeqs(w) == [Entries(s)[k].msg]
  {
    hide WorkSeqs, BitList, PopCount, MaskEntries, AndNot, OneAt;
    var rank, order := tag - s.firstTag, BitList(s.originalMask);
    EntriesTags(s);
    BitListBounds(s.originalMask);
    var k := RankAt(s.firstTag, WordBase(s.block, s.word), order, s.remainingRankMask,
      AndNot(s.remainingRankMask, OneAt(rank)), PopCount(s.originalMask), rank);
    OneMaskWork(WordMask(s.block, s.word, bit), order[rank]);
    UniqueEntry(Entries(s), k, tag);
  }

  /** The entry is of its segment's kind. */
  lemma OneBatchKind(s: Segment, e: OneEntry, j: nat)
    requires j < |Entries(s)| && MasksOk(OneBatch(e).masks) && WorkSeqs(OneBatch(e)) == [Entries(s)[j].msg]
    requires e.RangeEntry? <==> s.RangeSegment?
    ensures forall first, i :: i in Batched(OneBatch(e), first) ==> i in Part(s, first)
  {
    hide Entries;
    var w := OneBatch(e);
    assert Messages(Entries(s))[j] == Entries(s)[j].msg;
    assert WorkSeqs(w) == Batched(w, true) + Batched(w, false);
    assert Batched(w, !s.RangeSegment?) == [];
    assert Batched(w, s.RangeSegment?) == [Entries(s)[j].msg];
  }

  lemma OneRangeWork(msg: nat)
    ensures WorkSeqs(Work([Range(msg, 1)], [])) == [msg]
  {
    assert RangesSeqs([Range(msg, 1)][..0]) == [];
    assert Span(msg, 1) == [msg];
  }

  lemma OneMaskWork(m: WordMask, bit: nat)
    requires m.word < WORDS_PER_BLOCK && BitList(m.mask) == [bit]
    ensures m.mask != 0 && MasksOk([m]) && WorkSeqs(Work([], [m])) == [WordBase(m.block, m.word) + bit]
  {
    assert MasksSeqs([m][..0]) == [];
    assert MaskSeqs(m) == [WordBase(m.block, m.word) + bit];
  }

  lemma UniqueEntry(e: seq<Entry>, k: nat, tag: nat)
    requires TagsAscend(e) && At(e, k, tag)
    ensures forall j :: At(e, j, tag) ==> j == k as int
  {
  }

  ghost predicate AllBelow(segments: seq<Segment>, next: nat) {
    forall k :: 0 <= k < |segments| ==> segments[k].LastTag() < next
  }

  class SegmentDeliveryWindow {
    var segments: seq<Segment>
    var unacked: nat

    ghost predicate Valid()
      reads this
    {
      SegmentsOk(segments) && unacked == |Outstanding(segments)|
    }

    /** The ordered list of outstanding deliveries this window stands for. */
    ghost function List(): (r: seq<Entry>)
      reads this
    {
      Outstanding(segments)
    }

    /** All tags the window ever held are below `next`. */
    ghost predicate Below(next: nat)
      reads this
    {
      AllBelow(segments, next)
    }

    constructor ()
      ensures Valid() && segments == [] && List() == [] && Below(1)
    {
      segments, unacked := [], 0;
    }

    method PushSegment(s: Segment, count: nat)
      requires Valid() && Below(s.firstTag) && s.Ok() && count == |Entries(s)|
      modifies this
      ensures Valid() && List() == old(List()) + Entries(s) && Below(s.LastTag() + 1)
      ensures forall first :: OfKind(segments, first) == old(OfKind(segments, first)) + Part(s, first)
    {
      forall first ensures OfKind(segments + [s], first) == OfKind(segments, first) + Part(s, first) {
        OfKindConcat(segments, [s], first);
        OfKindOne(s, first);
      }
      OutstandingConcat(segments, [s]);
      OutstandingOfOne(s);
      EntriesTags(s);
      segments := segments + [s];
      unacked := unacked + count;
    }

    method PushRange(firstTag: nat, range: Range, redelivered: bool)
      requires Valid() && Below(firstTag) && range.len > 0
      modifies this
      ensures Valid() && Below(firstTag + range.len)
      ensures List() == old(List()) + Tagged(firstTag, Span(range.start, range.len))
      ensures OfKind(segments, true) == old(OfKind(segments, true)) + Span(range.start, range.len)
      ensures OfKind(segments, false) == old(OfKind(segments, false))
    {
      var s := RangeSegment(firstTag, range.start, range.len, redelivered);
      assert Entries(s) == Tagged(firstTag, Span(range.start, range.len));
      assert Messages(Entries(s)) == Span(range.start, range.len);
      PushSegment(s, range.len);
    }

    /** A mask delivery starts with every rank unsettled. */
    method PushMask(firstTag: nat, m: WordMask, count: nat, redelivered: bool)
      requires Valid() && Below(firstTag) && m.word < WORDS_PER_BLOCK && m.mask != 0 && count == PopCount(m.mask)
      modifies this
      ensures Valid() && Below(firstTag + count)
      ensures List() == old(List()) + Tagged(firstTag, MaskSeqs(m))
      ensures OfKind(segments, false) == old(OfKind(segments, false)) + MaskSeqs(m)
      ensures OfKind(segments, true) == old(OfKind(segments, true))
    {
      BitListBounds(m.mask);
      var s := MaskSegment(firstTag, m.block, m.word, m.mask, LowMask(count), redelivered);
      AllRanks(firstTag, m);
      assert Messages(Entries(s)) == MaskSeqs(m);
      PushSegment(s, count);
    }

    method FindSegmentIdx(tag: nat) returns (idx: Option<nat>)
      requires Valid()
      ensures idx.Some? ==> idx.value < |segments| && segments[idx.value].ContainsTag(tag)
      ensures idx.Some? <==> HasTag(List(), tag)
    {
      OutstandingTags(segments);
      for k := 0 to |segments|
        invariant forall j :: 0 <= j < k ==> !segments[j].ContainsTag(tag)
      {
        if segments[k].ContainsTag(tag) { return Some(k); }
      }
      idx := None;
    }

    /** `ack_one` and `nack_one`: exactly the delivery of `tag` leaves the window, as the batch;
        without such a delivery the window is unchanged. */
    method SettleOne(tag: nat) returns (r: Option<Work>)
      requires Valid()
      modifies this
      ensures Valid() && forall next: nat :: old(Below(next)) ==> Below(next)
      ensures r.Some? <==> old(HasTag(List(), tag))
      ensures r.None? ==> segments == old(segments) && unacked == old(unacked)
      ensures r.Some? ==> MasksOk(r.value.masks)
      ensures r.Some? ==>
        var k := TagIndex(old(List()), tag);
          List() == RemoveAt(old(List()), k) && WorkSeqs(r.value) == [old(List())[k].msg]
      ensures r.Some? ==> Drawn(old(segments), r.value, segments)
    {
      hide Outstanding, Entries, WorkSeqs, Applied, TagIndex, TagsAscend, RemoveAt, Drawn, Batched, Part;
      var found := FindSegmentIdx(tag);
      if found.None? { return None; }
      var idx := found.value;
      var s := segments[idx];
      var e, action := ComputeOneAction(s, tag);
      ghost var j := OneActionEffect(s, tag, action);
      ReplacedOk(segments, idx, Applied(s, action));
      OutstandingReplaced(segments, idx, Applied(s, action), j, tag);
      AppliedKind(s, tag, action);
      OneBatchKind(s, e, j);
      DrawnReplaced(segments, idx, Applied(s, action), j, OneBatch(e));
      ApplySegAction(idx, action);
      unacked := unacked - 1;
      r := Some(OneBatch(e));
    }

    /** `ack_multiple` and `nack_multiple`: exactly the deliveries up to `tag` leave the window,
        and the batch stands for their messages, once each. */
    method SettleMultiple(tag: nat) returns (r: Option<Work>)
      requires Valid()
      modifies this
      ensures Valid() && forall next: nat :: old(Below(next)) ==> Below(next)
      ensures r.Some? <==> old(HasTag(List(), tag))
      ensures r.None? ==> segments == old(segments) && unacked == old(unacked)
      ensures r.Some? ==> MasksOk(r.value.masks)
      ensures r.Some? ==> var k := TagIndex(old(List()), tag);
        List() == old(List())[k + 1..] && multiset(WorkSeqs(r.value)) == multiset(Messages(old(List())[..k + 1]))
      ensures r.Some? ==> Balanced(old(segments), r.value, segments)
    {
      hide Outstanding, Entries, WorkSeqs, MasksOk, Messages, TagIndex, TagsAscend, HasTag, SegmentsOk, AllBelow;
      hide Balanced, Joined, Shared, OfKind;
      var found := FindSegmentIdx(tag);
      if found.None? { return None; }
      ghost var all, taken := List(), [];
      OutstandingTags(segments);
      var batch, settled := Work([], []), 0;
      NoWork();
      BalancedStart(segments);
      while true
        invariant SegmentsOk(segments) && all == taken + Outstanding(segments) && settled == |taken|
        invariant unacked == old(unacked)
        invariant MasksOk(batch.masks) && multiset(WorkSeqs(batch)) == multiset(Messages(taken))
        invariant Balanced(old(segments), batch, segments)
        invariant forall k :: 0 <= k < |taken| ==> taken[k].tag < tag
        invariant forall next: nat :: old(Below(next)) ==> Below(next)
        decreases |segments|
      {
        FrontSegment(segments, all, taken, tag);
        var s := segments[0];
        if s.LastTag() <= tag {
          var n;
          TookFront(segments, all, taken, tag);
          MessagesConcat(taken, Entries(s));
          ghost var b := batch;
          batch, n := FullSegment(s, batch);
          BalancedFull(old(segments), b, batch, segments);
          taken, settled := taken + Entries(s), settled + n;
          segments := segments[1..];
          if s.LastTag() == tag { break; }
        } else {
          var s', n; ghost var part;
          ghost var b := batch;
          s', batch, n, part := PartialSegment(s, tag, batch);
          BalancedPart(old(segments), b, batch, segments, s');
          TookPart(segments, all, taken, tag, s', part);
          MessagesConcat(taken, part);
          segments := segments[0 := s'];
          taken, settled := taken + part, settled + n;
          break;
        }
      }
      unacked := unacked - settled;
      r := Some(batch);
    }

    /** `drain_all`: everything leaves the window. */
    method DrainAll() returns (batch: Work)
      requires Valid()
      modifies this
      ensures Valid() && segments == [] && List() == [] && forall next: nat :: old(Below(next)) ==> Below(next)
      ensures MasksOk(batch.masks) && multiset(WorkSeqs(batch)) == multiset(Messages(old(List())))
      ensures Balanced(old(segments), batch, [])
    {
      hide Outstanding, Entries, WorkSeqs, MasksOk, Messages, Balanced, Joined, OfKind;
      BalancedStart(segments);
      ghost var all, taken := List(), [];
      batch := Work([], []);
      NoWork();
      while segments != []
        invariant SegmentsOk(segments) && all == taken + Outstanding(segments)
        invariant MasksOk(batch.masks) && multiset(WorkSeqs(batch)) == multiset(Messages(taken))
        invariant Balanced(old(segments), batch, segments)
        invariant forall next: nat :: old(Below(next)) ==> Below(next)
        decreases |segments|
      {
        OutstandingUnfold(segments);
        SegmentsTail(segments);
        var n;
        MessagesConcat(taken, Entries(segments[0]));
        ghost var b := batch;
        batch, n := FullSegment(segments[0], batch);
        BalancedFull(old(segments), b, batch, segments);
        taken := taken + Entries(segments[0]);
        segments := segments[1..];
      }
      OutstandingEmpty();
      assert all == taken;
      unacked := 0;
    }

    method ApplySegAction(idx: nat, action: SegAction)
      requires idx < |segments|
      requires action.RangeTrimFront? || action.RangeTrimBack? ==> segments[idx].RangeSegment? && segments[idx].len > 0
      requires action.RangeSplitAt? ==> segments[idx].RangeSegment?
      requires action.MaskClearRank? ==> segments[idx].MaskSegment? && action.rank < 64
      modifies this`segments
      ensures segments == old(segments[..idx] + Applied(segments[idx], action) + segments[idx + 1..])
    {
      var s := segments[idx];
      match action
      case RemoveSegment => segments := segments[..idx] + segments[idx + 1..];
      case MaskRemove => segments := segments[..idx] + segments[idx + 1..];
      case RangeTrimFront =>
        segments := segments[idx := s.(firstTag := s.firstTag + 1, startSeq := s.startSeq + 1, len := s.len - 1)];
      case RangeTrimBack => segments := segments[idx := s.(len := s.len - 1)];
      case RangeSplitAt(leftLen, right) =>
        segments := segments[idx := s.(len := leftLen)];
        segments := segments[..idx + 1] + [right] + segments[idx + 1..];
      case MaskClearRank(rank) =>
        segments := segments[idx := s.(remainingRankMask := AndNot(s.remainingRankMask, OneAt(rank)))];
    }
  }

  lemma AllRanks(first: nat, m: WordMask)
    requires m.word < WORDS_PER_BLOCK && PopCount(m.mask) <= 64
    ensures MaskEntries(first, WordBase(m.block, m.word), BitList(m.mask), LowMask(PopCount(m.mask)),
      PopCount(m.mask)) == Tagged(first, MaskSeqs(m))
  {
    FullRanks(first, WordBase(m.block, m.word), BitList(m.mask), LowMask(PopCount(m.mask)), PopCount(m.mask));
  }

  lemma {:induction false} FullRanks(first: nat, base: nat, order: seq<nat>, ranks: nat, n: nat)
    requires n <= |order| && forall r: nat :: r < n ==> Bit(ranks, r)
    ensures var e := MaskEntries(first, base, order, ranks, n);
      |e| == n && forall k :: 0 <= k < n ==> e[k] == Entry(first + k, base + order[k])
  {
    if n == 0 {
    } else {
      FullRanks(first, base, order, ranks, n - 1);
    }
  }

  lemma ReplacedOk(segments: seq<Segment>, idx: nat, replaced: seq<Segment>)
    requires SegmentsOk(segments) && idx < |segments| && SegmentsOk(replaced)
    requires forall j :: 0 <= j < |replaced| ==>
      segments[idx].firstTag <= replaced[j].firstTag && replaced[j].LastTag() <= segments[idx].LastTag()
    ensures SegmentsOk(segments[..idx] + replaced + segments[idx + 1..])
    ensures forall next: nat :: AllBelow(segments, next) ==>
      AllBelow(segments[..idx] + replaced + segments[idx + 1..], next)
  {
    forall next: nat | AllBelow(segments, next)
      ensures AllBelow(segments[..idx] + replaced + segments[idx + 1..], next)
    {
      assert segments[idx].LastTag() < next;
    }
  }

  /** Removing entry `j` of segment `idx` removes the entry of `tag` from the window's list. */
  lemma OutstandingReplaced(segments: seq<Segment>, idx: nat, replaced: seq<Segment>, j: nat, tag: nat)
    requires SegmentsOk(segments) && idx < |segments| && At(Entries(segments[idx]), j, tag)
    requires Outstanding(replaced) == RemoveAt(Entries(segments[idx]), j)
    ensures HasTag(Outstanding(segments), tag)
    ensures var list := Outstanding(segments); var k := TagIndex(list, tag);
      && Outstanding(segments[..idx] + replaced + segments[idx + 1..]) == RemoveAt(list, k)
      && list[k].msg == Entries(segments[idx])[j].msg
  {
    hide Outstanding, Entries, SegmentsOk;
    OutstandingTags(segments);
    OutstandingAround(segments, idx, replaced);
    var a, e, b := Outstanding(segments[..idx]), Entries(segments[idx]), Outstanding(segments[idx + 1..]);
    var list := a + e + b;
    TagIndexIs(list, |a| + j);
    assert a + RemoveAt(e, j) + b == RemoveAt(list, |a| + j);
  }

  lemma NoWork()
    ensures MasksOk([]) && WorkSeqs(Work([], [])) == [] && Messages([]) == []
  {
  }

  lemma OutstandingEmpty()
    ensures Outstanding([]) == []
  {
  }

  lemma SegmentsTail(segments: seq<Segment>)
    requires SegmentsOk(segments) && segments != []
    ensures SegmentsOk(segments[1..]) && segments[0].Ok()
    ensures forall next: nat :: AllBelow(segments, next) ==> AllBelow(segments[1..], next)
  {
  }

  lemma OutstandingUnfold(segments: seq<Segment>)
    requires segments != []
    ensures Outstanding(segments) == Entries(segments[0]) + Outstanding(segments[1..])
  {
  }

  /** While `tag` is still ahead there is a first segment, and it does not lie beyond `tag`. */
  lemma FrontSegment(segments: seq<Segment>, all: seq<Entry>, taken: seq<Entry>, tag: nat)
    requires SegmentsOk(segments) && all == taken + Outstanding(segments) && HasTag(all, tag)
    requires forall k :: 0 <= k < |taken| ==> taken[k].tag < tag
    ensures segments != [] && segments[0].firstTag <= tag && segments[0].Ok()
  {
    hide Outstanding, Bit;
    OutstandingTags(segments);
    AheadOfTaken(all, taken, Outstanding(segments), tag);
    var k :| 0 <= k < |segments| && segments[k].ContainsTag(tag);
    if k > 0 { EntriesTags(segments[0]); assert segments[0].LastTag() < segments[k].firstTag; }
  }

  lemma AheadOfTaken(all: seq<Entry>, taken: seq<Entry>, rest: seq<Entry>, tag: nat)
    requires all == taken + rest && HasTag(all, tag) && forall k :: 0 <= k < |taken| ==> taken[k].tag < tag
    ensures HasTag(rest, tag)
  {
    var i :| 0 <= i < |all| && all[i].tag == tag;
    assert rest[i - |taken|].tag == tag;
  }

  /** Taking the whole first segment. */
  lemma TookFront(segments: seq<Segment>, all: seq<Entry>, taken: seq<Entry>, tag: nat)
    requires SegmentsOk(segments) && all == taken + Outstanding(segments) && TagsAscend(all) && HasTag(all, tag)
    requires forall k :: 0 <= k < |taken| ==> taken[k].tag < tag
    requires segments != [] && segments[0].LastTag() <= tag
    ensures var taken', rest := taken + Entries(segments[0]), Outstanding(segments[1..]);
      && all == taken' + rest && SegmentsOk(segments[1..])
      && (segments[0].LastTag() < tag ==> forall k :: 0 <= k < |taken'| ==> taken'[k].tag < tag)
      && (segments[0].LastTag() == tag ==>
        taken' == all[..TagIndex(all, tag) + 1] && rest == all[TagIndex(all, tag) + 1..])
    ensures forall next: nat :: AllBelow(segments, next) ==> AllBelow(segments[1..], next)
  {
    hide Entries, TagIndex, Outstanding, SegmentsOk, HasTag, TagsAscend;
    SegmentsTail(segments);
    OutstandingUnfold(segments);
    EntriesTags(segments[0]);
    var taken', rest := taken + Entries(segments[0]), Outstanding(segments[1..]);
    assert all == taken' + rest;
    if segments[0].LastTag() == tag {
      forall k | 0 <= k < |rest| ensures tag < rest[k].tag { RestBeyond(segments, k); }
      PrefixTaken(all, taken', rest, tag);
    }
  }

  /** Taking part of the first segment. */
  lemma TookPart(segments: seq<Segment>, all: seq<Entry>, taken: seq<Entry>, tag: nat, s': Segment, part: seq<Entry>)
    requires SegmentsOk(segments) && all == taken + Outstanding(segments) && TagsAscend(all) && HasTag(all, tag)
    requires forall k :: 0 <= k < |taken| ==> taken[k].tag < tag
    requires segments != [] && s'.Ok() && tag < segments[0].LastTag()
    requires segments[0].firstTag <= s'.firstTag && s'.LastTag() == segments[0].LastTag()
    requires Entries(segments[0]) == part + Entries(s')
    requires forall k :: 0 <= k < |part| ==> part[k].tag <= tag
    requires forall k :: 0 <= k < |Entries(s')| ==> tag < Entries(s')[k].tag
    ensures var taken', rest := taken + part, Outstanding(segments[0 := s']); var i := TagIndex(all, tag) + 1;
      SegmentsOk(segments[0 := s']) && all == taken' + rest && taken' == all[..i] && rest == all[i..]
    ensures forall next: nat :: AllBelow(segments, next) ==> AllBelow(segments[0 := s'], next)
  {
    hide Entries, TagIndex;
    PartialOutstanding(segments, s');
    OutstandingUnfold(segments);
    var rest := Outstanding(segments[0 := s']);
    assert all == (taken + part) + rest;
    forall k | 0 <= k < |rest| ensures tag < rest[k].tag {
      if k >= |Entries(s')| { RestBeyond(segments, k - |Entries(s')|); }
    }
    PrefixTaken(all, taken + part, rest, tag);
  }

  lemma RestBeyond(segments: seq<Segment>, k: nat)
    requires SegmentsOk(segments) && segments != [] && k < |Outstanding(segments[1..])|
    ensures segments[0].LastTag() < Outstanding(segments[1..])[k].tag
  {
    OutstandingTags(segments[1..]);
    assert segments[1..] != [];
    assert segments[0].LastTag() < segments[1].firstTag;
  }

  /** What has been taken is exactly the prefix up to and including `tag`. */
  lemma PrefixTaken(all: seq<Entry>, taken: seq<Entry>, rest: seq<Entry>, tag: nat)
    requires TagsAscend(all) && HasTag(all, tag) && all == taken + rest
    requires forall k :: 0 <= k < |taken| ==> taken[k].tag <= tag
    requires forall k :: 0 <= k < |rest| ==> tag < rest[k].tag
    ensures var k := TagIndex(all, tag); taken == all[..k + 1] && rest == all[k + 1..]
  {
    hide TagIndex;
    var k := TagIndex(all, tag);
    forall i | |taken| <= i < |all| ensures tag < all[i].tag { assert all[i] == rest[i - |taken|]; }
    if taken != [] { assert all[|taken| - 1] == taken[|taken| - 1]; }
    assert |taken| == k + 1;
  }

  lemma PartialOutstanding(segments: seq<Segment>, s': Segment)
    requires SegmentsOk(segments) && segments != [] && s'.Ok()
    requires segments[0].firstTag <= s'.firstTag && s'.LastTag() == segments[0].LastTag()
    ensures SegmentsOk(segments[0 := s'])
    ensures Outstanding(segments[0 := s']) == Entries(s') + Outstanding(segments[1..])
    ensures forall next: nat :: AllBelow(segments, next) ==> AllBelow(segments[0 := s'], next)
  {
    assert segments[0 := s'][1..] == segments[1..];
  }
}
