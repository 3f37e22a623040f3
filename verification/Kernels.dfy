/** The word loops of the queue engine and of the delivery window: selecting the lowest bits,
    filling and clearing bit ranges that cross words, and mapping delivery ranks to bits. */
module Kernels {
  import opened Words

  function Min(a: int, b: int): (m: int)
    ensures m <= a && m <= b && (m == a || m == b)
  {
    if a <= b then a else b
  }

  /** A 64-bit word has at most 64 set bits, all below 64. */
  lemma BitListBounds(w: u64)
    ensures PopCount(w) <= 64
    ensures forall k :: 0 <= k < |BitList(w)| ==> k <= BitList(w)[k] < 64
  {
    WordBits(w);
    var s := BitList(w);
    forall k | 0 <= k < |s| ensures s[k] < 64 { assert s[k] in s; }
    AscendingAtLeastIndex(s);
    if s != [] { assert s[|s| - 1] < 64; }
  }

  lemma {:induction false} AscendingAtLeastIndex(s: seq<nat>)
    requires Ascending(s)
    ensures forall k :: 0 <= k < |s| ==> k <= s[k]
  {
    if s == [] {
    } else {
      var n := |s| - 1;
      AscendingAtLeastIndex(s[..n]);
      forall k | 0 <= k < |s| ensures k <= s[k] {
        if k < n { assert s[..n][k] == s[k]; } else if n > 0 { assert s[..n][n - 1] == s[n - 1]; }
      }
    }
  }

  /** The two parts of an ascending list are ascending and share no member. */
  lemma AscendingSplit(a: seq<nat>, b: seq<nat>)
    requires Ascending(a + b)
    ensures Ascending(a) && Ascending(b)
    ensures forall x, y :: x in a && y in b ==> x < y
  {
    var s := a + b;
    forall j, k | 0 <= j < k < |a| ensures a[j] < a[k] { assert s[j] < s[k]; }
    forall j, k | 0 <= j < k < |b| ensures b[j] < b[k] { assert s[|a| + j] < s[|a| + k]; }
    forall x, y | x in a && y in b ensures x < y {
      var j :| 0 <= j < |a| && a[j] == x;
      var k :| 0 <= k < |b| && b[k] == y;
      assert s[j] < s[|a| + k];
    }
  }

  /** Adding a bit above all others appends it to the list of set bits. */
  lemma AppendBit(mask: u64, bit: nat)
    requires bit < 64
    requires forall i: nat :: Bit(mask, i) ==> i < bit
    ensures BitList(Or(mask, OneAt(bit))) == BitList(mask) + [bit]
  {
    var s := BitList(mask) + [bit];
    forall j, k | 0 <= j < k < |s| ensures s[j] < s[k] {
      if k == |s| - 1 { assert BitList(mask)[j] in BitList(mask); }
    }
    AscendingUnique(BitList(Or(mask, OneAt(bit))), s);
  }

  lemma EmptyBitList()
    ensures BitList(0) == []
  {
  }

  /** `take_lowest_bits_local` of the hybrid queue: the lowest `max` bits of `word`. */
  method TakeLowestBitsLocal(word: u64, max: nat) returns (mask: u64)
    ensures BitList(mask) == BitList(word)[..Min(max, |BitList(word)|)]
  {
    if word == 0 || max == 0 { return 0; }
    if PopCount(word) <= max { return word; }
    mask := LowestLoop(word, max);
  }

  /** The selection loop shared by both variants: strip the lowest bit `take` times. */
  method LowestLoop(word: u64, take: nat) returns (mask: u64)
    requires take <= PopCount(word)
    ensures BitList(mask) == BitList(word)[..take]
  {
    hide BitList, Bit, PopCount, TrailingZeros, DropLowest, Or, AndNot, OneAt;
    BitListBounds(word);
    EmptyBitList();
    var remaining: nat, src: u64 := take, word;
    mask := 0;
    while remaining != 0
      invariant remaining <= |BitList(src)|
      invariant |BitList(mask)| == take - remaining
      invariant BitList(word) == BitList(mask) + BitList(src)
    {
      var bit := TrailingZeros(src);
      assert BitList(src) == [bit] + BitList(DropLowest(src));
      AscendingSplit(BitList(mask), BitList(src));
      FirstIsMember(BitList(src));
      BitListBounds(src);
      AppendBit(mask, bit);
      mask := Or(mask, OneAt(bit));
      src := DropLowest(src);
      remaining := remaining - 1;
    }
  }

  /** `take_lowest_bits` of the kernels: as above, also removing the selection from the word. */
  method TakeLowestBits(word: u64, max: nat) returns (mask: u64, rest: u64)
    ensures BitList(mask) == BitList(word)[..Min(max, |BitList(word)|)]
    ensures BitList(rest) == BitList(word)[Min(max, |BitList(word)|)..]
  {
    if word == 0 || max == 0 { EmptyBitList(); return 0, word; }
    var available := PopCount(word);
    var take := Min(available, max);
    if take == available { return word, 0; }
    mask := LowestLoop(word, take);
    rest := AndNot(word, mask);
    var tail := BitList(word)[take..];
    assert BitList(word) == BitList(mask) + tail;
    AscendingSplit(BitList(mask), tail);
    AscendingUnique(BitList(rest), tail);
  }

  // ---- Bit ranges over several words

  /** Bit `p` of a row of words. */
  predicate HasBit(words: seq<u64>, p: nat) {
    p / 64 < |words| && Bit(words[p / 64], p % 64)
  }

  /** The loop of `set_range` and `clear_range`: one run of bits per word. */
  method SetRange(words: seq<u64>, start: nat, len: nat) returns (r: seq<u64>)
    requires start + len <= 64 * |words|
    ensures |r| == |words|
    ensures forall p: nat :: HasBit(r, p) <==> HasBit(words, p) || start <= p < start + len
  {
    r := words;
    if len == 0 { return; }
    var idx, end := start, start + len;
    while idx < end
      invariant start <= idx <= end
      invariant |r| == |words|
      invariant forall p: nat :: HasBit(r, p) <==> HasBit(words, p) || start <= p < idx
    {
      var wordIdx, bit := idx / 64, idx % 64;
      var take := Min(64 - bit, end - idx);
      r := r[wordIdx := Or(r[wordIdx], RunMask(bit, take))];
      idx := idx + take;
    }
  }

  method ClearRange(words: seq<u64>, start: nat, len: nat) returns (r: seq<u64>)
    requires start + len <= 64 * |words|
    ensures |r| == |words|
    ensures forall p: nat :: HasBit(r, p) <==> HasBit(words, p) && !(start <= p < start + len)
  {
    r := words;
    if len == 0 { return; }
    var idx, end := start, start + len;
    while idx < end
      invariant start <= idx <= end
      invariant |r| == |words|
      invariant forall p: nat :: HasBit(r, p) <==> HasBit(words, p) && !(start <= p < idx)
    {
      var wordIdx, bit := idx / 64, idx % 64;
      var take := Min(64 - bit, end - idx);
      r := r[wordIdx := AndNot(r[wordIdx], RunMask(bit, take))];
      idx := idx + take;
    }
  }

  // ---- Delivery ranks

  /** The bits of `order` whose rank is below `k` and still set in `ranks`, in rank order. */
  function RankedBits(order: seq<nat>, ranks: nat, k: nat): (s: seq<nat>)
    requires k <= |order|
    ensures forall x :: x in s <==> exists r :: 0 <= r < k && Bit(ranks, r) && order[r] == x
  {
    if k == 0 then [] else
      RankedBits(order, ranks, k - 1) + (if Bit(ranks, k - 1) then [order[k - 1]] else [])
  }

  /** `bit_for_rank` */
  method BitForRank(original: u64, rank: nat) returns (bit: u64)
    requires rank < PopCount(original)
    ensures BitList(bit) == [BitList(original)[rank]]
  {
    hide BitList, Bit, PopCount, TrailingZeros, DropLowest, Or, AndNot, OneAt;
    BitListBounds(original);
    EmptyBitList();
    var om: u64, r := original, 0;
    while r != rank
      invariant r <= rank
      invariant BitList(om) == BitList(original)[r..]
      decreases rank - r
    {
      om := DropLowest(om);
      r := r + 1;
    }
    var pos := TrailingZeros(om);
    assert BitList(om) == [pos] + BitList(DropLowest(om));
    bit := OneAt(pos);
    AscendingUnique(BitList(bit), [pos]);
  }

  /** `extract_bits_up_to_rank`: take and clear the unsettled ranks in 0..=upToRank. */
  method ExtractBitsUpToRank(original: u64, remaining: u64, upToRank: nat) returns (bits: u64, rest: u64)
    ensures BitList(bits) == RankedBits(BitList(original), remaining, Min(upToRank + 1, |BitList(original)|))
    ensures forall r: nat :: Bit(rest, r) <==> Bit(remaining, r) && !(r <= upToRank && r < PopCount(original))
  {
    hide BitList, Bit, PopCount, TrailingZeros, DropLowest, Or, AndNot, OneAt;
    BitListBounds(original);
    ghost var order := BitList(original);
    EmptyBitList();
    var om: u64, rank := original, 0;
    bits, rest := 0, remaining;
    while om != 0 && rank <= upToRank
      invariant rank <= upToRank + 1 && rank <= |order|
      invariant BitList(om) == order[rank..]
      invariant BitList(bits) == RankedBits(order, remaining, rank)
      invariant forall r: nat :: Bit(rest, r) <==> Bit(remaining, r) && r >= rank
      decreases |order| - rank
    {
      var pos := TrailingZeros(om);
      assert BitList(om) == [pos] + BitList(DropLowest(om));
      assert pos == order[rank];
      if Bit(rest, rank) {
        RankedBelow(order, remaining, rank, bits);
        AppendBit(bits, pos);
        bits := Or(bits, OneAt(pos));
        rest := AndNot(rest, OneAt(rank));
      }
      om := DropLowest(om);
      rank := rank + 1;
    }
  }

  lemma RankedBelow(order: seq<nat>, ranks: nat, k: nat, bits: u64)
    requires Ascending(order) && k < |order|
    requires BitList(bits) == RankedBits(order, ranks, k)
    ensures forall i: nat :: Bit(bits, i) ==> i < order[k]
  {
    forall i: nat | Bit(bits, i) ensures i < order[k] { assert i in BitList(bits); }
  }

  /** `extract_all_remaining_bits` */
  method ExtractAllRemainingBits(original: u64, remaining: u64) returns (bits: u64)
    ensures BitList(bits) == RankedBits(BitList(original), remaining, |BitList(original)|)
  {
    hide BitList, Bit, PopCount, TrailingZeros, DropLowest, Or, AndNot, OneAt;
    BitListBounds(original);
    ghost var order := BitList(original);
    EmptyBitList();
    var om: u64, rank := original, 0;
    bits := 0;
    while om != 0
      invariant rank <= |order|
      invariant BitList(om) == order[rank..]
      invariant BitList(bits) == RankedBits(order, remaining, rank)
      decreases |order| - rank
    {
      var pos := TrailingZeros(om);
      assert BitList(om) == [pos] + BitList(DropLowest(om));
      assert pos == order[rank];
      if Bit(remaining, rank) {
        RankedBelow(order, remaining, rank, bits);
        AppendBit(bits, pos);
        bits := Or(bits, OneAt(pos));
      }
      om := DropLowest(om);
      rank := rank + 1;
    }
  }
}
