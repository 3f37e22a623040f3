/** Machine words as natural numbers, and the bit operations the broker performs on them.
    `Bit` is the meaning of a word; every operation is given by its effect on the bits. */
module Words {

  const WORD_LIMIT: nat := 0x1_0000_0000_0000_0000

  type u64 = w: nat | w < WORD_LIMIT

  /** Bit `i` of `w`, least significant first. */
  predicate Bit(w: nat, i: nat)
    decreases i
  {
    if i == 0 then w % 2 == 1 else Bit(w / 2, i - 1)
  }

  function Pow2(n: nat): (p: nat)
    ensures p >= 1
  {
    if n == 0 then 1 else 2 * Pow2(n - 1)
  }

  lemma NoBits()
    ensures forall i: nat :: !Bit(0, i)
  {
    forall i: nat ensures !Bit(0, i) { ZeroHasNoBit(i); }
  }

  lemma ZeroHasNoBit(i: nat)
    ensures !Bit(0, i)
    decreases i
  {
  }

  ghost predicate NoBitFrom(w: nat, k: nat) {
    forall i: nat :: i >= k ==> !Bit(w, i)
  }

  /** A word is below 2^k exactly when no bit at or above `k` is set. */
  lemma {:induction false} BoundIsNoHighBit(w: nat, k: nat)
    ensures w < Pow2(k) <==> NoBitFrom(w, k)
    decreases w, k
  {
    if w == 0 {
      NoBits();
    } else {
      var k' := if k == 0 then 0 else k - 1;
      BoundIsNoHighBit(w / 2, k');
      if w / 2 < Pow2(k') {
        if k == 0 { assert Bit(w, 0); } else {
          forall i: nat | i >= k ensures !Bit(w, i) { assert !Bit(w / 2, i - 1); }
        }
      } else {
        var i: nat :| i >= k' && Bit(w / 2, i);
        assert Bit(w, i + 1);
      }
    }
  }

  lemma WordLimitIsPow2()
    ensures Pow2(64) == WORD_LIMIT
  {
    assert Pow2(8) == 256;
    assert Pow2(16) == 0x1_0000;
    assert Pow2(24) == 0x100_0000;
    assert Pow2(32) == 0x1_0000_0000;
    assert Pow2(40) == 0x100_0000_0000;
    assert Pow2(48) == 0x1_0000_0000_0000;
    assert Pow2(56) == 0x100_0000_0000_0000;
  }

  /** No bit of a machine word lies outside 0..64, and a number with no such bit is a machine word. */
  lemma WordBits(w: nat)
    ensures w < WORD_LIMIT <==> NoBitFrom(w, 64)
  {
    WordLimitIsPow2();
    BoundIsNoHighBit(w, 64);
  }

  /** Words with the same bits are the same word. */
  lemma {:induction false} SameBitsSameWord(a: nat, b: nat)
    requires forall i: nat :: Bit(a, i) == Bit(b, i)
    ensures a == b
    decreases a + b
  {
    assert Bit(a, 0) == Bit(b, 0);
    if a == 0 && b == 0 {
    } else {
      forall i: nat ensures Bit(a / 2, i) == Bit(b / 2, i) {
        assert Bit(a, i + 1) == Bit(b, i + 1);
      }
      SameBitsSameWord(a / 2, b / 2);
    }
  }

  lemma EmptyWord(w: nat)
    requires forall i: nat :: !Bit(w, i)
    ensures w == 0
  {
    NoBits();
    SameBitsSameWord(w, 0);
  }

  // ---- Bitwise operators

  function OrNat(a: nat, b: nat): (r: nat)
    ensures forall i: nat :: Bit(r, i) <==> Bit(a, i) || Bit(b, i)
    decreases a + b
  {
    if a == 0 && b == 0 then 0 else
      var r := 2 * OrNat(a / 2, b / 2) + (if a % 2 == 1 || b % 2 == 1 then 1 else 0);
      assert forall i: nat :: Bit(r, i) <==> Bit(a, i) || Bit(b, i) by {
        forall i: nat ensures Bit(r, i) <==> Bit(a, i) || Bit(b, i) {
          if i > 0 { assert r / 2 == OrNat(a / 2, b / 2); }
        }
      }
      r
  }

  function AndNat(a: nat, b: nat): (r: nat)
    ensures forall i: nat :: Bit(r, i) <==> Bit(a, i) && Bit(b, i)
    decreases a + b
  {
    if a == 0 && b == 0 then 0 else
      var r := 2 * AndNat(a / 2, b / 2) + (if a % 2 == 1 && b % 2 == 1 then 1 else 0);
      assert forall i: nat :: Bit(r, i) <==> Bit(a, i) && Bit(b, i) by {
        forall i: nat ensures Bit(r, i) <==> Bit(a, i) && Bit(b, i) {
          if i > 0 { assert r / 2 == AndNat(a / 2, b / 2); }
        }
      }
      r
  }

  function AndNotNat(a: nat, b: nat): (r: nat)
    ensures forall i: nat :: Bit(r, i) <==> Bit(a, i) && !Bit(b, i)
    decreases a + b
  {
    if a == 0 && b == 0 then NoBits(); 0 else
      var r := 2 * AndNotNat(a / 2, b / 2) + (if a % 2 == 1 && b % 2 == 0 then 1 else 0);
      assert forall i: nat :: Bit(r, i) <==> Bit(a, i) && !Bit(b, i) by {
        forall i: nat ensures Bit(r, i) <==> Bit(a, i) && !Bit(b, i) {
          if i > 0 { assert r / 2 == AndNotNat(a / 2, b / 2); }
        }
      }
      r
  }

  /** `a | b` */
  function Or(a: u64, b: u64): (r: u64)
    ensures forall i: nat :: Bit(r, i) <==> Bit(a, i) || Bit(b, i)
  {
    WordBits(a); WordBits(b); WordBits(OrNat(a, b));
    OrNat(a, b)
  }

  /** `a & b` */
  function And(a: u64, b: u64): (r: u64)
    ensures forall i: nat :: Bit(r, i) <==> Bit(a, i) && Bit(b, i)
  {
    WordBits(a); WordBits(AndNat(a, b));
    AndNat(a, b)
  }

  /** `a & !b` */
  function AndNot(a: u64, b: u64): (r: u64)
    ensures forall i: nat :: Bit(r, i) <==> Bit(a, i) && !Bit(b, i)
  {
    WordBits(a); WordBits(AndNotNat(a, b));
    AndNotNat(a, b)
  }

  /** `w * 2^n` moves every bit up by `n`. */
  lemma {:induction false} ShiftBits(w: nat, n: nat, i: nat)
    ensures Bit(w * Pow2(n), i) <==> i >= n && Bit(w, i - n)
    decreases n
  {
    if n == 0 {
    } else {
      var h := w * Pow2(n - 1);
      assert w * Pow2(n) == 2 * h;
      if i > 0 {
        assert Bit(2 * h, i) == Bit(h, i - 1);
        ShiftBits(w, n - 1, i - 1);
      }
    }
  }

  /** `2^n - 1` has exactly the bits below `n`. */
  lemma {:induction false} OnesBits(n: nat, ones: nat)
    requires ones == Pow2(n) - 1
    ensures forall i: nat :: Bit(ones, i) <==> i < n
    decreases n
  {
    if n == 0 {
      NoBits();
    } else {
      assert ones / 2 == Pow2(n - 1) - 1;
      OnesBits(n - 1, ones / 2);
      forall i: nat ensures Bit(ones, i) <==> i < n {
        if i > 0 { assert Bit(ones, i) == Bit(ones / 2, i - 1); }
      }
    }
  }

  /** `1u64 << n` */
  function OneAt(n: nat): (r: u64)
    requires n < 64
    ensures forall i: nat :: Bit(r, i) <==> i == n
  {
    assert forall i: nat :: Bit(Pow2(n), i) <==> i == n by {
      forall i: nat ensures Bit(Pow2(n), i) <==> i == n {
        ShiftBits(1, n, i);
        assert 1 * Pow2(n) == Pow2(n);
        if i > n { assert Bit(1, i - n) == Bit(0, i - n - 1); ZeroHasNoBit(i - n - 1); }
      }
    }
    WordBits(Pow2(n));
    Pow2(n)
  }

  /** `low_mask(n)`: zero, all ones from 64 up, and `(1 << n) - 1` between. */
  function LowMask(n: nat): (r: u64)
    ensures forall i: nat :: Bit(r, i) <==> i < n && i < 64
  {
    if n == 0 then NoBits(); 0
    else if n >= 64 then WordLimitIsPow2(); OnesBits(64, WORD_LIMIT - 1); WORD_LIMIT - 1
    else OnesBits(n, Pow2(n) - 1); WordBits(Pow2(n) - 1); Pow2(n) - 1
  }

  /** `low_mask(take) << bit`, which never overflows because the run fits in the word. */
  function RunMask(bit: nat, take: nat): (r: u64)
    requires bit + take <= 64
    ensures forall i: nat :: Bit(r, i) <==> bit <= i < bit + take
  {
    var m := LowMask(take);
    assert forall i: nat :: Bit(m * Pow2(bit), i) <==> bit <= i < bit + take by {
      forall i: nat ensures Bit(m * Pow2(bit), i) <==> bit <= i < bit + take {
        ShiftBits(m, bit, i);
      }
    }
    WordBits(m * Pow2(bit));
    m * Pow2(bit)
  }

  // ---- Set bits as an ascending list

  predicate Ascending(s: seq<nat>) {
    forall j, k :: 0 <= j < k < |s| ==> s[j] < s[k]
  }

  lemma FirstIsMember<T>(s: seq<T>)
    ensures s == [] || s[0] in s
  {
  }

  /** An ascending list is determined by its members. */
  lemma {:induction false} AscendingUnique(a: seq<nat>, b: seq<nat>)
    requires Ascending(a) && Ascending(b)
    requires forall x :: x in a <==> x in b
    ensures a == b
  {
    if a == [] {
      FirstIsMember(b);
    } else {
      FirstIsMember(a); FirstIsMember(b);
      assert a[0] == b[0];
      forall x ensures x in a[1..] <==> x in b[1..] {
        if x in a[1..] { assert x in a; assert x != a[0]; }
        if x in b[1..] { assert x in b; assert x != b[0]; }
      }
      AscendingUnique(a[1..], b[1..]);
      assert a == [a[0]] + a[1..] && b == [b[0]] + b[1..];
    }
  }

  /** `w.count_ones()` */
  function PopCount(w: nat): (n: nat)
    ensures n == 0 <==> w == 0
    decreases w
  {
    if w == 0 then 0 else w % 2 + PopCount(w / 2)
  }

  function BitListFrom(w: nat, base: nat): (s: seq<nat>)
    ensures Ascending(s)
    ensures forall x :: x in s <==> base <= x && Bit(w, x - base)
    ensures |s| == PopCount(w)
    decreases w
  {
    if w == 0 then NoBits(); [] else
      var rest := BitListFrom(w / 2, base + 1);
      var s := (if w % 2 == 1 then [base] else []) + rest;
      assert forall x :: x in s <==> base <= x && Bit(w, x - base) by {
        forall x ensures x in s <==> base <= x && Bit(w, x - base) {
          if x > base { assert Bit(w, x - base) == Bit(w / 2, x - (base + 1)); }
        }
      }
      assert forall k :: 0 <= k < |rest| ==> rest[k] in rest;
      s
  }

  /** The set bits of a word, in ascending order: entry `r` is the bit of delivery rank `r`. */
  function BitList(w: nat): (s: seq<nat>)
    ensures Ascending(s)
    ensures forall x: nat :: x in s <==> Bit(w, x)
    ensures |s| == PopCount(w)
  {
    BitListFrom(w, 0)
  }

  /** `w.trailing_zeros()` of a non-zero word. */
  function TrailingZeros(w: nat): (t: nat)
    requires w != 0
    ensures Bit(w, t)
    ensures forall i: nat :: i < t ==> !Bit(w, i)
    decreases w
  {
    if w % 2 == 1 then 0 else
      var t := 1 + TrailingZeros(w / 2);
      assert forall i: nat :: i < t ==> !Bit(w, i) by {
        forall i: nat | i < t ensures !Bit(w, i) { if i > 0 { assert !Bit(w / 2, i - 1); } }
      }
      t
  }

  /** `w & (w - 1)` clears the lowest set bit and nothing else. */
  lemma {:induction false} ClearLowestBits(w: nat)
    requires w != 0
    ensures forall i: nat :: Bit(AndNat(w, w - 1), i) <==> Bit(w, i) && i != TrailingZeros(w)
    decreases w
  {
    if w % 2 == 1 {
      assert (w - 1) / 2 == w / 2 && (w - 1) % 2 == 0;
      forall i: nat ensures Bit(AndNat(w, w - 1), i) <==> Bit(w, i) && i != 0 {
        if i > 0 { assert Bit(w - 1, i) == Bit(w / 2, i - 1) == Bit(w, i); }
      }
    } else {
      ClearLowestBits(w / 2);
      assert (w - 1) / 2 == w / 2 - 1 && (w - 1) % 2 == 1;
      var low := TrailingZeros(w / 2);
      forall i: nat ensures Bit(AndNat(w, w - 1), i) <==> Bit(w, i) && i != low + 1 {
        if i > 0 {
          assert Bit(w, i) == Bit(w / 2, i - 1);
          assert Bit(w - 1, i) == Bit(w / 2 - 1, i - 1);
          assert Bit(AndNat(w / 2, w / 2 - 1), i - 1) <==> Bit(w / 2, i - 1) && i - 1 != low;
        }
      }
    }
  }

  /** `w & (w - 1)` */
  function DropLowest(w: u64): (r: u64)
    requires w != 0
    ensures forall i: nat :: Bit(r, i) <==> Bit(w, i) && i != TrailingZeros(w)
    ensures BitList(w) == [TrailingZeros(w)] + BitList(r)
    ensures PopCount(w) == 1 + PopCount(r)
  {
    ClearLowestBits(w);
    var r := And(w, w - 1);
    var tail := [TrailingZeros(w)] + BitList(r);
    assert Ascending(tail) by {
      forall k | 0 < k < |tail| ensures tail[0] < tail[k] {
        assert tail[k] in BitList(r);
        assert Bit(w, tail[k]) && tail[k] != TrailingZeros(w);
      }
    }
    AscendingUnique(BitList(w), tail);
    r
  }

  // ---- Division

  lemma OneQuotient(n: nat, a: int, r: nat, b: int, s: nat)
    requires n * a + r == n * b + s && r < n && s < n
    ensures r == s
  {
    assert n * (a - b) == n * a - n * b && n * (b - a) == n * b - n * a;
    if a > b {
      Multiple(n, a - b);
    } else if a < b {
      Multiple(n, b - a);
    }
  }

  lemma Multiple(n: nat, d: nat)
    requires d >= 1
    ensures n * d >= n
  {
  }

  /** Quotient and remainder are determined. */
  lemma Quotient(v: nat, d: nat, q: nat, r: nat)
    requires d > 0 && v == d * q + r && r < d
    ensures v / d == q
  {
    var p := v / d;
    assert v == d * p + v % d;
    OneQuotient(d, q, r, p, v % d);
    SameFactor(d, p, q);
  }

  lemma SameFactor(d: nat, p: nat, q: nat)
    requires d > 0 && d * p == d * q
    ensures p == q
  {
    assert d * (p - q) == 0;
  }
}
