/** Little-endian integers in byte sequences. */
module Bytes {
  import opened Words

  type byte = b: nat | b < 256

  type bytes = seq<byte>

  const U16_LIMIT := 0x1_0000
  const U32_LIMIT := 0x1_0000_0000
  const U64_LIMIT := 0x1_0000_0000_0000_0000

  type u32 = n: nat | n < U32_LIMIT

  function Limit(width: nat): (r: nat)
    ensures r > 0
  {
    if width == 0 then 1 else 256 * Limit(width - 1)
  }

  lemma Limits()
    ensures Limit(1) == 256 && Limit(2) == U16_LIMIT && Limit(4) == U32_LIMIT && Limit(8) == U64_LIMIT
  {
    assert Limit(3) == 256 * Limit(2) && Limit(4) == 256 * Limit(3) && Limit(5) == 256 * Limit(4);
    assert Limit(6) == 256 * Limit(5) && Limit(7) == 256 * Limit(6) && Limit(8) == 256 * Limit(7);
  }

  /** `to_le_bytes`, truncating to the width. */
  function LE(v: nat, width: nat): (r: bytes)
    ensures |r| == width
    decreases width
  {
    if width == 0 then [] else [v % 256] + LE(v / 256, width - 1)
  }

  /** `from_le_bytes` */
  function UnLE(s: bytes): (v: nat)
    ensures v < Limit(|s|)
  {
    if s == [] then 0 else s[0] + 256 * UnLE(s[1..])
  }

  lemma {:induction false} LERoundTrip(v: nat, width: nat)
    requires v < Limit(width)
    ensures UnLE(LE(v, width)) == v
    decreases width
  {
    if width == 0 {
    } else {
      LERoundTrip(v / 256, width - 1);
      assert LE(v, width)[1..] == LE(v / 256, width - 1);
    }
  }

  /** The least significant byte comes first. */
  lemma {:induction false} LEDigit(v: nat, width: nat, k: nat)
    requires k < width
    ensures LE(v, width)[k] == v / Limit(k) % 256
    decreases width
  {
    if k > 0 {
      LEDigit(v / 256, width - 1, k - 1);
      DivideTwice(v, Limit(k - 1));
    }
  }

  lemma DivideTwice(v: nat, b: nat)
    requires b > 0
    ensures v / 256 / b == v / (256 * b)
  {
    var high, low := v / 256, v % 256;
    var q, r := high / b, high % b;
    assert high == b * q + r;
    assert 256 * (b * q) == 256 * b * q;
    Quotient(v, 256 * b, q, 256 * r + low);
  }

  /** Bytes are what their number is written as. */
  lemma {:induction false} UnLERoundTrip(s: bytes)
    ensures LE(UnLE(s), |s|) == s
  {
    if s == [] {
    } else {
      UnLERoundTrip(s[1..]);
      Digits(s[0], UnLE(s[1..]));
    }
  }

  lemma Digits(low: byte, high: nat)
    ensures (low + 256 * high) % 256 == low && (low + 256 * high) / 256 == high
  {
  }

  /** The number stored at `pos`. */
  function Field(buf: bytes, pos: nat, width: nat): (v: nat)
    requires pos + width <= |buf|
    ensures v < Limit(width)
  {
    UnLE(buf[pos..pos + width])
  }

  lemma FieldCut(body: bytes, m: nat, pos: nat, width: nat)
    requires pos + width <= m <= |body|
    ensures Field(body[..m], pos, width) == Field(body, pos, width)
  {
    assert body[..m][pos..pos + width] == body[pos..pos + width];
  }

  /** Reading a field behind any bytes and before any others gives what was written. */
  lemma ReadBack(before: bytes, v: nat, width: nat, after: bytes)
    requires v < Limit(width)
    ensures Field(before + LE(v, width) + after, |before|, width) == v
  {
    LERoundTrip(v, width);
    assert (before + LE(v, width) + after)[|before|..|before| + width] == LE(v, width);
  }

  // ---- Packed fields

  datatype Packed = Packed(value: nat, width: nat)

  predicate Fits(fs: seq<Packed>) {
    forall k :: 0 <= k < |fs| ==> fs[k].value < Limit(fs[k].width)
  }

  /** Fields one after the other. */
  function Pack(fs: seq<Packed>): (r: bytes)
    ensures |r| == Offset(fs, |fs|)
  {
    if fs == [] then [] else
      var n := |fs| - 1;
      OffsetPrefix(fs, n, n);
      Pack(fs[..n]) + LE(fs[n].value, fs[n].width)
  }

  function Offset(fs: seq<Packed>, k: nat): (r: nat)
    requires k <= |fs|
  {
    if k == 0 then 0 else Offset(fs, k - 1) + fs[k - 1].width
  }

  lemma {:induction false} OffsetPrefix(fs: seq<Packed>, m: nat, k: nat)
    requires k <= m <= |fs|
    ensures Offset(fs[..m], k) == Offset(fs, k)
    decreases k
  {
    if k == 0 {
    } else {
      OffsetPrefix(fs, m, k - 1);
    }
  }

  /** Any field of a packed list can be read back in place. */
  lemma {:induction false} PackedField(fs: seq<Packed>, k: nat, before: bytes, after: bytes)
    requires Fits(fs) && k < |fs|
    ensures |before| + Offset(fs, k) + fs[k].width <= |before + Pack(fs) + after|
    ensures Field(before + Pack(fs) + after, |before| + Offset(fs, k), fs[k].width) == fs[k].value
    decreases |fs|
  {
    hide Limit, LE, Field;
    var n := |fs| - 1;
    var head, last := Pack(fs[..n]), LE(fs[n].value, fs[n].width);
    OffsetPrefix(fs, n, n);
    OffsetPrefix(fs, n, if k < n then k else n);
    if k == n {
      ReadBack(before + head, fs[n].value, fs[n].width, after);
      assert before + Pack(fs) + after == (before + head) + last + after;
    } else {
      PackedField(fs[..n], k, before, last + after);
      assert before + Pack(fs) + after == before + head + (last + after);
    }
  }

  /** The bytes hold the fields, one after the other. */
  ghost predicate HoldsFields(buf: bytes, fs: seq<Packed>) {
    |buf| == Offset(fs, |fs|) && forall k :: 0 <= k < |fs| ==> FieldIs(buf, fs, k)
  }

  ghost predicate FieldIs(buf: bytes, fs: seq<Packed>, k: nat)
    requires k < |fs|
  {
    Offset(fs, k) + fs[k].width <= |buf| && Field(buf, Offset(fs, k), fs[k].width) == fs[k].value
  }

  /** Bytes are the packing of what is read from them. */
  lemma {:induction false} UnpackedFields(buf: bytes, fs: seq<Packed>)
    requires HoldsFields(buf, fs)
    ensures Pack(fs) == buf
    decreases |fs|
  {
    hide Limit, LE;
    if fs == [] {
    } else {
      var n := |fs| - 1;
      var m := Offset(fs, n);
      assert FieldIs(buf, fs, n);
      UnpackPrefix(buf, fs);
      UnpackedFields(buf[..m], fs[..n]);
      UnLERoundTrip(buf[m..]);
      assert buf[m..m + fs[n].width] == buf[m..];
    }
  }

  lemma UnpackPrefix(buf: bytes, fs: seq<Packed>)
    requires HoldsFields(buf, fs) && fs != []
    ensures var n := |fs| - 1; Offset(fs, n) <= |buf| && HoldsFields(buf[..Offset(fs, n)], fs[..n])
  {
    hide Limit, Field;
    var n := |fs| - 1;
    var m := Offset(fs, n);
    OffsetPrefix(fs, n, n);
    forall k | 0 <= k < n ensures FieldIs(buf[..m], fs[..n], k) {
      assert FieldIs(buf, fs, k);
      OffsetPrefix(fs, n, k);
      OffsetGrows(fs, k + 1, n);
      FieldCut(buf, m, Offset(fs, k), fs[k].width);
    }
  }

  lemma {:induction false} OffsetGrows(fs: seq<Packed>, j: nat, k: nat)
    requires j <= k <= |fs|
    ensures Offset(fs, j) <= Offset(fs, k)
    decreases k
  {
    if j == k {
    } else {
      OffsetGrows(fs, j, k - 1);
    }
  }
}
