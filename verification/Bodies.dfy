/** The bodies of queue-index, ack-ledger and payload records. */
module RecordBodies {
  import opened Bytes
  import opened Words
  import opened Kernels

  // ---- Queue index

  datatype PayloadRef = PayloadRef(segment: nat, offset: nat, index: nat, len: nat, checksum: nat)

  datatype IndexEntry = IndexEntry(queueId: nat, seqNo: nat, ref: PayloadRef)

  const INDEX_ENTRY_LEN := 42

  predicate IndexEntryOk(e: IndexEntry) {
    && e.queueId < U32_LIMIT && e.seqNo < U64_LIMIT && e.ref.segment < U64_LIMIT && e.ref.offset < U64_LIMIT
    && e.ref.index < U32_LIMIT && e.ref.len < U32_LIMIT && e.ref.checksum < U32_LIMIT
  }

  predicate IndexEntriesOk(es: seq<IndexEntry>) {
    |es| < U32_LIMIT && forall k :: 0 <= k < |es| ==> IndexEntryOk(es[k])
  }

  function IndexFields(e: IndexEntry): (fs: seq<Packed>) {
    [Packed(e.queueId, 4), Packed(e.seqNo, 8), Packed(e.ref.segment, 8), Packed(e.ref.offset, 8),
     Packed(e.ref.index, 4), Packed(e.ref.len, 4), Packed(e.ref.checksum, 4), Packed(0, 2)]
  }

  function IndexEntryBytes(e: IndexEntry): (r: bytes)
    ensures |r| == INDEX_ENTRY_LEN
  {
    IndexOffsets(e);
    Pack(IndexFields(e))
  }

  lemma IndexOffsets(e: IndexEntry)
    ensures var fs := IndexFields(e);
      && Offset(fs, 0) == 0 && Offset(fs, 1) == 4 && Offset(fs, 2) == 12 && Offset(fs, 3) == 20 && Offset(fs, 4) == 28
      && Offset(fs, 5) == 32 && Offset(fs, 6) == 36 && Offset(fs, 7) == 40 && Offset(fs, 8) == INDEX_ENTRY_LEN
  {
    var fs := IndexFields(e);
    assert Offset(fs, 3) == Offset(fs, 2) + 8 && Offset(fs, 4) == Offset(fs, 3) + 8
      && Offset(fs, 5) == Offset(fs, 4) + 4;
    assert Offset(fs, 6) == Offset(fs, 5) + 4 && Offset(fs, 7) == Offset(fs, 6) + 4
      && Offset(fs, 8) == Offset(fs, 7) + 2;
  }

  function IndexEntriesBytes(es: seq<IndexEntry>): (r: bytes)
    ensures |r| == INDEX_ENTRY_LEN * |es|
  {
    if es == [] then [] else IndexEntriesBytes(es[..|es| - 1]) + IndexEntryBytes(es[|es| - 1])
  }

  function IndexBody(es: seq<IndexEntry>): (r: bytes) {
    LE(|es|, 4) + IndexEntriesBytes(es)
  }

  /** The body that `append_entries` writes. */
  method EncodeIndexBody(es: seq<IndexEntry>) returns (body: bytes)
    ensures body == IndexBody(es)
  {
    hide IndexEntryBytes;
    body := LE(|es|, 4);
    for k := 0 to |es|
      invariant body == LE(|es|, 4) + IndexEntriesBytes(es[..k])
    {
      assert es[..k + 1][..k] == es[..k];
      body := body + IndexEntryBytes(es[k]);
    }
    assert es[..|es|] == es;
  }

  function IndexEntryAt(body: bytes, pos: nat): (e: IndexEntry)
    requires pos + INDEX_ENTRY_LEN <= |body|
  {
    IndexEntry(Field(body, pos, 4), Field(body, pos + 4, 8),
               PayloadRef(Field(body, pos + 12, 8), Field(body, pos + 20, 8), Field(body, pos + 28, 4),
                 Field(body, pos + 32, 4), Field(body, pos + 36, 4)))
  }

  /** The announced entries, as far as the bytes go. */
  function IndexEntriesIn(body: bytes): (r: seq<IndexEntry>) {
    if |body| < 4 then [] else
      var n := Min(Field(body, 0, 4), (|body| - 4) / INDEX_ENTRY_LEN);
      seq(n, k requires 0 <= k < n => IndexEntryAt(body, 4 + INDEX_ENTRY_LEN * k))
  }

  /** `decode_index_body` */
  method DecodeIndexBody(body: bytes) returns (out: seq<IndexEntry>)
    ensures out == IndexEntriesIn(body)
  {
    hide Field;
    out := [];
    if |body| < 4 {
      return;
    }
    var count, pos := Field(body, 0, 4), 4;
    for k := 0 to count
      invariant |out| == k && pos == 4 + INDEX_ENTRY_LEN * k && pos <= |body|
      invariant forall j :: 0 <= j < k ==>
        4 + INDEX_ENTRY_LEN * (j + 1) <= |body| && out[j] == IndexEntryAt(body, 4 + INDEX_ENTRY_LEN * j)
    {
      if pos + INDEX_ENTRY_LEN > |body| {
        break;
      }
      out := out + [IndexEntryAt(body, pos)];
      pos := pos + INDEX_ENTRY_LEN;
    }
  }

  lemma IndexEntryReadsBack(e: IndexEntry, before: bytes, after: bytes)
    requires IndexEntryOk(e)
    ensures IndexEntryAt(before + IndexEntryBytes(e) + after, |before|) == e
  {
    hide Field, Pack, Offset, Limit;
    var fs := IndexFields(e);
    IndexOffsets(e);
    assert Fits(fs) by { Limits(); }
    PackedField(fs, 0, before, after);
    PackedField(fs, 1, before, after);
    PackedField(fs, 2, before, after);
    PackedField(fs, 3, before, after);
    PackedField(fs, 4, before, after);
    PackedField(fs, 5, before, after);
    PackedField(fs, 6, before, after);
  }

  lemma {:induction false} IndexEntriesSplit(es: seq<IndexEntry>, k: nat)
    requires k < |es|
    ensures IndexEntriesBytes(es) ==
      IndexEntriesBytes(es[..k]) + IndexEntryBytes(es[k]) + IndexEntriesBytes(es[k + 1..])
    decreases |es|
  {
    hide IndexEntryBytes;
    var n := |es| - 1;
    if k == n {
      assert es[k + 1..] == [];
    } else {
      IndexEntriesSplit(es[..n], k);
      assert es[..n][..k] == es[..k] && es[..n][k + 1..] == es[k + 1..][..|es| - k - 2];
      var tail := es[k + 1..];
      assert IndexEntriesBytes(tail) == IndexEntriesBytes(tail[..|tail| - 1]) + IndexEntryBytes(es[n]);
    }
  }

  lemma IndexEntryThere(n: nat, es: seq<IndexEntry>, rest: bytes, k: nat)
    requires k < |es| && IndexEntryOk(es[k])
    ensures IndexEntryAt(LE(n, 4) + IndexEntriesBytes(es) + rest, 4 + INDEX_ENTRY_LEN * k) == es[k]
  {
    hide IndexEntryAt, IndexEntryBytes, IndexEntriesBytes, IndexEntryOk, LE;
    IndexEntriesSplit(es, k);
    var a, e, b := IndexEntriesBytes(es[..k]), IndexEntryBytes(es[k]), IndexEntriesBytes(es[k + 1..]);
    Regroup(LE(n, 4), a, e, b, rest);
    IndexEntryReadsBack(es[k], LE(n, 4) + a, b + rest);
  }

  lemma Regroup(p: bytes, a: bytes, e: bytes, b: bytes, r: bytes)
    ensures p + (a + e + b) + r == (p + a) + e + (b + r)
  {
  }

  lemma WholeEntries(n: nat, m: nat, rest: nat)
    requires m <= n && (m == n || rest < INDEX_ENTRY_LEN)
    ensures Min(n, (INDEX_ENTRY_LEN * m + rest) / INDEX_ENTRY_LEN) == m
  {
    var extra := rest / INDEX_ENTRY_LEN;
    assert INDEX_ENTRY_LEN * m + rest == INDEX_ENTRY_LEN * (m + extra) + rest % INDEX_ENTRY_LEN;
    Quotient(INDEX_ENTRY_LEN * m + rest, INDEX_ENTRY_LEN, m + extra, rest % INDEX_ENTRY_LEN);
  }

  /** Any index body: behind the count come whole entries and then a rest. The announced entries are read,
      and fewer are only if the bytes end inside the next one. */
  lemma IndexBodyReads(n: nat, es: seq<IndexEntry>, rest: bytes)
    requires n < U32_LIMIT && |es| <= n && forall k :: 0 <= k < |es| ==> IndexEntryOk(es[k])
    requires |es| == n || |rest| < INDEX_ENTRY_LEN
    ensures IndexEntriesIn(LE(n, 4) + IndexEntriesBytes(es) + rest) == es
  {
    hide IndexEntryAt, IndexEntriesBytes, IndexEntryOk, LE, Field;
    var body := LE(n, 4) + IndexEntriesBytes(es) + rest;
    assert body == LE(n, 4) + (IndexEntriesBytes(es) + rest);
    CountReadsBack(n, IndexEntriesBytes(es) + rest);
    WholeEntries(n, |es|, |rest|);
    forall k | 0 <= k < |es| ensures IndexEntryAt(body, 4 + INDEX_ENTRY_LEN * k) == es[k] {
      IndexEntryThere(n, es, rest, k);
    }
  }

  /** Decoding an encoded index body gives the entries back. */
  lemma IndexRoundTrip(es: seq<IndexEntry>)
    requires IndexEntriesOk(es)
    ensures IndexEntriesIn(IndexBody(es)) == es
  {
    hide IndexEntriesIn, LE, IndexEntriesBytes;
    IndexBodyReads(|es|, es, []);
    assert LE(|es|, 4) + IndexEntriesBytes(es) + [] == IndexBody(es);
  }

  lemma CountReadsBack(n: nat, after: bytes)
    requires n < U32_LIMIT
    ensures Field(LE(n, 4) + after, 0, 4) == n
  {
    Limits();
    ReadBack([], n, 4, after);
    assert [] + LE(n, 4) + after == LE(n, 4) + after;
  }

  // ---- Ack ledger

  datatype AckEntry =
    | AckRangeEntry(queueId: nat, start: nat, len: nat)
    | AckMaskEntry(queueId: nat, blockBase: nat, word: nat, mask: nat)
    | NackRequeueEntry(queueId: nat, start: nat, len: nat)
    | DeadLetterEntry(queueId: nat, start: nat, len: nat)

  const ACK_RANGE_KIND := 1
  const ACK_MASK_KIND := 2
  const NACK_REQUEUE_KIND := 3
  const DEAD_LETTER_KIND := 4

  predicate AckEntryOk(e: AckEntry) {
    match e
    case AckMaskEntry(q, base, word, mask) => q < U32_LIMIT && base < U64_LIMIT && word < 256 && mask < U64_LIMIT
    case _ => e.queueId < U32_LIMIT && e.start < U64_LIMIT && e.len < U32_LIMIT
  }

  predicate AckEntriesOk(es: seq<AckEntry>) {
    |es| < U32_LIMIT && forall k :: 0 <= k < |es| ==> AckEntryOk(es[k])
  }

  function AckKind(e: AckEntry): (kind: byte) {
    match e
    case AckRangeEntry(_, _, _) => ACK_RANGE_KIND
    case AckMaskEntry(_, _, _, _) => ACK_MASK_KIND
    case NackRequeueEntry(_, _, _) => NACK_REQUEUE_KIND
    case DeadLetterEntry(_, _, _) => DEAD_LETTER_KIND
  }

  function AckFields(e: AckEntry): (fs: seq<Packed>) {
    match e
    case AckMaskEntry(q, base, word, mask) => [Packed(q, 4), Packed(base, 8), Packed(word, 1), Packed(mask, 8)]
    case _ => [Packed(e.queueId, 4), Packed(e.start, 8), Packed(e.len, 4)]
  }

  function AckEntryBytes(e: AckEntry): (r: bytes) {
    [AckKind(e)] + Pack(AckFields(e))
  }

  function AckEntriesBytes(es: seq<AckEntry>): (r: bytes) {
    if es == [] then [] else AckEntryBytes(es[0]) + AckEntriesBytes(es[1..])
  }

  function AckBody(es: seq<AckEntry>): (r: bytes) {
    LE(|es|, 4) + AckEntriesBytes(es)
  }

  /** `encode_ack_body` */
  method EncodeAckBody(es: seq<AckEntry>) returns (body: bytes)
    ensures body == AckBody(es)
  {
    hide AckEntryBytes;
    body := LE(|es|, 4);
    for k := 0 to |es|
      invariant body == LE(|es|, 4) + AckEntriesBytes(es[..k])
    {
      AckEntriesAppend(es, k);
      body := body + AckEntryBytes(es[k]);
    }
    assert es[..|es|] == es;
  }

  lemma {:induction false} AckEntriesAppend(es: seq<AckEntry>, k: nat)
    requires k < |es|
    ensures AckEntriesBytes(es[..k + 1]) == AckEntriesBytes(es[..k]) + AckEntryBytes(es[k])
    decreases k
  {
    hide AckEntryBytes;
    if k == 0 {
      assert es[..1][1..] == [] && es[..0] == [];
    } else {
      AckEntriesAppend(es[1..], k - 1);
      assert es[..k + 1][1..] == es[1..][..k] && es[..k][1..] == es[1..][..k - 1];
    }
  }

  /** Body length of an entry after its kind byte; unknown kinds have none. */
  function AckEntryLen(kind: byte): (n: nat) {
    if kind == ACK_MASK_KIND then 21
    else if kind == ACK_RANGE_KIND || kind == NACK_REQUEUE_KIND || kind == DEAD_LETTER_KIND then 16
    else 0
  }

  /** The entry behind a known kind byte. */
  function AckEntryAt(body: bytes, pos: nat, kind: byte): (e: AckEntry)
    requires 1 <= kind <= 4 && pos + AckEntryLen(kind) <= |body|
  {
    if kind == ACK_MASK_KIND then
      AckMaskEntry(Field(body, pos, 4), Field(body, pos + 4, 8), body[pos + 12], Field(body, pos + 13, 8))
    else if kind == ACK_RANGE_KIND then
      AckRangeEntry(Field(body, pos, 4), Field(body, pos + 4, 8), Field(body, pos + 12, 4))
    else if kind == NACK_REQUEUE_KIND then
      NackRequeueEntry(Field(body, pos, 4), Field(body, pos + 4, 8), Field(body, pos + 12, 4))
    else DeadLetterEntry(Field(body, pos, 4), Field(body, pos + 4, 8), Field(body, pos + 12, 4))
  }

  /** Up to `count` entries from `pos`: reading stops at the end of the bytes or inside an entry,
      and a byte that is no known kind is passed over. */
  function AckEntriesFrom(body: bytes, pos: nat, count: nat): (r: seq<AckEntry>)
    decreases count
  {
    if count == 0 || pos >= |body| then [] else
      var kind := body[pos];
      if pos + 1 + AckEntryLen(kind) > |body| then []
      else if 1 <= kind <= 4 then
        [AckEntryAt(body, pos + 1, kind)] + AckEntriesFrom(body, pos + 1 + AckEntryLen(kind), count - 1)
      else AckEntriesFrom(body, pos + 1, count - 1)
  }

  function AckEntriesIn(body: bytes): (r: seq<AckEntry>) {
    if |body| < 4 then [] else AckEntriesFrom(body, 4, Field(body, 0, 4))
  }

  /** `decode_ack_body` */
  method DecodeAckBody(body: bytes) returns (out: seq<AckEntry>)
    ensures out == AckEntriesIn(body)
  {
    hide Field, AckEntryAt, AckEntriesFrom;
    out := [];
    if |body| < 4 {
      return;
    }
    var count, pos := Field(body, 0, 4), 4;
    for k := 0 to count
      invariant pos >= 4 && AckEntriesIn(body) == out + AckEntriesFrom(body, pos, count - k)
    {
      AckStep(body, pos, count - k);
      if pos >= |body| {
        break;
      }
      var kind := body[pos];
      pos := pos + 1;
      if 1 <= kind <= 4 {
        if pos + AckEntryLen(kind) > |body| {
          break;
        }
        out := out + [AckEntryAt(body, pos, kind)];
        pos := pos + AckEntryLen(kind);
      }
    }
    NoMoreAcks(body, pos);
  }

  lemma NoMoreAcks(body: bytes, pos: nat)
    ensures AckEntriesFrom(body, pos, 0) == []
  {
  }

  lemma AckStep(body: bytes, pos: nat, count: nat)
    requires count > 0
    ensures pos >= |body| ==> AckEntriesFrom(body, pos, count) == []
    ensures pos < |body| ==> var kind := body[pos];
      if pos + 1 + AckEntryLen(kind) > |body| then AckEntriesFrom(body, pos, count) == []
      else if 1 <= kind <= 4 then
        AckEntriesFrom(body, pos, count) ==
        [AckEntryAt(body, pos + 1, kind)] + AckEntriesFrom(body, pos + 1 + AckEntryLen(kind), count - 1)
      else AckEntriesFrom(body, pos, count) == AckEntriesFrom(body, pos + 1, count - 1)
  {
    hide AckEntryAt;
  }

  lemma AckOffsets(e: AckEntry)
    ensures var fs := AckFields(e);
      && Offset(fs, 0) == 0 && Offset(fs, 1) == 4 && Offset(fs, 2) == 12
      && (e.AckMaskEntry? ==> Offset(fs, 3) == 13) && Offset(fs, |fs|) == AckEntryLen(AckKind(e))
  {
    var fs := AckFields(e);
    assert Offset(fs, 3) == Offset(fs, 2) + fs[2].width;
    if e.AckMaskEntry? { assert Offset(fs, 4) == Offset(fs, 3) + 8; }
  }

  lemma AckFits(e: AckEntry)
    requires AckEntryOk(e)
    ensures Fits(AckFields(e))
  {
    Limits();
  }

  lemma AckEntryReadsBack(e: AckEntry, before: bytes, after: bytes)
    requires AckEntryOk(e)
    ensures var buf := before + AckEntryBytes(e) + after;
      && |AckEntryBytes(e)| == 1 + AckEntryLen(AckKind(e)) && buf[|before|] == AckKind(e)
      && AckEntryAt(buf, |before| + 1, AckKind(e)) == e
  {
    hide Pack, Offset, Limit, Field;
    var fs, kind := AckFields(e), [AckKind(e)];
    var buf := before + AckEntryBytes(e) + after;
    AckOffsets(e);
    AckFits(e);
    assert buf == (before + kind) + Pack(fs) + after;
    PackedField(fs, 0, before + kind, after);
    PackedField(fs, 1, before + kind, after);
    PackedField(fs, 2, before + kind, after);
    if e.AckMaskEntry? {
      PackedField(fs, 3, before + kind, after);
      OneByte(buf, |before| + 13);
    }
  }

  lemma OneByte(buf: bytes, pos: nat)
    requires pos < |buf|
    ensures Field(buf, pos, 1) == buf[pos]
  {
    assert buf[pos..pos + 1] == [buf[pos]] && buf[pos..pos + 1][1..] == [];
  }

  lemma {:induction false} AckEntriesReadBack(es: seq<AckEntry>, before: bytes)
    requires forall k :: 0 <= k < |es| ==> AckEntryOk(es[k])
    ensures AckEntriesFrom(before + AckEntriesBytes(es), |before|, |es|) == es
    decreases |es|
  {
    hide AckEntryAt, AckEntryBytes, AckEntryOk;
    if es == [] {
    } else {
      var first, rest := AckEntryBytes(es[0]), AckEntriesBytes(es[1..]);
      AckEntryReadsBack(es[0], before, rest);
      assert before + AckEntriesBytes(es) == before + first + rest == (before + first) + rest;
      AckEntriesReadBack(es[1..], before + first);
    }
  }

  /** Decoding an encoded ledger body gives the entries back. */
  lemma AckRoundTrip(es: seq<AckEntry>)
    requires AckEntriesOk(es)
    ensures AckEntriesIn(AckBody(es)) == es
  {
    hide AckEntriesBytes, AckEntriesFrom, LE;
    CountReadsBack(|es|, AckEntriesBytes(es));
    AckEntriesReadBack(es, LE(|es|, 4));
  }

  /** What a ledger body can hold: entries, and bytes that are no known kind. */
  datatype AckItem = Known(entry: AckEntry) | Unknown(kind: byte)

  predicate AckItemOk(x: AckItem) {
    match x
    case Known(e) => AckEntryOk(e)
    case Unknown(kind) => !(1 <= kind <= 4)
  }

  function AckItemsBytes(xs: seq<AckItem>): (r: bytes) {
    if xs == [] then [] else
      (if xs[0].Known? then AckEntryBytes(xs[0].entry) else [xs[0].kind]) + AckItemsBytes(xs[1..])
  }

  function KnownOnes(xs: seq<AckItem>): (es: seq<AckEntry>) {
    if xs == [] then [] else (if xs[0].Known? then [xs[0].entry] else []) + KnownOnes(xs[1..])
  }

  /** The bytes end, or end inside an entry. */
  predicate AckEnds(rest: bytes) {
    rest == [] || |rest| < 1 + AckEntryLen(rest[0])
  }

  lemma {:induction false} AckItemsRead(xs: seq<AckItem>, before: bytes, rest: bytes, n: nat)
    requires |xs| <= n && (|xs| == n || AckEnds(rest)) && forall k :: 0 <= k < |xs| ==> AckItemOk(xs[k])
    ensures AckEntriesFrom(before + AckItemsBytes(xs) + rest, |before|, n) == KnownOnes(xs)
    decreases |xs|
  {
    hide AckEntryAt, AckEntryBytes, AckEntryOk, AckEntriesFrom, AckEntryLen;
    var body := before + AckItemsBytes(xs) + rest;
    if n == 0 {
      NoMoreAcks(body, |before|);
    } else {
      AckStep(body, |before|, n);
      if xs == [] {
        assert body == before + rest;
      } else {
        var tail := AckItemsBytes(xs[1..]);
        if xs[0].Known? {
          var e := xs[0].entry;
          AckEntryReadsBack(e, before, tail + rest);
          assert body == before + AckEntryBytes(e) + (tail + rest);
          assert body == (before + AckEntryBytes(e)) + tail + rest;
          AckItemsRead(xs[1..], before + AckEntryBytes(e), rest, n - 1);
        } else {
          var kind := xs[0].kind;
          NoLength(kind);
          assert body == (before + [kind]) + tail + rest;
          AckItemsRead(xs[1..], before + [kind], rest, n - 1);
        }
      }
    }
  }

  lemma NoLength(kind: byte)
    requires !(1 <= kind <= 4)
    ensures AckEntryLen(kind) == 0
  {
  }

  /** Any ledger body: as many entries or unknown bytes as announced are passed, fewer only if the bytes end
      inside an entry, and exactly the entries among them are read. */
  lemma AckBodyReads(n: nat, xs: seq<AckItem>, rest: bytes)
    requires n < U32_LIMIT && |xs| <= n && (|xs| == n || AckEnds(rest))
    requires forall k :: 0 <= k < |xs| ==> AckItemOk(xs[k])
    ensures AckEntriesIn(LE(n, 4) + AckItemsBytes(xs) + rest) == KnownOnes(xs)
  {
    hide AckEntriesFrom, AckItemsBytes, LE, Field, AckEnds;
    assert LE(n, 4) + AckItemsBytes(xs) + rest == LE(n, 4) + (AckItemsBytes(xs) + rest);
    CountReadsBack(n, AckItemsBytes(xs) + rest);
    AckItemsRead(xs, LE(n, 4), rest, n);
  }

  // ---- Payload batches

  datatype PayloadError = TooShort | OutOfBounds

  datatype PayloadOutcome = Payload(bytes: bytes) | NoPayload(error: PayloadError)

  function Region(ps: seq<bytes>): (r: bytes) {
    if ps == [] then [] else Region(ps[..|ps| - 1]) + ps[|ps| - 1]
  }

  function LengthFields(ps: seq<bytes>): (fs: seq<Packed>)
    ensures |fs| == |ps| && forall k :: 0 <= k < |ps| ==> fs[k] == Packed(|ps[k]|, 4)
  {
    seq(|ps|, k requires 0 <= k < |ps| => Packed(|ps[k]|, 4))
  }

  /** Count, lengths, then the payloads back to back. */
  function PayloadBody(ps: seq<bytes>): (r: bytes) {
    LE(|ps|, 4) + Pack(LengthFields(ps)) + Region(ps)
  }

  predicate PayloadsOk(ps: seq<bytes>) {
    |ps| < U32_LIMIT && forall k :: 0 <= k < |ps| ==> |ps[k]| < U32_LIMIT
  }

  /** The body that `append_batch` writes. */
  method EncodePayloadBody(ps: seq<bytes>) returns (body: bytes)
    ensures body == PayloadBody(ps)
  {
    hide LE;
    body := LE(|ps|, 4);
    var region := [];
    for k := 0 to |ps|
      invariant body == LE(|ps|, 4) + Pack(LengthFields(ps[..k]))
    {
      assert LengthFields(ps[..k + 1])[..k] == LengthFields(ps[..k]);
      body := body + LE(|ps[k]|, 4);
    }
    for k := 0 to |ps|
      invariant region == Region(ps[..k])
    {
      assert ps[..k + 1][..k] == ps[..k];
      region := region + ps[k];
    }
    assert ps[..|ps|] == ps;
    body := body + region;
  }

  function LengthSum(body: bytes, n: nat): (r: nat)
    requires 4 + 4 * n <= |body|
  {
    if n == 0 then 0 else LengthSum(body, n - 1) + Field(body, 4 * n, 4)
  }

  /** Where the payload at `index` lies, if it is there. */
  function PayloadAt(body: bytes, index: nat): (r: PayloadOutcome) {
    if |body| < 4 then NoPayload(TooShort) else
    var count := Field(body, 0, 4);
    if index >= count || 4 + 4 * count > |body| then NoPayload(TooShort) else
    var start := 4 + 4 * count + LengthSum(body, index);
    var end := start + Field(body, 4 + 4 * index, 4);
    if end > |body| then NoPayload(OutOfBounds) else Payload(body[start..end])
  }

  /** `decode_payload_at` */
  method DecodePayloadAt(body: bytes, index: nat) returns (r: PayloadOutcome)
    ensures r == PayloadAt(body, index)
  {
    hide Field;
    if |body| < 4 {
      return NoPayload(TooShort);
    }
    var count := Field(body, 0, 4);
    if index >= count {
      return NoPayload(TooShort);
    }
    var pos, lengths := 4, [];
    for k := 0 to count
      invariant pos == 4 + 4 * k <= |body| && |lengths| == k
      invariant forall j :: 0 <= j < k ==> lengths[j] == Field(body, 4 + 4 * j, 4)
    {
      if pos + 4 > |body| {
        return NoPayload(TooShort);
      }
      lengths := lengths + [Field(body, pos, 4)];
      pos := pos + 4;
    }
    var off := pos;
    for k := 0 to count
      invariant k <= index && off == 4 + 4 * count + LengthSum(body, k)
    {
      if k == index {
        var end := off + lengths[k];
        return if end > |body| then NoPayload(OutOfBounds) else Payload(body[off..end]);
      }
      off := off + lengths[k];
    }
  }

  lemma {:induction false} LengthOffset(ps: seq<bytes>, k: nat)
    requires k <= |ps|
    ensures Offset(LengthFields(ps), k) == 4 * k
  {
    if k == 0 {
    } else {
      LengthOffset(ps, k - 1);
    }
  }

  lemma LengthReadsBack(ps: seq<bytes>, k: nat)
    requires PayloadsOk(ps) && k < |ps|
    ensures 4 + 4 * |ps| <= |PayloadBody(ps)| && Field(PayloadBody(ps), 4 + 4 * k, 4) == |ps[k]|
  {
    hide Field, Pack, Region, Limit;
    Limits();
    LengthOffset(ps, k);
    LengthOffset(ps, |ps|);
    PackedField(LengthFields(ps), k, LE(|ps|, 4), Region(ps));
  }

  lemma {:induction false} LengthSumIs(ps: seq<bytes>, n: nat)
    requires PayloadsOk(ps) && n <= |ps|
    ensures 4 + 4 * n <= |PayloadBody(ps)| && LengthSum(PayloadBody(ps), n) == |Region(ps[..n])|
  {
    hide Field, PayloadBody;
    LengthsThere(ps);
    if n == 0 {
    } else {
      LengthSumIs(ps, n - 1);
      LengthReadsBack(ps, n - 1);
      assert ps[..n][..n - 1] == ps[..n - 1];
    }
  }

  lemma LengthsThere(ps: seq<bytes>)
    ensures 4 + 4 * |ps| <= |PayloadBody(ps)|
  {
    LengthOffset(ps, |ps|);
  }

  lemma {:induction false} RegionAt(ps: seq<bytes>, k: nat)
    requires k < |ps|
    ensures var start := |Region(ps[..k])|;
      start + |ps[k]| <= |Region(ps)| && Region(ps)[start..start + |ps[k]|] == ps[k]
    decreases |ps|
  {
    var n := |ps| - 1;
    if k < n {
      RegionAt(ps[..n], k);
      assert ps[..n][..k] == ps[..k];
      var start := |Region(ps[..k])|;
      assert Region(ps)[start..start + |ps[k]|] == Region(ps[..n])[start..start + |ps[k]|];
    }
  }

  /** Every payload of a batch is read back from its index. */
  lemma PayloadRoundTrip(ps: seq<bytes>, index: nat)
    requires PayloadsOk(ps) && index < |ps|
    ensures PayloadAt(PayloadBody(ps), index) == Payload(ps[index])
  {
    hide Field, Pack, LengthSum, Region, LE;
    var body, head := PayloadBody(ps), LE(|ps|, 4) + Pack(LengthFields(ps));
    assert body == LE(|ps|, 4) + (Pack(LengthFields(ps)) + Region(ps));
    CountReadsBack(|ps|, Pack(LengthFields(ps)) + Region(ps));
    LengthOffset(ps, |ps|);
    LengthSumIs(ps, index);
    LengthReadsBack(ps, index);
    RegionAt(ps, index);
    var start := |Region(ps[..index])|;
    assert body[|head| + start..|head| + start + |ps[index]|] == Region(ps)[start..start + |ps[index]|];
  }

  /** A batch cut off after `m` bytes: a payload is refused as too short if its index or the lengths are not
      there, runs past the end if its own bytes are not, and is read otherwise. */
  lemma PayloadCut(ps: seq<bytes>, index: nat, m: nat)
    requires PayloadsOk(ps) && m <= |PayloadBody(ps)|
    ensures PayloadAt(PayloadBody(ps)[..m], index) ==
      if m < 4 + 4 * |ps| || index >= |ps| then NoPayload(TooShort)
      else if m < 4 + 4 * |ps| + |Region(ps[..index + 1])| then NoPayload(OutOfBounds)
      else Payload(ps[index])
  {
    hide Field, Pack, LengthSum, Region, LE;
    var body, cut := PayloadBody(ps), PayloadBody(ps)[..m];
    assert body == LE(|ps|, 4) + (Pack(LengthFields(ps)) + Region(ps));
    CountReadsBack(|ps|, Pack(LengthFields(ps)) + Region(ps));
    LengthOffset(ps, |ps|);
    if m >= 4 { FieldCut(body, m, 0, 4); }
    if m >= 4 + 4 * |ps| && index < |ps| {
      LengthSumIs(ps, index);
      LengthReadsBack(ps, index);
      FieldCut(body, m, 4 + 4 * index, 4);
      LengthSumCut(body, m, index);
      RegionNext(ps, index);
      PayloadRoundTrip(ps, index);
      var start := 4 + 4 * |ps| + |Region(ps[..index])|;
      if start + |ps[index]| <= m { assert cut[start..start + |ps[index]|] == body[start..start + |ps[index]|]; }
    }
  }

  lemma {:induction false} LengthSumCut(body: bytes, m: nat, n: nat)
    requires 4 + 4 * n <= m <= |body|
    ensures LengthSum(body[..m], n) == LengthSum(body, n)
    decreases n
  {
    hide Field;
    if n == 0 {
    } else {
      LengthSumCut(body, m, n - 1);
      FieldCut(body, m, 4 * n, 4);
    }
  }

  lemma RegionNext(ps: seq<bytes>, k: nat)
    requires k < |ps|
    ensures |Region(ps[..k + 1])| == |Region(ps[..k])| + |ps[k]|
  {
    assert ps[..k + 1][..k] == ps[..k];
  }
}
