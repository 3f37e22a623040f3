/** Log records (aurum-storage): a 40-byte header with a checksum, then the body. */
module Records {
  import opened Bytes

  const MAGIC := 0x4155_524D
  const VERSION := 0
  const HEADER_LEN := 40
  const FLAGS_MASK := 8
  const RECORD_FLAGS := 6

  const PAYLOAD_BATCH := 1
  const QUEUE_INDEX_BATCH := 2
  const ACK_LEDGER_BATCH := 3
  const LAST_KIND := 5

  datatype Header = Header(kind: nat, flags: nat, headerLen: nat, bodyLen: nat, crc: nat, stream: nat, baseSeq: nat,
    count: nat)

  datatype DecodeError = Truncated | BadMagic | UnsupportedVersion | HeaderTooSmall | UnknownKind(kind: nat)
    | InvalidFlags | BodyTooShort | CrcMismatch

  datatype Outcome<+T> = Ok(value: T) | Err(error: DecodeError)

  function HeaderFields(h: Header): (fs: seq<Packed>) {
    [Packed(MAGIC, 4), Packed(VERSION, 2), Packed(h.kind, 2), Packed(h.flags, 2), Packed(h.headerLen, 2),
     Packed(h.bodyLen, 4), Packed(h.crc, 4), Packed(h.stream, 8), Packed(h.baseSeq, 8), Packed(h.count, 4)]
  }

  predicate HeaderOk(h: Header) {
    && h.kind < U16_LIMIT && h.flags < U16_LIMIT && h.headerLen < U16_LIMIT && h.bodyLen < U32_LIMIT
    && h.crc < U32_LIMIT && h.stream < U64_LIMIT && h.baseSeq < U64_LIMIT && h.count < U32_LIMIT
  }

  /** `write_header` */
  function WriteHeader(h: Header): (r: bytes) {
    Pack(HeaderFields(h))
  }

  /** `read_header`: the checks in their order. */
  function ReadHeader(buf: bytes): (r: Outcome<Header>)
    requires |buf| >= HEADER_LEN
    ensures r.Ok? ==> HeaderOk(r.value)
  {
    Limits();
    var kind, flags, headerLen := Field(buf, 6, 2), Field(buf, 8, 2), Field(buf, 10, 2);
    if Field(buf, 0, 4) != MAGIC then Err(BadMagic)
    else if Field(buf, 4, 2) != VERSION then Err(UnsupportedVersion)
    else if headerLen < HEADER_LEN then Err(HeaderTooSmall)
    else if !(1 <= kind <= LAST_KIND) then Err(UnknownKind(kind))
    else if flags >= FLAGS_MASK then Err(InvalidFlags)
    else Ok(Header(kind, flags, headerLen, Field(buf, 12, 4), Field(buf, 16, 4), Field(buf, 20, 8), Field(buf, 28, 8),
      Field(buf, 36, 4)))
  }

  lemma HeaderOffsets(h: Header)
    ensures var fs := HeaderFields(h);
      && Offset(fs, 0) == 0 && Offset(fs, 1) == 4 && Offset(fs, 2) == 6 && Offset(fs, 3) == 8 && Offset(fs, 4) == 10
      && Offset(fs, 5) == 12 && Offset(fs, 6) == 16 && Offset(fs, 7) == 20 && Offset(fs, 8) == 28 && Offset(fs, 9) == 36
      && Offset(fs, 10) == HEADER_LEN
    ensures |WriteHeader(h)| == HEADER_LEN
  {
    var fs := HeaderFields(h);
    assert Offset(fs, 3) == Offset(fs, 2) + 2 && Offset(fs, 4) == Offset(fs, 3) + 2
      && Offset(fs, 5) == Offset(fs, 4) + 2;
    assert Offset(fs, 6) == Offset(fs, 5) + 4 && Offset(fs, 7) == Offset(fs, 6) + 4
      && Offset(fs, 8) == Offset(fs, 7) + 8;
    assert Offset(fs, 9) == Offset(fs, 8) + 8 && Offset(fs, 10) == Offset(fs, 9) + 4;
  }

  lemma HeaderFits(h: Header)
    requires HeaderOk(h)
    ensures Fits(HeaderFields(h))
  {
    Limits();
  }

  lemma HeaderAt(h: Header, k: nat, after: bytes)
    requires HeaderOk(h) && k < 10
    ensures var fs := HeaderFields(h);
      Offset(fs, k) + fs[k].width <= |WriteHeader(h) + after|
        && Field(WriteHeader(h) + after, Offset(fs, k), fs[k].width) == fs[k].value
  {
    hide Offset, Pack;
    HeaderFits(h);
    PackedField(HeaderFields(h), k, [], after);
    assert [] + Pack(HeaderFields(h)) + after == WriteHeader(h) + after;
  }

  /** A written header reads back, whatever follows it. */
  lemma HeaderRoundTrip(h: Header, after: bytes)
    requires HeaderOk(h) && 1 <= h.kind <= LAST_KIND && h.flags < FLAGS_MASK && h.headerLen == HEADER_LEN
    ensures |WriteHeader(h)| == HEADER_LEN && ReadHeader(WriteHeader(h) + after) == Ok(h)
  {
    hide Offset, Pack, WriteHeader, Field;
    HeaderOffsets(h);
    HeaderAt(h, 0, after);
    HeaderAt(h, 1, after);
    HeaderAt(h, 2, after);
    HeaderAt(h, 3, after);
    HeaderAt(h, 4, after);
    HeaderAt(h, 5, after);
    HeaderAt(h, 6, after);
    HeaderAt(h, 7, after);
    HeaderAt(h, 8, after);
    HeaderAt(h, 9, after);
  }

  // ---- Whole records

  datatype Record = Record(kind: nat, stream: nat, baseSeq: nat, count: nat, body: bytes)

  type Checksum = bytes -> u32

  predicate RecordOk(r: Record) {
    1 <= r.kind <= LAST_KIND && r.stream < U64_LIMIT && r.baseSeq < U64_LIMIT && r.count < U32_LIMIT
      && |r.body| < U32_LIMIT
  }

  function HeaderOf(r: Record, crc: nat): (h: Header) {
    Header(r.kind, RECORD_FLAGS, HEADER_LEN, |r.body| % U32_LIMIT, crc, r.stream, r.baseSeq, r.count)
  }

  /** `crc32c_record`: over the header with a zero checksum, and the body. */
  function RecordCrc(crc: Checksum, h: Header, body: bytes): (c: u32) {
    crc(WriteHeader(h.(crc := 0)) + body)
  }

  /** `encode_record` */
  function Encode(crc: Checksum, r: Record): (wire: bytes)
    ensures |wire| == HEADER_LEN + |r.body|
  {
    var h := HeaderOf(r, RecordCrc(crc, HeaderOf(r, 0), r.body));
    HeaderOffsets(h);
    WriteHeader(h) + r.body
  }

  /** `decode_record` */
  function Decode(crc: Checksum, buf: bytes): (r: Outcome<(Header, bytes)>)
    ensures r.Ok? ==> HEADER_LEN + |r.value.1| <= |buf|
  {
    if |buf| < HEADER_LEN then Err(Truncated) else
    var header := ReadHeader(buf[..HEADER_LEN]);
    if header.Err? then Err(header.error) else
    var total := HEADER_LEN + header.value.bodyLen;
    if |buf| < total then Err(BodyTooShort) else
    var body := buf[HEADER_LEN..total];
    if header.value.crc != RecordCrc(crc, header.value, body) then Err(CrcMismatch) else Ok((header.value, body))
  }

  lemma HeaderOfEncoded(crc: Checksum, r: Record)
    requires RecordOk(r)
    ensures var h := HeaderOf(r, RecordCrc(crc, HeaderOf(r, 0), r.body));
      && Encode(crc, r) == WriteHeader(h) + r.body && |WriteHeader(h)| == HEADER_LEN
      && ReadHeader(WriteHeader(h)) == Ok(h) && h.bodyLen == |r.body| && h.crc == RecordCrc(crc, h, r.body)
  {
    hide WriteHeader, ReadHeader;
    var h := HeaderOf(r, RecordCrc(crc, HeaderOf(r, 0), r.body));
    HeaderRoundTrip(h, []);
    assert WriteHeader(h) + [] == WriteHeader(h);
    assert h.(crc := 0) == HeaderOf(r, 0);
  }

  /** A written record reads back, whatever follows it. */
  lemma RecordRoundTrip(crc: Checksum, r: Record, after: bytes)
    requires RecordOk(r)
    ensures Decode(crc, Encode(crc, r) + after) == Ok((HeaderOf(r, RecordCrc(crc, HeaderOf(r, 0), r.body)), r.body))
  {
    hide WriteHeader, ReadHeader, RecordCrc;
    HeaderOfEncoded(crc, r);
    var h := HeaderOf(r, RecordCrc(crc, HeaderOf(r, 0), r.body));
    var buf := Encode(crc, r) + after;
    assert buf[..HEADER_LEN] == WriteHeader(h);
    assert buf[HEADER_LEN..HEADER_LEN + |r.body|] == r.body;
  }

  /** A record cut short is seen as cut short, wherever the cut falls. */
  lemma CutRecord(crc: Checksum, r: Record, n: nat)
    requires RecordOk(r) && n < |Encode(crc, r)|
    ensures Decode(crc, Encode(crc, r)[..n]) == Err(if n < HEADER_LEN then Truncated else BodyTooShort)
  {
    hide WriteHeader, ReadHeader, RecordCrc;
    HeaderOfEncoded(crc, r);
    var h := HeaderOf(r, RecordCrc(crc, HeaderOf(r, 0), r.body));
    if n >= HEADER_LEN {
      assert Encode(crc, r)[..n][..HEADER_LEN] == WriteHeader(h);
    }
  }

  // ---- What is refused

  /** The fields of a header, with any magic number and version. */
  function RawFields(magic: nat, version: nat, h: Header): (fs: seq<Packed>) {
    HeaderFields(h)[0 := Packed(magic, 4)][1 := Packed(version, 2)]
  }

  /** What a header can say for its record to be read. */
  predicate Acceptable(h: Header) {
    HeaderOk(h) && 1 <= h.kind <= LAST_KIND && h.flags < FLAGS_MASK && h.headerLen >= HEADER_LEN
  }

  lemma RawOffsets(magic: nat, version: nat, h: Header)
    ensures var fs := RawFields(magic, version, h);
      && Offset(fs, 0) == 0 && Offset(fs, 1) == 4 && Offset(fs, 2) == 6 && Offset(fs, 3) == 8 && Offset(fs, 4) == 10
      && Offset(fs, 5) == 12 && Offset(fs, 6) == 16 && Offset(fs, 7) == 20 && Offset(fs, 8) == 28 && Offset(fs, 9) == 36
      && Offset(fs, 10) == HEADER_LEN
  {
    hide Offset;
    HeaderOffsets(h);
    SameOffsets(HeaderFields(h), RawFields(magic, version, h), 10);
  }

  lemma {:induction false} SameOffsets(a: seq<Packed>, b: seq<Packed>, n: nat)
    requires n <= |a| == |b| && forall k :: 0 <= k < |a| ==> a[k].width == b[k].width
    ensures forall k :: 0 <= k <= n ==> Offset(a, k) == Offset(b, k)
  {
    if n == 0 {
    } else {
      SameOffsets(a, b, n - 1);
    }
  }

  lemma RawAt(magic: nat, version: nat, h: Header, k: nat, after: bytes)
    requires HeaderOk(h) && magic < U32_LIMIT && version < U16_LIMIT && k < 10
    ensures var fs := RawFields(magic, version, h);
      Offset(fs, k) + fs[k].width <= |Pack(fs) + after|
        && Field(Pack(fs) + after, Offset(fs, k), fs[k].width) == fs[k].value
  {
    hide Offset, Pack;
    var fs := RawFields(magic, version, h);
    HeaderFits(h);
    Limits();
    assert Fits(fs);
    PackedField(fs, k, [], after);
    assert [] + Pack(fs) + after == Pack(fs) + after;
  }

  /** Any header that the bytes can spell is answered with the first check that fails, and is read if none
      does. */
  lemma HeaderAnswer(magic: nat, version: nat, h: Header, after: bytes)
    requires HeaderOk(h) && magic < U32_LIMIT && version < U16_LIMIT
    ensures |Pack(RawFields(magic, version, h))| == HEADER_LEN
    ensures var r := ReadHeader(Pack(RawFields(magic, version, h)) + after);
      && (r == Err(BadMagic) <==> magic != MAGIC)
      && (r == Err(UnsupportedVersion) <==> magic == MAGIC && version != VERSION)
      && (magic == MAGIC && version == VERSION ==>
        && (r == Err(HeaderTooSmall) <==> h.headerLen < HEADER_LEN)
        && (r == Err(UnknownKind(h.kind)) <==> h.headerLen >= HEADER_LEN && !(1 <= h.kind <= LAST_KIND))
        && (r == Err(InvalidFlags) <==>
          h.headerLen >= HEADER_LEN && 1 <= h.kind <= LAST_KIND && h.flags >= FLAGS_MASK)
        && (r == Ok(h) <==> Acceptable(h)))
  {
    hide Offset, Pack, Field;
    RawOffsets(magic, version, h);
    RawAt(magic, version, h, 0, after);
    RawAt(magic, version, h, 1, after);
    RawAt(magic, version, h, 2, after);
    RawAt(magic, version, h, 3, after);
    RawAt(magic, version, h, 4, after);
    RawAt(magic, version, h, 5, after);
    RawAt(magic, version, h, 6, after);
    RawAt(magic, version, h, 7, after);
    RawAt(magic, version, h, 8, after);
    RawAt(magic, version, h, 9, after);
  }

  /** A header that is read was written: its bytes are those of the header returned. */
  lemma ReadIsWritten(buf: bytes)
    requires |buf| == HEADER_LEN && ReadHeader(buf).Ok?
    ensures var h := ReadHeader(buf).value; Acceptable(h) && WriteHeader(h) == buf
  {
    hide Field, Offset, Pack;
    var h := ReadHeader(buf).value;
    HeaderOffsets(h);
    forall k | 0 <= k < 10 ensures FieldIs(buf, HeaderFields(h), k) {}
    UnpackedFields(buf, HeaderFields(h));
  }

  /** Arbitrary bytes decode exactly when they start with an acceptable header and its body, and the
      header stores the checksum of both, taken with a zero in its own place. */
  lemma DecodesIff(crc: Checksum, buf: bytes, h: Header, body: bytes)
    ensures Decode(crc, buf) == Ok((h, body)) <==>
      && Acceptable(h) && h.bodyLen == |body| && WriteHeader(h) + body <= buf
      && h.crc == crc(WriteHeader(h.(crc := 0)) + body)
  {
    hide WriteHeader, ReadHeader;
    HeaderOffsets(h);
    if Acceptable(h) && h.bodyLen == |body| && WriteHeader(h) + body <= buf {
      assert buf[..HEADER_LEN] == WriteHeader(h) && buf[HEADER_LEN..HEADER_LEN + |body|] == body;
      AcceptableReads(h);
    }
    if |buf| >= HEADER_LEN && ReadHeader(buf[..HEADER_LEN]).Ok? { ReadIsWritten(buf[..HEADER_LEN]); }
  }

  lemma AcceptableReads(h: Header)
    requires Acceptable(h)
    ensures |WriteHeader(h)| == HEADER_LEN && ReadHeader(WriteHeader(h)) == Ok(h)
  {
    hide ReadHeader, Pack;
    HeaderOffsets(h);
    HeaderAnswer(MAGIC, VERSION, h, []);
    assert RawFields(MAGIC, VERSION, h) == HeaderFields(h);
    assert WriteHeader(h) + [] == WriteHeader(h);
  }

  /** A whole record whose checksum is wrong is refused as such. */
  lemma WrongChecksum(crc: Checksum, h: Header, body: bytes, after: bytes)
    requires Acceptable(h) && h.bodyLen == |body| && h.crc != crc(WriteHeader(h.(crc := 0)) + body)
    ensures Decode(crc, WriteHeader(h) + body + after) == Err(CrcMismatch)
  {
    hide WriteHeader, ReadHeader;
    HeaderOffsets(h);
    AcceptableReads(h);
    var buf := WriteHeader(h) + body + after;
    assert buf[..HEADER_LEN] == WriteHeader(h) && buf[HEADER_LEN..HEADER_LEN + |body|] == body;
  }

  /** Decoding looks no further than the record it returns. */
  lemma DecodeLocal(crc: Checksum, buf: bytes, n: nat)
    requires Decode(crc, buf).Ok? && HEADER_LEN + |Decode(crc, buf).value.1| <= n <= |buf|
    ensures Decode(crc, buf[..n]) == Decode(crc, buf)
  {
    hide ReadHeader, RecordCrc;
    var total := HEADER_LEN + |Decode(crc, buf).value.1|;
    assert buf[..n][..HEADER_LEN] == buf[..HEADER_LEN];
    assert buf[..n][HEADER_LEN..total] == buf[HEADER_LEN..total];
  }

  // ---- Scanning a segment

  datatype ScannedRecord = ScannedRecord(offset: nat, record: Record)

  datatype ScanResult = ScanResult(records: seq<ScannedRecord>, validEnd: nat, truncatedTail: bool)

  datatype ScanOutcome = Scanned(result: ScanResult) | CorruptRecord(offset: nat)

  function ToRecord(h: Header, body: bytes): (r: Record) {
    Record(h.kind, h.stream, h.baseSeq, h.count, body)
  }

  /** What scanning makes of the bytes from `base` on. */
  function ScanTail(crc: Checksum, tail: bytes, base: nat): (r: ScanOutcome)
    decreases |tail|
  {
    if tail == [] then Scanned(ScanResult([], base, false))
    else if |tail| < HEADER_LEN then Scanned(ScanResult([], base, true))
    else match Decode(crc, tail)
      case Ok((h, body)) =>
        var len := HEADER_LEN + |body|;
        Prepend(ScannedRecord(base, ToRecord(h, body)), ScanTail(crc, tail[len..], base + len))
      case Err(e) => if e == Truncated || e == BodyTooShort then Scanned(ScanResult([], base, true))
        else CorruptRecord(base)
  }

  function Prepend(r: ScannedRecord, s: ScanOutcome): (t: ScanOutcome) {
    if s.CorruptRecord? then s else Scanned(s.result.(records := [r] + s.result.records))
  }

  function PrependAll(rs: seq<ScannedRecord>, s: ScanOutcome): (t: ScanOutcome) {
    if s.CorruptRecord? then s else Scanned(s.result.(records := rs + s.result.records))
  }

  /** `scan_segment_bytes` */
  method ScanSegment(crc: Checksum, buf: bytes) returns (r: ScanOutcome)
    ensures r == ScanTail(crc, buf, 0)
    ensures r.Scanned? ==> var s := r.result;
      && Chained(crc, buf, s.records, 0, s.validEnd) && s.validEnd <= |buf|
      && (s.truncatedTail <==> s.validEnd < |buf|) && BreaksOff(buf[s.validEnd..])
  {
    hide Decode, Chained, BreaksOff;
    var records, pos := [], 0;
    assert buf[0..] == buf;
    if ScanTail(crc, buf, 0).Scanned? { ScannedAreStored(crc, buf, 0); }
    while pos < |buf|
      invariant pos <= |buf| && ScanTail(crc, buf, 0) == PrependAll(records, ScanTail(crc, buf[pos..], pos))
    {
      if |buf| - pos < HEADER_LEN {
        return Scanned(ScanResult(records, pos, true));
      }
      var start := pos;
      match Decode(crc, buf[pos..]) {
        case Ok((h, body)) =>
          records := records + [ScannedRecord(start, ToRecord(h, body))];
          assert buf[pos..][HEADER_LEN + |body|..] == buf[pos + HEADER_LEN + |body|..];
          pos := pos + HEADER_LEN + |body|;
        case Err(e) =>
          if e == Truncated || e == BodyTooShort {
            return Scanned(ScanResult(records, start, true));
          }
          return CorruptRecord(start);
      }
    }
    r := Scanned(ScanResult(records, pos, false));
  }

  // ---- Concatenated records

  predicate RecordsOk(rs: seq<Record>) {
    forall k :: 0 <= k < |rs| ==> RecordOk(rs[k])
  }

  function Join(crc: Checksum, rs: seq<Record>): (r: bytes) {
    if rs == [] then [] else Encode(crc, rs[0]) + Join(crc, rs[1..])
  }

  /** Records at the offsets where they were appended. */
  function Placed(crc: Checksum, rs: seq<Record>, base: nat): (r: seq<ScannedRecord>)
    ensures |r| == |rs|
  {
    if rs == [] then [] else [ScannedRecord(base, rs[0])] + Placed(crc, rs[1..], base + |Encode(crc, rs[0])|)
  }

  /** How many records lie wholly within the first `n` bytes. */
  function Whole(crc: Checksum, rs: seq<Record>, n: nat): (m: nat)
    ensures m <= |rs|
  {
    if rs == [] || n < |Encode(crc, rs[0])| then 0 else 1 + Whole(crc, rs[1..], n - |Encode(crc, rs[0])|)
  }

  lemma {:induction false} WholeIsLast(crc: Checksum, rs: seq<Record>, n: nat)
    ensures var m := Whole(crc, rs, n);
      && |Join(crc, rs[..m])| <= n && (m < |rs| ==> n < |Join(crc, rs[..m + 1])|)
  {
    hide Encode;
    if rs != [] && n >= |Encode(crc, rs[0])| {
      var k := n - |Encode(crc, rs[0])|;
      WholeIsLast(crc, rs[1..], k);
      var m := Whole(crc, rs, n);
      assert rs[..m][1..] == rs[1..][..m - 1];
      if m < |rs| { assert rs[..m + 1][1..] == rs[1..][..m]; }
    } else if rs != [] {
      assert rs[..1][1..] == [];
    }
  }

  /** Scanning any prefix of concatenated records returns exactly the records wholly inside it,
      ends at the last boundary, and reports a truncated tail exactly when the cut is inside a
      record. */
  lemma {:induction false} PrefixScan(crc: Checksum, rs: seq<Record>, n: nat, base: nat)
    requires RecordsOk(rs) && n <= |Join(crc, rs)|
    ensures var m := Whole(crc, rs, n); var end := |Join(crc, rs[..m])|;
      ScanTail(crc, Join(crc, rs)[..n], base) == Scanned(ScanResult(Placed(crc, rs[..m], base), base + end, n != end))
    decreases |rs|
  {
    hide Encode, Decode, ScanTail;
    if rs == [] || n < |Encode(crc, rs[0])| {
      ScanCut(crc, rs, n, base);
    } else {
      var k, m, len := n - |Encode(crc, rs[0])|, Whole(crc, rs, n), |Encode(crc, rs[0])|;
      PrefixScan(crc, rs[1..], k, base + len);
      assert Join(crc, rs)[..n] == Encode(crc, rs[0]) + Join(crc, rs[1..])[..k];
      ScanFirst(crc, rs[0], Join(crc, rs[1..])[..k], base);
      assert rs[..m][0] == rs[0] && rs[..m][1..] == rs[1..][..m - 1];
    }
  }

  lemma ScanCut(crc: Checksum, rs: seq<Record>, n: nat, base: nat)
    requires RecordsOk(rs) && n <= |Join(crc, rs)| && (rs == [] || n < |Encode(crc, rs[0])|)
    ensures ScanTail(crc, Join(crc, rs)[..n], base) == Scanned(ScanResult([], base, n != 0))
  {
    hide Encode, Decode;
    if rs != [] {
      assert Join(crc, rs)[..n] == Encode(crc, rs[0])[..n];
      CutRecord(crc, rs[0], n);
    }
  }

  lemma ScanFirst(crc: Checksum, r: Record, after: bytes, base: nat)
    requires RecordOk(r)
    ensures ScanTail(crc, Encode(crc, r) + after, base) ==
      Prepend(ScannedRecord(base, r), ScanTail(crc, after, base + |Encode(crc, r)|))
  {
    hide Encode, Decode;
    RecordRoundTrip(crc, r, after);
    assert (Encode(crc, r) + after)[|Encode(crc, r)|..] == after;
  }

  lemma ScanJoined(crc: Checksum, rs: seq<Record>, base: nat)
    requires RecordsOk(rs)
    ensures ScanTail(crc, Join(crc, rs), base) ==
      Scanned(ScanResult(Placed(crc, rs, base), base + |Join(crc, rs)|, false))
  {
    hide Encode, Decode;
    PrefixScan(crc, rs, |Join(crc, rs)|, base);
    WholeIsAll(crc, rs);
    assert Join(crc, rs)[..|Join(crc, rs)|] == Join(crc, rs) && rs[..|rs|] == rs;
  }

  lemma {:induction false} WholeIsAll(crc: Checksum, rs: seq<Record>)
    ensures Whole(crc, rs, |Join(crc, rs)|) == |rs|
  {
    hide Encode;
    if rs == [] {
    } else {
      WholeIsAll(crc, rs[1..]);
    }
  }

  /** Cutting any bytes at the valid end and scanning again finds the same records and no
      truncated tail. */
  lemma {:induction false} Rescan(crc: Checksum, tail: bytes, base: nat)
    requires ScanTail(crc, tail, base).Scanned?
    ensures var s := ScanTail(crc, tail, base).result;
      && base <= s.validEnd <= base + |tail|
      && ScanTail(crc, tail[..s.validEnd - base], base) == Scanned(s.(truncatedTail := false))
    decreases |tail|
  {
    hide Decode;
    if |tail| >= HEADER_LEN && Decode(crc, tail).Ok? {
      var (h, body) := Decode(crc, tail).value;
      var len := HEADER_LEN + |body|;
      Rescan(crc, tail[len..], base + len);
      var end := ScanTail(crc, tail, base).result.validEnd - base;
      DecodeLocal(crc, tail, end);
      assert tail[..end][len..] == tail[len..][..end - len];
    }
  }

  lemma {:induction false} JoinConcat(crc: Checksum, a: seq<Record>, b: seq<Record>)
    ensures Join(crc, a + b) == Join(crc, a) + Join(crc, b)
  {
    hide Encode;
    if a == [] {
      assert a + b == b;
    } else {
      JoinConcat(crc, a[1..], b);
      assert (a + b)[1..] == a[1..] + b;
    }
  }

  // ---- Corruption

  lemma {:induction false} ScanPast(crc: Checksum, rs: seq<Record>, tail: bytes, base: nat)
    requires RecordsOk(rs)
    ensures ScanTail(crc, Join(crc, rs) + tail, base) ==
      PrependAll(Placed(crc, rs, base), ScanTail(crc, tail, base + |Join(crc, rs)|))
    decreases |rs|
  {
    hide Encode, Decode, ScanTail;
    if rs == [] {
      assert Join(crc, rs) + tail == tail;
    } else {
      var rest := Join(crc, rs[1..]) + tail;
      assert Join(crc, rs) + tail == Encode(crc, rs[0]) + rest;
      ScanFirst(crc, rs[0], rest, base);
      ScanPast(crc, rs[1..], tail, base + |Encode(crc, rs[0])|);
    }
  }

  /** Behind any records, a whole record whose checksum is wrong stops the scan at its offset, whatever
      follows it. */
  lemma CorruptStops(crc: Checksum, rs: seq<Record>, h: Header, body: bytes, after: bytes)
    requires RecordsOk(rs) && Acceptable(h) && h.bodyLen == |body|
    requires h.crc != crc(WriteHeader(h.(crc := 0)) + body)
    ensures ScanTail(crc, Join(crc, rs) + (WriteHeader(h) + body + after), 0) == CorruptRecord(|Join(crc, rs)|)
  {
    hide Encode, Decode, WriteHeader;
    HeaderOffsets(h);
    WrongChecksum(crc, h, body, after);
    ScanPast(crc, rs, WriteHeader(h) + body + after, 0);
  }

  /** The bytes of a scanned record: a header that says what the record says, then its body, with the
      right checksum. */
  ghost predicate Stored(crc: Checksum, buf: bytes, at: nat, r: Record, h: Header) {
    && Acceptable(h) && ToRecord(h, r.body) == r && h.bodyLen == |r.body| && at <= |buf|
    && WriteHeader(h) + r.body <= buf[at..] && h.crc == crc(WriteHeader(h.(crc := 0)) + r.body)
  }

  /** Records one behind the other from `at`, ending at `end`. */
  ghost predicate Chained(crc: Checksum, buf: bytes, records: seq<ScannedRecord>, at: nat, end: nat) {
    if records == [] then at == end else
      && records[0].offset == at && (exists h :: Stored(crc, buf, at, records[0].record, h))
      && Chained(crc, buf, records[1..], at + HEADER_LEN + |records[0].record.body|, end)
  }

  /** The bytes break off inside a record: in its header, or in the body that its header announces. */
  ghost predicate BreaksOff(tail: bytes) {
    |tail| < HEADER_LEN || exists h :: Announces(tail, h)
  }

  ghost predicate Announces(tail: bytes, h: Header) {
    Acceptable(h) && WriteHeader(h) <= tail && |tail| < HEADER_LEN + h.bodyLen
  }

  lemma DecodeBreaksOff(crc: Checksum, tail: bytes)
    ensures BreaksOff(tail) <==> Decode(crc, tail) == Err(Truncated) || Decode(crc, tail) == Err(BodyTooShort)
  {
    hide WriteHeader, ReadHeader, RecordCrc;
    if |tail| >= HEADER_LEN {
      var head := tail[..HEADER_LEN];
      if ReadHeader(head).Ok? {
        ReadIsWritten(head);
        var h := ReadHeader(head).value;
        assert Announces(tail, h) <==> |tail| < HEADER_LEN + h.bodyLen;
      } else {
        NeverShort(head);
      }
      forall h | Announces(tail, h) ensures ReadHeader(head) == Ok(h) {
        AcceptableReads(h);
        assert head == WriteHeader(h);
      }
    }
  }

  lemma NeverShort(head: bytes)
    requires |head| == HEADER_LEN
    ensures ReadHeader(head) != Err(Truncated) && ReadHeader(head) != Err(BodyTooShort)
  {
  }

  /** What the scan makes of arbitrary bytes: whole records with right checksums from the start to the valid
      end, where the bytes end or break off. */
  lemma {:induction false} ScannedAreStored(crc: Checksum, buf: bytes, at: nat)
    requires at <= |buf| && ScanTail(crc, buf[at..], at).Scanned?
    ensures var s := ScanTail(crc, buf[at..], at).result;
      && Chained(crc, buf, s.records, at, s.validEnd) && s.validEnd <= |buf|
      && (s.truncatedTail <==> s.validEnd < |buf|) && BreaksOff(buf[s.validEnd..])
    decreases |buf| - at
  {
    hide Decode, WriteHeader, BreaksOff;
    var tail := buf[at..];
    DecodeBreaksOff(crc, tail);
    if |tail| >= HEADER_LEN && Decode(crc, tail).Ok? {
      var (h, body) := Decode(crc, tail).value;
      var len := HEADER_LEN + |body|;
      DecodesIff(crc, tail, h, body);
      assert tail[len..] == buf[at + len..];
      ScannedAreStored(crc, buf, at + len);
      assert Stored(crc, buf, at, ToRecord(h, body), h);
      var s := ScanTail(crc, tail, at).result;
      assert s.records[1..] == ScanTail(crc, buf[at + len..], at + len).result.records;
    } else if |tail| < HEADER_LEN {
      ShortBreaksOff(tail);
    }
  }

  lemma ShortBreaksOff(tail: bytes)
    requires |tail| < HEADER_LEN
    ensures BreaksOff(tail)
  {
  }

  /** Where the scan gives up, there is neither a whole record with a right checksum nor the beginning of
      one; before it there are only such records. */
  lemma {:induction false} CorruptionIsThere(crc: Checksum, buf: bytes, at: nat) returns (records: seq<ScannedRecord>)
    requires at <= |buf| && ScanTail(crc, buf[at..], at).CorruptRecord?
    ensures var end := ScanTail(crc, buf[at..], at).offset;
      && end <= |buf| && Chained(crc, buf, records, at, end) && !BreaksOff(buf[end..])
      && forall r, h :: !Stored(crc, buf, end, r, h)
    decreases |buf| - at
  {
    hide Decode, WriteHeader, BreaksOff;
    var tail := buf[at..];
    DecodeBreaksOff(crc, tail);
    if Decode(crc, tail).Ok? {
      var (h, body) := Decode(crc, tail).value;
      var len := HEADER_LEN + |body|;
      DecodesIff(crc, tail, h, body);
      assert tail[len..] == buf[at + len..];
      var rest := CorruptionIsThere(crc, buf, at + len);
      assert Stored(crc, buf, at, ToRecord(h, body), h);
      records := [ScannedRecord(at, ToRecord(h, body))] + rest;
      assert records[1..] == rest;
    } else {
      records := [];
      forall r, h ensures !Stored(crc, buf, at, r, h) { DecodesIff(crc, tail, h, r.body); }
    }
  }
}
