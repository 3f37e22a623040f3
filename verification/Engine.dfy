/** The append-only storage engine: one payload log, and an index log and an ack ledger per queue,
    all as bytes. */
module StorageEngine {
  import opened IntrusiveList
  import opened Bytes
  import opened Records
  import opened RecordBodies
  import opened SortedMaps
  import opened Recovery
  import opened StoreOps

  const PAYLOAD_STREAM := 1
  const INDEX_STREAM := 0x1_0000_0000
  const ACK_STREAM := 0x2_0000_0000
  const SEGMENT := 1

  // ---- What a history of calls leaves in the logs

  function PayloadRecord(ps: seq<bytes>): (r: Record) {
    Record(PAYLOAD_BATCH, PAYLOAD_STREAM, 0, |ps|, PayloadBody(ps))
  }

  function PayloadRecords(ops: seq<StoreOp>): (rs: seq<Record>) {
    if ops == [] then [] else
      var op := ops[|ops| - 1];
      PayloadRecords(ops[..|ops| - 1]) + if op.AppendPublish? then [PayloadRecord(op.payloads)] else []
  }

  /** Where the next payload record will start. */
  function PayloadEnd(crc: Checksum, ops: seq<StoreOp>): (n: nat) {
    |Join(crc, PayloadRecords(ops))|
  }

  function EntriesFor(q: nat, base: nat, offset: nat, ps: seq<bytes>): (es: seq<IndexEntry>)
    ensures |es| == |ps|
    ensures forall k :: 0 <= k < |ps| ==> es[k] == IndexEntry(q, base + k, PayloadRef(SEGMENT, offset, k, |ps[k]|, 0))
  {
    seq(|ps|, k requires 0 <= k < |ps| => IndexEntry(q, base + k, PayloadRef(SEGMENT, offset, k, |ps[k]|, 0)))
  }

  function IndexRecord(q: nat, es: seq<IndexEntry>): (r: Record) {
    Record(QUEUE_INDEX_BATCH, q + INDEX_STREAM, if es == [] then 0 else es[0].seqNo, |es|, IndexBody(es))
  }

  /** The batches of index entries of one queue. */
  function IndexBatches(crc: Checksum, ops: seq<StoreOp>, q: nat): (bs: seq<seq<IndexEntry>>) {
    if ops == [] then [] else
      var n, op := |ops| - 1, ops[|ops| - 1];
      IndexBatches(crc, ops[..n], q)
      + if op.AppendPublish? && op.queueId == q then [EntriesFor(q, op.base, PayloadEnd(crc, ops[..n]), op.payloads)]
        else []
  }

  function IndexRecords(q: nat, bs: seq<seq<IndexEntry>>): (rs: seq<Record>)
    ensures |rs| == |bs| && forall k :: 0 <= k < |bs| ==> rs[k] == IndexRecord(q, bs[k])
  {
    seq(|bs|, k requires 0 <= k < |bs| => IndexRecord(q, bs[k]))
  }

  function AckRecord(q: nat, es: seq<AckEntry>): (r: Record)
    requires es != [] && es[0].AckRangeEntry?
  {
    Record(ACK_LEDGER_BATCH, q + ACK_STREAM, es[0].start, |es|, AckBody(es))
  }

  function AckEntries(ops: seq<StoreOp>, q: nat): (es: seq<AckEntry>)
    ensures forall k :: 0 <= k < |es| ==> es[k].AckRangeEntry?
  {
    if ops == [] then [] else
      var op := ops[|ops| - 1];
      AckEntries(ops[..|ops| - 1], q)
      + if op.AppendAckRange? && op.queueId == q then [AckRangeEntry(q, op.start, op.len)] else []
  }

  function AckRecords(q: nat, es: seq<AckEntry>): (rs: seq<Record>)
    requires forall k :: 0 <= k < |es| ==> es[k].AckRangeEntry?
    ensures |rs| == |es| && forall k :: 0 <= k < |es| ==> rs[k] == AckRecord(q, [es[k]])
  {
    seq(|es|, k requires 0 <= k < |es| => AckRecord(q, [es[k]]))
  }

  function PayloadLog(crc: Checksum, ops: seq<StoreOp>): (log: bytes) {
    Join(crc, PayloadRecords(ops))
  }

  function IndexLog(crc: Checksum, ops: seq<StoreOp>, q: nat): (log: bytes) {
    Join(crc, IndexRecords(q, IndexBatches(crc, ops, q)))
  }

  function AckLog(crc: Checksum, ops: seq<StoreOp>, q: nat): (log: bytes) {
    Join(crc, AckRecords(q, AckEntries(ops, q)))
  }

  /** Sizes stay within the widths of the wire format. */
  predicate OpOk(op: StoreOp) {
    match op
    case AppendPublish(q, base, ps) =>
      && q < U32_LIMIT && base + |ps| <= U64_LIMIT && PayloadsOk(ps)
      && |PayloadBody(ps)| < U32_LIMIT && 4 + INDEX_ENTRY_LEN * |ps| < U32_LIMIT
    case AppendAckRange(q, start, len) => q < U32_LIMIT && start < U64_LIMIT && len < U32_LIMIT
  }

  ghost predicate OpsOk(crc: Checksum, ops: seq<StoreOp>) {
    && (forall k :: 0 <= k < |ops| ==> OpOk(ops[k]))
    && PayloadEnd(crc, ops) < U64_LIMIT
  }

  function LogOf(logs: map<nat, bytes>, q: nat): (log: bytes) {
    if q in logs then logs[q] else []
  }

  class AppendOnlyStorageEngine {
    const crc: Checksum
    var payload: bytes
    var index: map<nat, bytes>
    var acks: map<nat, bytes>
    ghost var ops: seq<StoreOp>

    /** `read_payload` */
    method ReadPayload(ref: PayloadRef) returns (r: PayloadOutcome)
      ensures r == StoredPayload(crc, payload, ref)
    {
      if ref.offset > |payload| {
        return NoPayload(OutOfBounds);
      }
      var record := Decode(crc, payload[ref.offset..]);
      if record.Err? {
        return NoPayload(TooShort);
      }
      r := DecodePayloadAt(record.value.1, ref.index);
    }

    /** `recover_queue`: scan both logs of the queue and rebuild its image. */
    method RecoverQueue(q: nat) returns (image: Option<Image>)
      requires Valid() && OpsOk(crc, ops) && NonOverlapping(ops)
      ensures image.Some? && Recovers(crc, ops, q, image.value)
    {
      hide ScanTail, IndexLog, AckLog, PayloadLog, OpsOk, NonOverlapping, IndexEntriesOf, AckEntriesOf;
      IndexScansBack(crc, ops, q);
      AcksScanBack(crc, ops, q);
      assert LogOf(index, q) == IndexLog(crc, ops, q) && LogOf(acks, q) == AckLog(crc, ops, q);
      var indexed := ScanIndex(crc, LogOf(index, q));
      var acked := ScanAcks(crc, LogOf(acks, q));
      if indexed.None? || acked.None? {
        return None;
      }
      var built := BuildImage(q, indexed.value, acked.value);
      ImageRecovers(crc, ops, q, built);
      image := Some(built);
    }

    /** The logs hold exactly what the calls so far have put there. */
    ghost predicate Valid()
      reads this
    {
      && payload == PayloadLog(crc, ops)
      && (forall q :: LogOf(index, q) == IndexLog(crc, ops, q))
      && (forall q :: LogOf(acks, q) == AckLog(crc, ops, q))
    }

    constructor (crc: Checksum)
      ensures Valid() && ops == [] && this.crc == crc
    {
      this.crc, payload, index, acks, ops := crc, [], map[], map[], [];
    }

    /** `append_publish` */
    method AppendPublish(q: nat, base: nat, ps: seq<bytes>)
      requires Valid()
      modifies this
      ensures Valid() && ops == old(ops) + [StoreOp.AppendPublish(q, base, ps)]
    {
      hide PayloadLog, IndexLog, AckLog, Encode, PayloadBody, IndexBody;
      PublishLogs(crc, ops, StoreOp.AppendPublish(q, base, ps));
      var body := EncodePayloadBody(ps);
      var offset := |payload|;
      payload := payload + Encode(crc, Record(PAYLOAD_BATCH, PAYLOAD_STREAM, 0, |ps|, body));
      var entries := IndexEntriesFor(q, base, offset, ps);
      var indexBody := EncodeIndexBody(entries);
      var first := if entries == [] then 0 else entries[0].seqNo;
      var wire := Encode(crc, Record(QUEUE_INDEX_BATCH, q + INDEX_STREAM, first, |entries|, indexBody));
      index := index[q := LogOf(index, q) + wire];
      ops := ops + [StoreOp.AppendPublish(q, base, ps)];
    }

    /** `append_ack_range` */
    method AppendAckRange(q: nat, start: nat, len: nat)
      requires Valid()
      modifies this
      ensures Valid() && ops == old(ops) + [StoreOp.AppendAckRange(q, start, len)]
    {
      hide PayloadLog, IndexLog, AckLog, Encode, AckBody;
      var entry := AckRangeEntry(q, start, len);
      var body := EncodeAckBody([entry]);
      AckLogs(crc, ops, StoreOp.AppendAckRange(q, start, len));
      acks := acks[q := LogOf(acks, q) + Encode(crc, Record(ACK_LEDGER_BATCH, q + ACK_STREAM, start, 1, body))];
      ops := ops + [StoreOp.AppendAckRange(q, start, len)];
    }
  }

  lemma JoinOne(crc: Checksum, rs: seq<Record>, r: Record)
    ensures Join(crc, rs + [r]) == Join(crc, rs) + Encode(crc, r)
  {
    hide Encode;
    JoinConcat(crc, rs, [r]);
    assert Join(crc, [r]) == Encode(crc, r) + Join(crc, []);
  }

  method IndexEntriesFor(q: nat, base: nat, offset: nat, ps: seq<bytes>) returns (es: seq<IndexEntry>)
    ensures es == EntriesFor(q, base, offset, ps)
  {
    es := [];
    for k := 0 to |ps|
      invariant es == EntriesFor(q, base, offset, ps)[..k]
    {
      es := es + [IndexEntry(q, base + k, PayloadRef(SEGMENT, offset, k, |ps[k]|, 0))];
    }
  }

  /** How one publish call extends the three kinds of logs. */
  lemma PublishLogs(crc: Checksum, ops: seq<StoreOp>, op: StoreOp)
    requires op.AppendPublish?
    ensures PayloadLog(crc, ops + [op]) == PayloadLog(crc, ops) + Encode(crc, PayloadRecord(op.payloads))
    ensures var entries := EntriesFor(op.queueId, op.base, |PayloadLog(crc, ops)|, op.payloads);
      IndexLog(crc, ops + [op], op.queueId) ==
        IndexLog(crc, ops, op.queueId) + Encode(crc, IndexRecord(op.queueId, entries))
    ensures forall x :: x != op.queueId ==> IndexLog(crc, ops + [op], x) == IndexLog(crc, ops, x)
    ensures forall x :: AckLog(crc, ops + [op], x) == AckLog(crc, ops, x)
  {
    hide Join, Encode, PayloadBody, IndexBody;
    var next, q := ops + [op], op.queueId;
    assert next[..|ops|] == ops;
    JoinOne(crc, PayloadRecords(ops), PayloadRecord(op.payloads));
    var bs, es := IndexBatches(crc, ops, q), EntriesFor(q, op.base, PayloadEnd(crc, ops), op.payloads);
    assert IndexRecords(q, bs + [es]) == IndexRecords(q, bs) + [IndexRecord(q, es)];
    JoinOne(crc, IndexRecords(q, bs), IndexRecord(q, es));
    forall x | x != q ensures IndexLog(crc, next, x) == IndexLog(crc, ops, x) {
      assert IndexBatches(crc, next, x) == IndexBatches(crc, ops, x);
    }
    forall x ensures AckLog(crc, next, x) == AckLog(crc, ops, x) { assert AckEntries(next, x) == AckEntries(ops, x); }
  }

  lemma AckLogs(crc: Checksum, ops: seq<StoreOp>, op: StoreOp)
    requires op.AppendAckRange?
    ensures PayloadLog(crc, ops + [op]) == PayloadLog(crc, ops)
    ensures forall x :: IndexLog(crc, ops + [op], x) == IndexLog(crc, ops, x)
    ensures AckLog(crc, ops + [op], op.queueId) ==
      AckLog(crc, ops, op.queueId) + Encode(crc, AckRecord(op.queueId, [AckRangeEntry(op.queueId, op.start, op.len)]))
    ensures forall x :: x != op.queueId ==> AckLog(crc, ops + [op], x) == AckLog(crc, ops, x)
  {
    hide Join, Encode, AckBody;
    var next, q, e := ops + [op], op.queueId, AckRangeEntry(op.queueId, op.start, op.len);
    assert next[..|ops|] == ops;
    assert PayloadRecords(next) == PayloadRecords(ops);
    forall x ensures IndexLog(crc, next, x) == IndexLog(crc, ops, x) {
      assert IndexBatches(crc, next, x) == IndexBatches(crc, ops, x);
    }
    var es := AckEntries(ops, q);
    assert AckEntries(next, q) == es + [e];
    assert AckRecords(q, es + [e]) == AckRecords(q, es) + [AckRecord(q, [e])];
    JoinOne(crc, AckRecords(q, es), AckRecord(q, [e]));
    forall x | x != q ensures AckLog(crc, next, x) == AckLog(crc, ops, x) {
      assert AckEntries(next, x) == AckEntries(ops, x);
    }
  }

  // ---- Reading the logs back

  function Flatten<T>(bs: seq<seq<T>>): (r: seq<T>) {
    if bs == [] then [] else Flatten(bs[..|bs| - 1]) + bs[|bs| - 1]
  }

  function IndexEntriesOf(rs: seq<ScannedRecord>): (es: seq<IndexEntry>) {
    if rs == [] then [] else
      var n := |rs| - 1;
      IndexEntriesOf(rs[..n]) + if rs[n].record.kind == QUEUE_INDEX_BATCH then IndexEntriesIn(rs[n].record.body) else []
  }

  function AckEntriesOf(rs: seq<ScannedRecord>): (es: seq<AckEntry>) {
    if rs == [] then [] else
      var n := |rs| - 1;
      AckEntriesOf(rs[..n]) + if rs[n].record.kind == ACK_LEDGER_BATCH then AckEntriesIn(rs[n].record.body) else []
  }

  /** `QueueIndexLog::scan_entries`; `None` when a record is corrupt. */
  method ScanIndex(crc: Checksum, log: bytes) returns (r: Option<seq<IndexEntry>>)
    ensures r == match ScanTail(crc, log, 0)
      case Scanned(s) => Some(IndexEntriesOf(s.records))
      case CorruptRecord(_) => None
  {
    hide ScanTail, IndexEntriesIn;
    var scan := ScanSegment(crc, log);
    if scan.CorruptRecord? {
      return None;
    }
    var rs, out := scan.result.records, [];
    for k := 0 to |rs|
      invariant out == IndexEntriesOf(rs[..k])
    {
      assert rs[..k + 1][..k] == rs[..k];
      if rs[k].record.kind == QUEUE_INDEX_BATCH {
        var es := DecodeIndexBody(rs[k].record.body);
        out := out + es;
      }
    }
    assert rs[..|rs|] == rs;
    r := Some(out);
  }

  /** `AckLedgerLog::scan_entries` */
  method ScanAcks(crc: Checksum, log: bytes) returns (r: Option<seq<AckEntry>>)
    ensures r == match ScanTail(crc, log, 0)
      case Scanned(s) => Some(AckEntriesOf(s.records))
      case CorruptRecord(_) => None
  {
    hide ScanTail, AckEntriesIn;
    var scan := ScanSegment(crc, log);
    if scan.CorruptRecord? {
      return None;
    }
    var rs, out := scan.result.records, [];
    for k := 0 to |rs|
      invariant out == AckEntriesOf(rs[..k])
    {
      assert rs[..k + 1][..k] == rs[..k];
      if rs[k].record.kind == ACK_LEDGER_BATCH {
        var es := DecodeAckBody(rs[k].record.body);
        out := out + es;
      }
    }
    assert rs[..|rs|] == rs;
    r := Some(out);
  }

  lemma {:induction false} PlacedRecord(crc: Checksum, rs: seq<Record>, base: nat, k: nat)
    requires k < |rs|
    ensures Placed(crc, rs, base)[k].record == rs[k]
    decreases k
  {
    if k == 0 {
    } else {
      PlacedRecord(crc, rs[1..], base + |Encode(crc, rs[0])|, k - 1);
    }
  }

  /** Every index record decodes to its batch. */
  lemma {:induction false} IndexComesBack(q: nat, bs: seq<seq<IndexEntry>>, rs: seq<ScannedRecord>, n: nat)
    requires |rs| == |bs| && n <= |bs|
    requires forall k :: 0 <= k < |bs| ==> rs[k].record == IndexRecord(q, bs[k]) && IndexEntriesOk(bs[k])
    ensures IndexEntriesOf(rs[..n]) == Flatten(bs[..n])
  {
    hide IndexEntriesIn, IndexBody, IndexEntriesOk;
    if n == 0 {
    } else {
      IndexComesBack(q, bs, rs, n - 1);
      IndexRoundTrip(bs[n - 1]);
      assert rs[..n][..n - 1] == rs[..n - 1] && bs[..n][..n - 1] == bs[..n - 1];
    }
  }

  lemma {:induction false} AcksComeBack(q: nat, es: seq<AckEntry>, rs: seq<ScannedRecord>, n: nat)
    requires |rs| == |es| && n <= |es|
    requires forall k :: 0 <= k < |es| ==>
      es[k].AckRangeEntry? && AckEntryOk(es[k]) && rs[k].record == AckRecord(q, [es[k]])
    ensures AckEntriesOf(rs[..n]) == es[..n]
  {
    hide AckEntriesIn, AckBody;
    if n == 0 {
    } else {
      AcksComeBack(q, es, rs, n - 1);
      AckRoundTrip([es[n - 1]]);
      assert rs[..n][..n - 1] == rs[..n - 1];
      assert es[..n] == es[..n - 1] + [es[n - 1]];
    }
  }

  lemma {:induction false} BatchesOk(crc: Checksum, ops: seq<StoreOp>, q: nat)
    requires OpsOk(crc, ops)
    ensures forall k :: 0 <= k < |IndexBatches(crc, ops, q)| ==>
      IndexEntriesOk(IndexBatches(crc, ops, q)[k]) && RecordOk(IndexRecord(q, IndexBatches(crc, ops, q)[k]))
  {
    hide PayloadEnd, PayloadBody, IndexBody;
    if ops == [] {
    } else {
      var n, op := |ops| - 1, ops[|ops| - 1];
      PrefixOk(crc, ops);
      BatchesOk(crc, ops[..n], q);
      if op.AppendPublish? && op.queueId == q { BatchOk(op, PayloadEnd(crc, ops[..n])); }
    }
  }

  lemma BatchOk(op: StoreOp, offset: nat)
    requires op.AppendPublish? && OpOk(op) && offset < U64_LIMIT
    ensures var es := EntriesFor(op.queueId, op.base, offset, op.payloads);
      IndexEntriesOk(es) && RecordOk(IndexRecord(op.queueId, es))
  {
    hide PayloadBody;
  }

  lemma PrefixOk(crc: Checksum, ops: seq<StoreOp>)
    requires OpsOk(crc, ops) && ops != []
    ensures OpsOk(crc, ops[..|ops| - 1]) && OpOk(ops[|ops| - 1])
  {
    hide OpOk, Encode;
    var n := |ops| - 1;
    assert ops == ops[..n] + [ops[n]];
    if ops[n].AppendPublish? { PublishLogs(crc, ops[..n], ops[n]); } else { AckLogs(crc, ops[..n], ops[n]); }
  }

  lemma IndexScansBack(crc: Checksum, ops: seq<StoreOp>, q: nat)
    requires OpsOk(crc, ops)
    ensures var s := ScanTail(crc, IndexLog(crc, ops, q), 0);
      s.Scanned? && IndexEntriesOf(s.result.records) == Flatten(IndexBatches(crc, ops, q))
  {
    hide ScanTail, Join, Placed, OpsOk, IndexBody;
    var bs := IndexBatches(crc, ops, q);
    var rs := IndexRecords(q, bs);
    BatchesOk(crc, ops, q);
    ScanJoined(crc, rs, 0);
    var placed := Placed(crc, rs, 0);
    forall k | 0 <= k < |bs| ensures placed[k].record == IndexRecord(q, bs[k]) { PlacedRecord(crc, rs, 0, k); }
    IndexComesBack(q, bs, placed, |bs|);
    assert placed[..|bs|] == placed && bs[..|bs|] == bs;
  }

  lemma {:induction false} AcksOk(crc: Checksum, ops: seq<StoreOp>, q: nat)
    requires OpsOk(crc, ops)
    ensures forall k :: 0 <= k < |AckEntries(ops, q)| ==>
      AckEntryOk(AckEntries(ops, q)[k]) && RecordOk(AckRecord(q, [AckEntries(ops, q)[k]]))
  {
    hide AckBody;
    if ops == [] {
    } else {
      PrefixOk(crc, ops);
      AcksOk(crc, ops[..|ops| - 1], q);
      var op := ops[|ops| - 1];
      if op.AppendAckRange? && op.queueId == q { OneAckOk(op); }
    }
  }

  lemma OneAckOk(op: StoreOp)
    requires op.AppendAckRange? && OpOk(op)
    ensures var e := AckRangeEntry(op.queueId, op.start, op.len); AckEntryOk(e) && RecordOk(AckRecord(op.queueId, [e]))
  {
    var e := AckRangeEntry(op.queueId, op.start, op.len);
    AckOffsets(e);
    assert [e][1..] == [];
    assert AckEntriesBytes([e]) == AckEntryBytes(e) + AckEntriesBytes([]);
    assert |AckEntryBytes(e)| == 17;
  }

  lemma AcksScanBack(crc: Checksum, ops: seq<StoreOp>, q: nat)
    requires OpsOk(crc, ops)
    ensures var s := ScanTail(crc, AckLog(crc, ops, q), 0);
      s.Scanned? && AckEntriesOf(s.result.records) == AckEntries(ops, q)
  {
    hide ScanTail, Join, Placed, OpsOk, AckBody;
    var es := AckEntries(ops, q);
    var rs := AckRecords(q, es);
    AcksOk(crc, ops, q);
    ScanJoined(crc, rs, 0);
    var placed := Placed(crc, rs, 0);
    forall k | 0 <= k < |es| ensures placed[k].record == AckRecord(q, [es[k]]) { PlacedRecord(crc, rs, 0, k); }
    AcksComeBack(q, es, placed, |es|);
    assert placed[..|es|] == placed && es[..|es|] == es;
  }

  // ---- What the entries mean

  /** Call `k` published message `i` of queue `q`. */
  ghost predicate PublishedBy(ops: seq<StoreOp>, k: nat, q: nat, i: nat) {
    k < |ops| && ops[k].AppendPublish? && ops[k].queueId == q && ops[k].base <= i < ops[k].base + |ops[k].payloads|
  }

  ghost predicate Published(ops: seq<StoreOp>, q: nat, i: nat) {
    exists k :: PublishedBy(ops, k, q, i)
  }

  /** No message is published twice. */
  ghost predicate NonOverlapping(ops: seq<StoreOp>) {
    forall j, k, q, i :: PublishedBy(ops, j, q, i) && PublishedBy(ops, k, q, i) ==> j == k
  }

  /** The reference call `k` gave message `i`. */
  ghost function RefOf(crc: Checksum, ops: seq<StoreOp>, k: nat, i: nat): (ref: PayloadRef)
    requires k < |ops| && ops[k].AppendPublish? && ops[k].base <= i < ops[k].base + |ops[k].payloads|
  {
    var j := i - ops[k].base;
    PayloadRef(SEGMENT, PayloadEnd(crc, ops[..k]), j, |ops[k].payloads[j]|, 0)
  }

  ghost function Entries(crc: Checksum, ops: seq<StoreOp>, q: nat): (es: seq<IndexEntry>) {
    Flatten(IndexBatches(crc, ops, q))
  }

  lemma EntriesNext(crc: Checksum, ops: seq<StoreOp>, op: StoreOp, q: nat)
    ensures Entries(crc, ops + [op], q) == Entries(crc, ops, q)
      + if op.AppendPublish? && op.queueId == q then EntriesFor(q, op.base, PayloadEnd(crc, ops), op.payloads) else []
  {
    hide PayloadEnd;
    assert (ops + [op])[..|ops|] == ops;
    var bs := IndexBatches(crc, ops, q);
    if op.AppendPublish? && op.queueId == q {
      var es := EntriesFor(q, op.base, PayloadEnd(crc, ops), op.payloads);
      assert (bs + [es])[..|bs|] == bs;
    } else {
      assert IndexBatches(crc, ops + [op], q) == bs;
    }
  }

  lemma EarlierPublished(crc: Checksum, ops: seq<StoreOp>, op: StoreOp, k: nat, q: nat, i: nat)
    requires k < |ops|
    ensures PublishedBy(ops + [op], k, q, i) <==> PublishedBy(ops, k, q, i)
    ensures PublishedBy(ops, k, q, i) ==> RefOf(crc, ops + [op], k, i) == RefOf(crc, ops, k, i)
  {
    hide PayloadEnd;
    assert (ops + [op])[k] == ops[k] && (ops + [op])[..k] == ops[..k];
  }

  /** An index entry of a queue says which call published which message, and where its payload is. */
  lemma {:induction false} EntryMeans(crc: Checksum, ops: seq<StoreOp>, q: nat, e: IndexEntry)
    ensures e in Entries(crc, ops, q) <==>
      e.queueId == q && exists k: nat :: PublishedBy(ops, k, q, e.seqNo) && e.ref == RefOf(crc, ops, k, e.seqNo)
    decreases |ops|
  {
    hide Entries, PayloadEnd, RefOf;
    if ops == [] {
      NoEntries(crc, q);
    } else {
      var n := |ops| - 1;
      var before, op := ops[..n], ops[n];
      assert ops == before + [op];
      EntryMeans(crc, before, q, e);
      EntriesNext(crc, before, op, q);
      forall k: nat | k < n
        ensures PublishedBy(ops, k, q, e.seqNo) <==> PublishedBy(before, k, q, e.seqNo)
        ensures PublishedBy(before, k, q, e.seqNo) ==> RefOf(crc, ops, k, e.seqNo) == RefOf(crc, before, k, e.seqNo)
      {
        EarlierPublished(crc, before, op, k, q, e.seqNo);
      }
      NewEntries(crc, ops, q, e);
    }
  }

  lemma NoEntries(crc: Checksum, q: nat)
    ensures Entries(crc, [], q) == []
  {
  }

  /** The entries of the last call. */
  lemma NewEntries(crc: Checksum, ops: seq<StoreOp>, q: nat, e: IndexEntry)
    requires ops != []
    ensures var n, op := |ops| - 1, ops[|ops| - 1];
      (op.AppendPublish? && op.queueId == q && e in EntriesFor(q, op.base, PayloadEnd(crc, ops[..n]), op.payloads))
      <==> (e.queueId == q && PublishedBy(ops, n, q, e.seqNo) && e.ref == RefOf(crc, ops, n, e.seqNo))
  {
    hide PayloadEnd;
    var n, op := |ops| - 1, ops[|ops| - 1];
    if PublishedBy(ops, n, q, e.seqNo) && e.queueId == q && e.ref == RefOf(crc, ops, n, e.seqNo) {
      assert EntriesFor(q, op.base, PayloadEnd(crc, ops[..n]), op.payloads)[e.seqNo - op.base] == e;
    }
  }

  ghost predicate UniqueSeqs(es: seq<IndexEntry>, q: nat) {
    && (forall k :: 0 <= k < |es| ==> es[k].queueId == q)
    && (forall j, k :: 0 <= j < k < |es| ==> es[j].seqNo != es[k].seqNo)
  }

  lemma {:induction false} EntriesUnique(crc: Checksum, ops: seq<StoreOp>, q: nat)
    requires NonOverlapping(ops)
    ensures UniqueSeqs(Entries(crc, ops, q), q)
    decreases |ops|
  {
    hide Entries, PayloadEnd, RefOf, NonOverlapping;
    if ops == [] {
      NoEntries(crc, q);
    } else {
      var n := |ops| - 1;
      var before, op := ops[..n], ops[n];
      assert ops == before + [op];
      NonOverlappingPrefix(ops);
      EntriesUnique(crc, before, q);
      EntriesNext(crc, before, op, q);
      var old' := Entries(crc, before, q);
      var ours := op.AppendPublish? && op.queueId == q;
      var new' := if ours then EntriesFor(q, op.base, PayloadEnd(crc, before), op.payloads) else [];
      forall j, k | 0 <= j < |old'| && 0 <= k < |new'| ensures old'[j].seqNo != new'[k].seqNo {
        assert old'[j] in old';
        EntryMeans(crc, before, q, old'[j]);
        OnlyOnce(ops, q, old'[j].seqNo);
      }
    }
  }

  lemma NonOverlappingPrefix(ops: seq<StoreOp>)
    requires NonOverlapping(ops) && ops != []
    ensures NonOverlapping(ops[..|ops| - 1])
  {
    var before := ops[..|ops| - 1];
    forall j, k, q, i | PublishedBy(before, j, q, i) && PublishedBy(before, k, q, i) ensures j == k {
      assert PublishedBy(ops, j, q, i) && PublishedBy(ops, k, q, i);
    }
  }

  /** What an earlier call published the last one did not. */
  lemma OnlyOnce(ops: seq<StoreOp>, q: nat, i: nat)
    requires NonOverlapping(ops) && ops != [] && Published(ops[..|ops| - 1], q, i)
    ensures !PublishedBy(ops, |ops| - 1, q, i)
  {
    var k :| PublishedBy(ops[..|ops| - 1], k, q, i);
    assert PublishedBy(ops, k, q, i);
  }

  lemma UniqueIsLast(es: seq<IndexEntry>, q: nat, i: nat, ref: PayloadRef)
    requires UniqueSeqs(es, q)
    ensures LastEntry(es, q, i, ref) <==> IndexEntry(q, i, ref) in es
  {
    if IndexEntry(q, i, ref) in es {
      var k :| 0 <= k < |es| && es[k] == IndexEntry(q, i, ref);
      assert NoneAfter(es, k, q, i);
    }
  }

  lemma {:induction false} SettledMeans(ops: seq<StoreOp>, q: nat, i: nat)
    ensures SettledIn(AckEntries(ops, q), q, i) <==> AckedIn(ops, q, i)
    decreases |ops|
  {
    hide AckedIn;
    if ops == [] {
      NoAcks(q, i);
    } else {
      var n := |ops| - 1;
      var before, op := ops[..n], ops[n];
      assert ops == before + [op];
      SettledMeans(before, q, i);
      AckedAppend(before, op, q, i);
      var es := AckEntries(before, q);
      if op.AppendAckRange? && op.queueId == q {
        var r := es + [AckRangeEntry(q, op.start, op.len)];
        assert AckEntries(ops, q) == r && r[..|es|] == es && r[..|es| + 1] == r;
        SettledNext(r, |es|, q, i);
      } else {
        assert AckEntries(ops, q) == es;
      }
    }
  }

  lemma NoAcks(q: nat, i: nat)
    ensures !SettledIn(AckEntries([], q), q, i) && !AckedIn([], q, i)
  {
  }

  // ---- Payloads

  /** `read_payload`: the batch record at the reference's offset, then the payload by its index. */
  function StoredPayload(crc: Checksum, log: bytes, ref: PayloadRef): (r: PayloadOutcome) {
    if ref.offset > |log| then NoPayload(OutOfBounds) else
    var record := Decode(crc, log[ref.offset..]);
    if record.Err? then NoPayload(TooShort) else PayloadAt(record.value.1, ref.index)
  }

  /** What follows a position is found there again after more has been appended. */
  lemma SliceThrough(log: bytes, more: bytes, start: nat, record: bytes, rest: bytes)
    requires start <= |log| && log[start..] == record + rest
    ensures (log + more)[start..] == record + (rest + more)
  {
    assert (log + more)[start..] == log[start..] + more;
  }

  lemma SliceEnd(log: bytes, more: bytes)
    ensures (log + more)[|log|..] == more + []
  {
  }

  lemma LogGrows(crc: Checksum, ops: seq<StoreOp>) returns (more: bytes)
    requires ops != []
    ensures PayloadLog(crc, ops) == PayloadLog(crc, ops[..|ops| - 1]) + more
    ensures ops[|ops| - 1].AppendPublish? ==> more == Encode(crc, PayloadRecord(ops[|ops| - 1].payloads))
  {
    hide Encode, PayloadLog;
    var before, op := ops[..|ops| - 1], ops[|ops| - 1];
    assert ops == before + [op];
    if op.AppendPublish? {
      PublishLogs(crc, before, op);
      more := Encode(crc, PayloadRecord(op.payloads));
    } else {
      AckLogs(crc, before, op);
      more := [];
    }
  }

  lemma {:induction false} PayloadLogAt(crc: Checksum, ops: seq<StoreOp>, k: nat) returns (after: bytes)
    requires k < |ops| && ops[k].AppendPublish?
    ensures PayloadEnd(crc, ops[..k]) <= |PayloadLog(crc, ops)|
    ensures PayloadLog(crc, ops)[PayloadEnd(crc, ops[..k])..] == Encode(crc, PayloadRecord(ops[k].payloads)) + after
    decreases |ops|
  {
    hide Encode, PayloadLog, PayloadEnd;
    var n := |ops| - 1;
    var log, start := PayloadLog(crc, ops[..n]), PayloadEnd(crc, ops[..k]);
    var more := LogGrows(crc, ops);
    if k == n {
      EndIsLength(crc, ops[..n]);
      SliceEnd(log, more);
      after := [];
    } else {
      assert ops[..n][..k] == ops[..k];
      var rest := PayloadLogAt(crc, ops[..n], k);
      SliceThrough(log, more, start, Encode(crc, PayloadRecord(ops[k].payloads)), rest);
      after := rest + more;
    }
  }

  lemma EndIsLength(crc: Checksum, ops: seq<StoreOp>)
    ensures PayloadEnd(crc, ops) == |PayloadLog(crc, ops)|
  {
  }

  /** Every reference given out reads back its own bytes, however much was appended since. */
  lemma PayloadReadsBack(crc: Checksum, ops: seq<StoreOp>, k: nat, i: nat)
    requires OpsOk(crc, ops) && k < |ops| && ops[k].AppendPublish? && ops[k].base <= i < ops[k].base + |ops[k].payloads|
    ensures StoredPayload(crc, PayloadLog(crc, ops), RefOf(crc, ops, k, i)) == Payload(ops[k].payloads[i - ops[k].base])
  {
    hide Encode, Decode, PayloadAt, PayloadLog, PayloadEnd, PayloadBody;
    var after := PayloadLogAt(crc, ops, k);
    var r := PayloadRecord(ops[k].payloads);
    assert OpOk(ops[k]);
    RecordRoundTrip(crc, r, after);
    PayloadRoundTrip(ops[k].payloads, i - ops[k].base);
  }

  // ---- Recovery

  /** Recovery yields exactly the published messages that are not acknowledged, in ascending order,
      each with a reference that reads back its own bytes, and the next sequence number. */
  ghost predicate Recovers(crc: Checksum, ops: seq<StoreOp>, q: nat, image: Image) {
    && image.queueId == q && Sorted(image.ready)
    && (forall i: nat :: Has(image.ready, i) <==> Published(ops, q, i) && !AckedIn(ops, q, i))
    && (forall b, k: nat :: b in image.ready && PublishedBy(ops, k, q, b.key) ==>
      StoredPayload(crc, PayloadLog(crc, ops), b.value) == Payload(ops[k].payloads[b.key - ops[k].base]))
    && (forall i: nat :: Published(ops, q, i) ==> i < image.nextSeq)
    && (image.nextSeq > 0 ==> Published(ops, q, image.nextSeq - 1))
  }

  /** A message is in the index exactly with the reference of the call that published it. */
  lemma LastMeans(crc: Checksum, ops: seq<StoreOp>, q: nat, i: nat, ref: PayloadRef)
    requires NonOverlapping(ops)
    ensures LastEntry(Entries(crc, ops, q), q, i, ref) <==>
      exists k: nat :: PublishedBy(ops, k, q, i) && ref == RefOf(crc, ops, k, i)
  {
    hide Entries, LastEntry, NonOverlapping, RefOf;
    EntriesUnique(crc, ops, q);
    UniqueIsLast(Entries(crc, ops, q), q, i, ref);
    EntryMeans(crc, ops, q, IndexEntry(q, i, ref));
  }

  lemma ReadyMeans(crc: Checksum, ops: seq<StoreOp>, q: nat, image: Image, i: nat)
    requires NonOverlapping(ops) && ImageOf(image, q, Entries(crc, ops, q), AckEntries(ops, q))
    ensures Has(image.ready, i) <==> Published(ops, q, i) && !AckedIn(ops, q, i)
  {
    hide Entries, LastEntry, NonOverlapping, RefOf, AckedIn, SettledIn, Sorted;
    SettledMeans(ops, q, i);
    if Has(image.ready, i) {
      var k :| 0 <= k < |image.ready| && image.ready[k].key == i;
      assert image.ready[k] in image.ready;
      LastMeans(crc, ops, q, i, image.ready[k].value);
    }
    if Published(ops, q, i) && !AckedIn(ops, q, i) {
      var k: nat :| PublishedBy(ops, k, q, i);
      var b := Binding(i, RefOf(crc, ops, k, i));
      LastMeans(crc, ops, q, i, b.value);
      assert LastEntry(Entries(crc, ops, q), q, b.key, b.value);
      assert b in image.ready;
    }
  }

  lemma ReadyReads(crc: Checksum, ops: seq<StoreOp>, q: nat, image: Image, b: Binding<PayloadRef>, k: nat)
    requires OpsOk(crc, ops) && NonOverlapping(ops) && ImageOf(image, q, Entries(crc, ops, q), AckEntries(ops, q))
    requires b in image.ready && PublishedBy(ops, k, q, b.key)
    ensures StoredPayload(crc, PayloadLog(crc, ops), b.value) == Payload(ops[k].payloads[b.key - ops[k].base])
  {
    hide Entries, LastEntry, RefOf, AckedIn, SettledIn, Sorted, StoredPayload, PayloadLog, OpsOk;
    LastMeans(crc, ops, q, b.key, b.value);
    var j: nat :| PublishedBy(ops, j, q, b.key) && b.value == RefOf(crc, ops, j, b.key);
    assert j == k;
    PayloadReadsBack(crc, ops, k, b.key);
  }

  lemma NextSeqMeans(crc: Checksum, ops: seq<StoreOp>, q: nat, image: Image)
    requires ImageOf(image, q, Entries(crc, ops, q), AckEntries(ops, q))
    ensures forall i: nat :: Published(ops, q, i) ==> i < image.nextSeq
    ensures image.nextSeq > 0 ==> Published(ops, q, image.nextSeq - 1)
  {
    hide Entries, LastEntry, RefOf, AckedIn, SettledIn, Sorted;
    var es := Entries(crc, ops, q);
    forall i: nat | Published(ops, q, i) ensures i < image.nextSeq {
      var k: nat :| PublishedBy(ops, k, q, i);
      var e := IndexEntry(q, i, RefOf(crc, ops, k, i));
      EntryMeans(crc, ops, q, e);
      var j :| 0 <= j < |es| && es[j] == e;
    }
    if image.nextSeq > 0 {
      var j :| 0 <= j < |es| && es[j].queueId == q && es[j].seqNo == image.nextSeq - 1;
      assert es[j] in es;
      EntryMeans(crc, ops, q, es[j]);
    }
  }

  lemma ImageRecovers(crc: Checksum, ops: seq<StoreOp>, q: nat, image: Image)
    requires OpsOk(crc, ops) && NonOverlapping(ops) && ImageOf(image, q, Entries(crc, ops, q), AckEntries(ops, q))
    ensures Recovers(crc, ops, q, image)
  {
    hide Entries, LastEntry, AckedIn, SettledIn, Sorted, StoredPayload, PayloadLog, OpsOk, Has, Published,
      NonOverlapping;
    forall i: nat ensures Has(image.ready, i) <==> Published(ops, q, i) && !AckedIn(ops, q, i) {
      ReadyMeans(crc, ops, q, image, i);
    }
    forall b, k: nat | b in image.ready && PublishedBy(ops, k, q, b.key)
      ensures StoredPayload(crc, PayloadLog(crc, ops), b.value) == Payload(ops[k].payloads[b.key - ops[k].base])
    {
      ReadyReads(crc, ops, q, image, b, k);
    }
    NextSeqMeans(crc, ops, q, image);
  }
}
