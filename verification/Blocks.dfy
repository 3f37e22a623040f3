/** Message blocks: 256 messages as rows of machine words, their summary word masks, and the
    message states a row of blocks stands for. */
module Blocks {
  import opened Words
  import opened Kernels
  import opened IntrusiveList
  import opened QueueSpec

  const WORDS_PER_BLOCK: nat := 4

  datatype MsgBlock = MsgBlock(
    baseSeq: nat, inflight: seq<u64>, acked: seq<u64>, retry: seq<u64>, sparseReady: seq<u64>, redelivered: seq<u64>,
    retryWordMask: u64, sparseWordMask: u64)

  function NewBlock(baseSeq: nat): (b: MsgBlock) {
    var zero: seq<u64> := [0, 0, 0, 0];
    MsgBlock(baseSeq, zero, zero, zero, zero, zero, 0, 0)
  }

  /** `locate`: a sequence number as block and bit. */
  function Locate(i: nat): (r: (nat, nat))
    ensures r.1 < MSGS_PER_BLOCK && i == r.0 * MSGS_PER_BLOCK + r.1
  {
    (i / MSGS_PER_BLOCK, i % MSGS_PER_BLOCK)
  }

  /** The state `debug_state_of` reads off the rows, in its order of tests. */
  function BlockState(b: MsgBlock, p: nat): (st: Option<MsgState>) {
    if HasBit(b.acked, p) then Some(Acked)
    else if HasBit(b.inflight, p) then Some(Inflight)
    else if HasBit(b.retry, p) then Some(Retry)
    else if HasBit(b.sparseReady, p) then Some(SparseReady)
    else None
  }

  /** Bit `p` is set in at most one state row, in one exactly when the message was delivered at
      least once, and a message put back for redelivery carries the redelivered mark. */
  ghost predicate BitOk(b: MsgBlock, p: nat, head: nat) {
    var st := BlockState(b, p);
    && (HasBit(b.acked, p) <==> st == Some(Acked))
    && (HasBit(b.inflight, p) <==> st == Some(Inflight))
    && (HasBit(b.retry, p) <==> st == Some(Retry))
    && (HasBit(b.sparseReady, p) <==> st == Some(SparseReady))
    && (st.Some? <==> b.baseSeq + p < head)
    && (st == Some(SparseReady) ==> HasBit(b.redelivered, p))
    && (HasBit(b.redelivered, p) ==> b.baseSeq + p < head)
  }

  /** Bit `w` of the summary mask says whether word `w` of the row is non-empty. */
  ghost predicate MaskOk(words: seq<u64>, mask: u64) {
    forall w: nat :: Bit(mask, w) <==> w < |words| && words[w] != 0
  }

  ghost predicate RowsOk(b: MsgBlock) {
    && |b.inflight| == |b.acked| == |b.retry| == |b.sparseReady| == |b.redelivered| == WORDS_PER_BLOCK
    && MaskOk(b.retry, b.retryWordMask)
    && MaskOk(b.sparseReady, b.sparseWordMask)
  }

  ghost predicate BlockOk(b: MsgBlock, head: nat) {
    RowsOk(b) && forall p: nat {:trigger BitOk(b, p, head)} :: p < MSGS_PER_BLOCK ==> BitOk(b, p, head)
  }

  ghost predicate BlocksOk(blocks: seq<MsgBlock>, head: nat, total: nat) {
    && head <= total
    && total <= |blocks| * MSGS_PER_BLOCK < total + MSGS_PER_BLOCK
    && forall k {:trigger blocks[k]} :: 0 <= k < |blocks| ==>
      blocks[k].baseSeq == k * MSGS_PER_BLOCK && BlockOk(blocks[k], head)
  }

  /** `debug_state_of` for a published message. */
  ghost function StateOf(blocks: seq<MsgBlock>, head: nat, total: nat, i: nat): (st: MsgState)
    requires BlocksOk(blocks, head, total) && i < total
  {
    if i >= head then Ready else
      var (k, p) := Locate(i);
      assert BitOk(blocks[k], p, head);
      BlockState(blocks[k], p).value
  }

  ghost function States(blocks: seq<MsgBlock>, head: nat, total: nat): (r: seq<MsgState>)
    requires BlocksOk(blocks, head, total)
    ensures |r| == total
  {
    seq(total, i requires 0 <= i < total => StateOf(blocks, head, total, i))
  }

  ghost predicate Marked(blocks: seq<MsgBlock>, i: nat) {
    i / MSGS_PER_BLOCK < |blocks| && HasBit(blocks[i / MSGS_PER_BLOCK].redelivered, i % MSGS_PER_BLOCK)
  }

  ghost function Redelivered(blocks: seq<MsgBlock>, total: nat): (r: set<nat>) {
    set i | 0 <= i < total && Marked(blocks, i)
  }

  // ---- Changing one block

  /** Block `b'` is `b` with the messages `seqs` moved to `st`. */
  ghost predicate Moved(b: MsgBlock, b': MsgBlock, head: nat, seqs: seq<nat>, st: MsgState) {
    && b'.baseSeq == b.baseSeq
    && BlockOk(b', head)
    && (forall p: nat {:trigger BlockState(b', p)} :: p < MSGS_PER_BLOCK ==>
          BlockState(b', p) == if b.baseSeq + p in seqs then Some(st) else BlockState(b, p))
  }

  lemma MovedStates(blocks: seq<MsgBlock>, head: nat, total: nat, k: nat, b': MsgBlock, seqs: seq<nat>, st: MsgState)
    requires BlocksOk(blocks, head, total) && k < |blocks|
    requires Moved(blocks[k], b', head, seqs, st)
    requires forall i :: i in seqs ==> i < head && i / MSGS_PER_BLOCK == k
    ensures BlocksOk(blocks[k := b'], head, total)
    ensures States(blocks[k := b'], head, total) == SetAll(States(blocks, head, total), seqs, st)
  {
    var blocks' := blocks[k := b'];
    assert BlocksOk(blocks', head, total);
    forall i | 0 <= i < total
      ensures StateOf(blocks', head, total, i) == if i in seqs then st else StateOf(blocks, head, total, i)
    {
      var (j, p) := Locate(i);
      if j == k && i < head { assert BlockState(b', p) == if i in seqs then Some(st) else BlockState(blocks[k], p); }
    }
  }

  // ---- Row edits

  /** Row `r'` is `r` with the bits of the messages `seqs` added (the first message being `base`). */
  ghost predicate RowPlus(r': seq<u64>, r: seq<u64>, base: nat, seqs: seq<nat>) {
    |r'| == |r| && forall p: nat {:trigger HasBit(r', p)} :: p < MSGS_PER_BLOCK ==>
      (HasBit(r', p) <==> HasBit(r, p) || base + p in seqs)
  }

  ghost predicate RowMinus(r': seq<u64>, r: seq<u64>, base: nat, seqs: seq<nat>) {
    |r'| == |r| && forall p: nat {:trigger HasBit(r', p)} :: p < MSGS_PER_BLOCK ==>
      (HasBit(r', p) <==> HasBit(r, p) && base + p !in seqs)
  }

  /** All of `seqs` are messages of block `b` in state `st`. */
  ghost predicate InState(b: MsgBlock, seqs: seq<nat>, st: MsgState) {
    forall i :: i in seqs ==> b.baseSeq <= i < b.baseSeq + MSGS_PER_BLOCK && BlockState(b, i - b.baseSeq) == Some(st)
  }

  lemma AckMoves(b: MsgBlock, b': MsgBlock, head: nat, seqs: seq<nat>)
    requires BlockOk(b, head) && InState(b, seqs, Inflight)
    requires b' == b.(acked := b'.acked, inflight := b'.inflight)
    requires RowPlus(b'.acked, b.acked, b.baseSeq, seqs) && RowMinus(b'.inflight, b.inflight, b.baseSeq, seqs)
    ensures Moved(b, b', head, seqs, Acked)
  {
    hide HasBit, MaskOk;
    forall p: nat | p < MSGS_PER_BLOCK
      ensures BitOk(b', p, head) && BlockState(b', p) == if b.baseSeq + p in seqs then Some(Acked) else BlockState(b, p)
    {
      assert BitOk(b, p, head);
      assert b.baseSeq + p in seqs ==> BlockState(b, (b.baseSeq + p) - b.baseSeq) == Some(Inflight);
    }
  }

  lemma NackMoves(b: MsgBlock, b': MsgBlock, head: nat, seqs: seq<nat>)
    requires BlockOk(b, head) && InState(b, seqs, Inflight)
    requires b' == b.(retry := b'.retry, inflight := b'.inflight, retryWordMask := b'.retryWordMask)
    requires RowPlus(b'.retry, b.retry, b.baseSeq, seqs) && RowMinus(b'.inflight, b.inflight, b.baseSeq, seqs)
    requires MaskOk(b'.retry, b'.retryWordMask)
    ensures Moved(b, b', head, seqs, Retry)
  {
    hide HasBit, MaskOk;
    forall p: nat | p < MSGS_PER_BLOCK
      ensures BitOk(b', p, head) && BlockState(b', p) == if b.baseSeq + p in seqs then Some(Retry) else BlockState(b, p)
    {
      assert BitOk(b, p, head);
      assert b.baseSeq + p in seqs ==> BlockState(b, (b.baseSeq + p) - b.baseSeq) == Some(Inflight);
    }
  }

  lemma ServeMoves(b: MsgBlock, b': MsgBlock, head: nat, seqs: seq<nat>)
    requires BlockOk(b, head) && InState(b, seqs, SparseReady)
    requires b' == b.(sparseReady := b'.sparseReady, inflight := b'.inflight, sparseWordMask := b'.sparseWordMask)
    requires RowPlus(b'.inflight, b.inflight, b.baseSeq, seqs)
    requires RowMinus(b'.sparseReady, b.sparseReady, b.baseSeq, seqs)
    requires MaskOk(b'.sparseReady, b'.sparseWordMask)
    ensures Moved(b, b', head, seqs, Inflight)
  {
    hide HasBit, MaskOk;
    forall p: nat | p < MSGS_PER_BLOCK
      ensures BitOk(b', p, head)
      ensures BlockState(b', p) == if b.baseSeq + p in seqs then Some(Inflight) else BlockState(b, p)
    {
      assert BitOk(b, p, head);
      assert b.baseSeq + p in seqs ==> BlockState(b, (b.baseSeq + p) - b.baseSeq) == Some(SparseReady);
    }
  }

  /** `retry_all_now` on one block: the retry row moves to the sparse row and marks redelivery. */
  lemma RetryMoves(b: MsgBlock, b': MsgBlock, head: nat, seqs: seq<nat>)
    requires BlockOk(b, head) && InState(b, seqs, Retry)
    requires b' == b.(sparseReady := b'.sparseReady, retry := b'.retry, redelivered := b'.redelivered,
                      retryWordMask := b'.retryWordMask, sparseWordMask := b'.sparseWordMask)
    requires RowPlus(b'.sparseReady, b.sparseReady, b.baseSeq, seqs) && RowMinus(b'.retry, b.retry, b.baseSeq, seqs)
    requires RowPlus(b'.redelivered, b.redelivered, b.baseSeq, seqs)
    requires MaskOk(b'.sparseReady, b'.sparseWordMask) && MaskOk(b'.retry, b'.retryWordMask)
    ensures Moved(b, b', head, seqs, SparseReady)
  {
    hide HasBit, MaskOk;
    forall p: nat | p < MSGS_PER_BLOCK
      ensures BitOk(b', p, head)
      ensures BlockState(b', p) == if b.baseSeq + p in seqs then Some(SparseReady) else BlockState(b, p)
    {
      assert BitOk(b, p, head);
      assert b.baseSeq + p in seqs ==> BlockState(b, (b.baseSeq + p) - b.baseSeq) == Some(Retry);
    }
  }

  // ---- Word masks

  datatype Range = Range(start: nat, len: nat)

  /** `DeliveryMask`, `AckMask` and `NackMask`: some bits of one word of one block. */
  datatype WordMask = WordMask(block: nat, word: nat, mask: u64)

  /** `DeliveryWork`, `AckBatch` and `NackBatch`. */
  datatype Work = Work(ranges: seq<Range>, masks: seq<WordMask>)

  /** Message `i` is one of the bits of the mask. */
  predicate InMask(m: WordMask, i: int) {
    i >= 0 && i / MSGS_PER_BLOCK == m.block && i % MSGS_PER_BLOCK / 64 == m.word && Bit(m.mask, i % MSGS_PER_BLOCK % 64)
  }

  /** The messages a word mask stands for, ascending. */
  function MaskSeqs(m: WordMask): (r: seq<nat>)
    requires m.word < WORDS_PER_BLOCK
    ensures |r| == PopCount(m.mask)
    ensures Ascending(r)
    ensures forall i :: i in r <==> InMask(m, i)
  {
    var s, base := BitList(m.mask), m.block * MSGS_PER_BLOCK + m.word * 64;
    BitListBounds(m.mask);
    var r := seq(|s|, k requires 0 <= k < |s| => base + s[k]);
    assert forall i :: i in r <==> InMask(m, i) by {
      MaskSeqsMembers(m, s, base, r);
    }
    r
  }

  lemma MaskSeqsMembers(m: WordMask, s: seq<nat>, base: nat, r: seq<nat>)
    requires m.word < WORDS_PER_BLOCK && s == BitList(m.mask) && base == m.block * MSGS_PER_BLOCK + m.word * 64
    requires |r| == |s| && forall k :: 0 <= k < |s| ==> r[k] == base + s[k]
    ensures forall i :: i in r <==> InMask(m, i)
  {
    hide BitList, Bit;
    BitListBounds(m.mask);
    forall i | i in r ensures InMask(m, i) {
      var k :| 0 <= k < |r| && r[k] == i;
      assert s[k] in s;
      BlockArithmetic(m.block, m.word * 64 + s[k]);
    }
    forall i | InMask(m, i) ensures i in r {
      var t := i % MSGS_PER_BLOCK % 64;
      assert i == base + t;
      assert t in s;
      var k :| 0 <= k < |s| && s[k] == t;
      assert r[k] == i;
    }
  }

  lemma BlockArithmetic(block: nat, p: nat)
    requires p < MSGS_PER_BLOCK
    ensures var i := block * MSGS_PER_BLOCK + p; i / MSGS_PER_BLOCK == block && i % MSGS_PER_BLOCK == p
  {
  }

  /** `row[word] |= mask` */
  lemma MaskRowPlus(row: seq<u64>, m: WordMask)
    requires |row| == WORDS_PER_BLOCK && m.word < WORDS_PER_BLOCK
    ensures RowPlus(row[m.word := Or(row[m.word], m.mask)], row, m.block * MSGS_PER_BLOCK, MaskSeqs(m))
  {
    hide MaskSeqs, Or, Bit;
    var row' := row[m.word := Or(row[m.word], m.mask)];
    forall p: nat | p < MSGS_PER_BLOCK
      ensures HasBit(row', p) <==> HasBit(row, p) || m.block * MSGS_PER_BLOCK + p in MaskSeqs(m)
    {
      BlockArithmetic(m.block, p);
    }
  }

  /** `row[word] &= !mask` */
  lemma MaskRowMinus(row: seq<u64>, m: WordMask)
    requires |row| == WORDS_PER_BLOCK && m.word < WORDS_PER_BLOCK
    ensures RowMinus(row[m.word := AndNot(row[m.word], m.mask)], row, m.block * MSGS_PER_BLOCK, MaskSeqs(m))
  {
    hide MaskSeqs, AndNot, Bit;
    var row' := row[m.word := AndNot(row[m.word], m.mask)];
    forall p: nat | p < MSGS_PER_BLOCK
      ensures HasBit(row', p) <==> HasBit(row, p) && m.block * MSGS_PER_BLOCK + p !in MaskSeqs(m)
    {
      BlockArithmetic(m.block, p);
    }
  }

  lemma NonZeroWord(words: seq<u64>, w: nat)
    requires w < |words|
    ensures words[w] != 0 <==> exists p: nat :: p / 64 == w && HasBit(words, p)
  {
    if words[w] != 0 {
      WordBits(words[w]);
      var t := TrailingZeros(words[w]);
      assert t < 64 && HasBit(words, 64 * w + t);
    } else { NoBits(); }
  }

  // ---- Block lists

  predicate Pending(b: MsgBlock, st: MsgState) {
    if st == Retry then b.retryWordMask != 0 else b.sparseWordMask != 0
  }

  /** A block is linked into the list of `st` exactly when its summary mask for `st` is non-zero. */
  ghost predicate ListOk(nodes: seq<MsgBlock>, links: seq<Link>, items: seq<nat>, st: MsgState) {
    && |links| == |nodes|
    && (forall k :: 0 <= k < |nodes| ==> (links[k].IsLinked() <==> k in items))
    && (forall k :: 0 <= k < |nodes| ==> (k in items <==> Pending(nodes[k], st)))
    && (forall k :: k in items ==> k < |nodes|)
  }

  lemma PendingHasState(blocks: seq<MsgBlock>, head: nat, total: nat, k: nat, st: MsgState)
    requires BlocksOk(blocks, head, total) && k < |blocks| && (st == Retry || st == SparseReady)
    ensures Pending(blocks[k], st) <==> HasState(States(blocks, head, total), st, k)
  {
    var b := blocks[k];
    var row := if st == Retry then b.retry else b.sparseReady;
    var mask := if st == Retry then b.retryWordMask else b.sparseWordMask;
    if mask != 0 {
      var p := FirstWaiting(row, mask);
      BitIsState(blocks, head, total, k, p, st);
    }
    if HasState(States(blocks, head, total), st, k) {
      var i :| 0 <= i < total && i / MSGS_PER_BLOCK == k && States(blocks, head, total)[i] == st;
      StateIsBit(blocks, head, total, i, st);
      NonZeroWord(row, i % MSGS_PER_BLOCK / 64);
      assert Bit(mask, i % MSGS_PER_BLOCK / 64);
      NoBits();
    }
  }

  lemma FirstWaiting(row: seq<u64>, mask: u64) returns (p: nat)
    requires MaskOk(row, mask) && mask != 0 && |row| == WORDS_PER_BLOCK
    ensures p < MSGS_PER_BLOCK && HasBit(row, p)
  {
    var w := TrailingZeros(mask);
    NonZeroWord(row, w);
    p :| p / 64 == w && HasBit(row, p);
  }

  lemma BitIsState(blocks: seq<MsgBlock>, head: nat, total: nat, k: nat, p: nat, st: MsgState)
    requires BlocksOk(blocks, head, total) && k < |blocks| && (st == Retry || st == SparseReady) && p < MSGS_PER_BLOCK
    requires HasBit(if st == Retry then blocks[k].retry else blocks[k].sparseReady, p)
    ensures HasState(States(blocks, head, total), st, k)
  {
    hide HasBit;
    assert BitOk(blocks[k], p, head);
    var i := k * MSGS_PER_BLOCK + p;
    assert Locate(i) == (k, p);
    assert States(blocks, head, total)[i] == st;
  }

  lemma StateIsBit(blocks: seq<MsgBlock>, head: nat, total: nat, i: nat, st: MsgState)
    requires BlocksOk(blocks, head, total) && i < total && (st == Retry || st == SparseReady)
    requires States(blocks, head, total)[i] == st
    ensures var b := blocks[i / MSGS_PER_BLOCK];
      HasBit(if st == Retry then b.retry else b.sparseReady, i % MSGS_PER_BLOCK)
  {
    hide HasBit;
    assert BitOk(blocks[i / MSGS_PER_BLOCK], i % MSGS_PER_BLOCK, head);
  }

  lemma ListIndexes(blocks: seq<MsgBlock>, head: nat, total: nat, links: seq<Link>, items: seq<nat>, st: MsgState)
    requires BlocksOk(blocks, head, total) && (st == Retry || st == SparseReady)
    requires ListOk(blocks, links, items, st) && Distinct(items)
    ensures Indexes(items, States(blocks, head, total), st)
  {
    forall b | b in items ensures HasState(States(blocks, head, total), st, b) {
      PendingHasState(blocks, head, total, b, st);
    }
    forall i | 0 <= i < total && States(blocks, head, total)[i] == st ensures i / MSGS_PER_BLOCK in items {
      var k := i / MSGS_PER_BLOCK;
      assert HasState(States(blocks, head, total), st, k);
      PendingHasState(blocks, head, total, k, st);
    }
  }

  /** The rows, the summary masks and the two lists together stand for a valid queue. */
  lemma AbstractionIsValid(blocks: seq<MsgBlock>, head: nat, total: nat, links: seq<seq<Link>>, retryItems: seq<nat>,
      sparseItems: seq<nat>)
    requires BlocksOk(blocks, head, total) && |links| >= 2
    requires ListOk(blocks, links[0], retryItems, Retry) && Distinct(retryItems)
    requires ListOk(blocks, links[1], sparseItems, SparseReady) && Distinct(sparseItems)
    ensures QueueSpec.Valid(
      Queue(States(blocks, head, total), head, Redelivered(blocks, total), retryItems, sparseItems))
  {
    ListIndexes(blocks, head, total, links[0], retryItems, Retry);
    ListIndexes(blocks, head, total, links[1], sparseItems, SparseReady);
    forall i | 0 <= i < total
      ensures States(blocks, head, total)[i] == SparseReady ==> Marked(blocks, i)
      ensures Marked(blocks, i) ==> i < head
      ensures States(blocks, head, total)[i] == Ready <==> i >= head
    {
      var (k, p) := Locate(i);
      assert BitOk(blocks[k], p, head);
    }
  }

  lemma MarksKept(blocks: seq<MsgBlock>, k: nat, b': MsgBlock, total: nat)
    requires k < |blocks| && b'.redelivered == blocks[k].redelivered
    ensures Redelivered(blocks[k := b'], total) == Redelivered(blocks, total)
  {
    forall i: nat ensures Marked(blocks[k := b'], i) == Marked(blocks, i) { }
  }

  /** Messages of one block that are in a delivered state. */
  lemma StatesInBlock(blocks: seq<MsgBlock>, head: nat, total: nat, k: nat, seqs: seq<nat>, st: MsgState)
    requires BlocksOk(blocks, head, total) && k < |blocks| && st != Ready
    requires forall i :: i in seqs ==> i < total && i / MSGS_PER_BLOCK == k && States(blocks, head, total)[i] == st
    ensures InState(blocks[k], seqs, st)
    ensures forall i :: i in seqs ==> i < head
  {
    forall i | i in seqs
      ensures i < head && blocks[k].baseSeq <= i < blocks[k].baseSeq + MSGS_PER_BLOCK
      ensures BlockState(blocks[k], i - blocks[k].baseSeq) == Some(st)
    {
      var (j, p) := Locate(i);
      assert States(blocks, head, total)[i] == StateOf(blocks, head, total, i) == st;
      assert BitOk(blocks[k], p, head);
    }
  }

  lemma RangeRowPlus(r': seq<u64>, r: seq<u64>, base: nat, bit: nat, take: nat)
    requires |r'| == |r| && forall p: nat :: HasBit(r', p) <==> HasBit(r, p) || bit <= p < bit + take
    ensures RowPlus(r', r, base, Span(base + bit, take))
  {
  }

  lemma RangeRowMinus(r': seq<u64>, r: seq<u64>, base: nat, bit: nat, take: nat)
    requires |r'| == |r| && forall p: nat :: HasBit(r', p) <==> HasBit(r, p) && !(bit <= p < bit + take)
    ensures RowMinus(r', r, base, Span(base + bit, take))
  {
  }

  lemma BlockAt(blocks: seq<MsgBlock>, head: nat, total: nat, k: nat)
    requires BlocksOk(blocks, head, total) && k < |blocks|
    ensures blocks[k].baseSeq == k * MSGS_PER_BLOCK && BlockOk(blocks[k], head)
  {
  }

  /** As `ListOk`, except that block `k` may hold messages without being listed yet. */
  ghost predicate ListOkBut(nodes: seq<MsgBlock>, links: seq<Link>, items: seq<nat>, st: MsgState, k: nat) {
    && |links| == |nodes|
    && (forall j :: 0 <= j < |nodes| ==> (links[j].IsLinked() <==> j in items))
    && (forall j :: 0 <= j < |nodes| ==> (j in items ==> Pending(nodes[j], st)))
    && (forall j :: 0 <= j < |nodes| && j != k ==> (Pending(nodes[j], st) ==> j in items))
    && (forall j :: j in items ==> j < |nodes|)
  }

  /** The summary mask after `for w in first..=last { mask |= 1 << w }`. */
  method MarkWords(mask: u64, first: nat, last: nat) returns (r: u64)
    requires first <= last < 64
    ensures forall w: nat :: Bit(r, w) <==> Bit(mask, w) || first <= w <= last
  {
    hide Bit, Or, OneAt;
    r := mask;
    for w := first to last + 1
      invariant forall j: nat :: Bit(r, j) <==> Bit(mask, j) || first <= j < w
    {
      r := Or(r, OneAt(w));
    }
  }

  lemma RangeMaskOk(row: seq<u64>, row': seq<u64>, mask: u64, mask': u64, bit: nat, take: nat)
    requires |row| == |row'| == WORDS_PER_BLOCK && take > 0 && bit + take <= MSGS_PER_BLOCK
    requires MaskOk(row, mask)
    requires forall p: nat :: HasBit(row', p) <==> HasBit(row, p) || bit <= p < bit + take
    requires forall w: nat :: Bit(mask', w) <==> Bit(mask, w) || bit / 64 <= w <= (bit + take - 1) / 64
    ensures MaskOk(row', mask')
  {
    hide HasBit, Bit;
    forall w: nat ensures Bit(mask', w) <==> w < |row'| && row'[w] != 0 {
      assert Bit(mask, w) <==> w < |row| && row[w] != 0;
      if w < WORDS_PER_BLOCK {
        NonZeroWord(row, w); NonZeroWord(row', w);
        if bit / 64 <= w <= (bit + take - 1) / 64 {
          var p := if bit / 64 == w then bit else 64 * w;
          assert p / 64 == w && HasBit(row', p);
        } else {
          forall p: nat | p / 64 == w ensures HasBit(row', p) <==> HasBit(row, p) { }
        }
      }
    }
  }

  lemma WordMaskPlusOk(row: seq<u64>, mask: u64, m: WordMask)
    requires |row| == WORDS_PER_BLOCK && m.word < WORDS_PER_BLOCK && m.mask != 0 && MaskOk(row, mask)
    ensures MaskOk(row[m.word := Or(row[m.word], m.mask)], Or(mask, OneAt(m.word)))
  {
    hide Bit, Or, OneAt;
    var t := TrailingZeros(m.mask);
    assert Bit(Or(row[m.word], m.mask), t);
    NoBits();
  }

  // ---- Batches

  ghost function RangesSeqs(ranges: seq<Range>): (r: seq<nat>) {
    if ranges == [] then [] else
      var n := |ranges| - 1;
      RangesSeqs(ranges[..n]) + Span(ranges[n].start, ranges[n].len)
  }

  ghost predicate MasksOk(masks: seq<WordMask>) {
    forall k :: 0 <= k < |masks| ==> masks[k].word < WORDS_PER_BLOCK && masks[k].mask != 0
  }

  ghost function MasksSeqs(masks: seq<WordMask>): (r: seq<nat>)
    requires MasksOk(masks)
  {
    if masks == [] then [] else
      var n := |masks| - 1;
      MasksSeqs(masks[..n]) + MaskSeqs(masks[n])
  }

  /** The messages a work list or settlement batch stands for. */
  ghost function WorkSeqs(w: Work): (r: seq<nat>)
    requires MasksOk(w.masks)
  {
    RangesSeqs(w.ranges) + MasksSeqs(w.masks)
  }

  lemma {:induction false} RangesPrefix(ranges: seq<Range>, k: nat)
    requires k <= |ranges|
    ensures RangesSeqs(ranges[..k]) <= RangesSeqs(ranges)
    decreases |ranges| - k
  {
    if k == |ranges| {
      assert ranges[..k] == ranges;
    } else {
      RangesPrefix(ranges, k + 1);
      assert ranges[..k + 1][..k] == ranges[..k];
    }
  }

  lemma {:induction false} MasksPrefix(masks: seq<WordMask>, k: nat)
    requires MasksOk(masks) && k <= |masks|
    ensures MasksSeqs(masks[..k]) <= MasksSeqs(masks)
    decreases |masks| - k
  {
    hide MaskSeqs;
    if k == |masks| {
      assert masks[..k] == masks;
    } else {
      MasksPrefix(masks, k + 1);
      assert masks[..k + 1][..k] == masks[..k];
    }
  }

  /** Where a batch stands when it is about to settle range `k` or mask `k`. */
  lemma NextRange(ranges: seq<Range>, k: nat)
    requires k < |ranges|
    ensures RangesSeqs(ranges[..k + 1]) == RangesSeqs(ranges[..k]) + Span(ranges[k].start, ranges[k].len)
    ensures RangesSeqs(ranges[..k + 1]) <= RangesSeqs(ranges)
  {
    assert ranges[..k + 1][..k] == ranges[..k];
    RangesPrefix(ranges, k + 1);
  }

  lemma NextMask(masks: seq<WordMask>, k: nat)
    requires MasksOk(masks) && k < |masks|
    ensures MasksSeqs(masks[..k + 1]) == MasksSeqs(masks[..k]) + MaskSeqs(masks[k])
    ensures MasksSeqs(masks[..k + 1]) <= MasksSeqs(masks)
  {
    hide MaskSeqs;
    assert masks[..k + 1][..k] == masks[..k];
    MasksPrefix(masks, k + 1);
  }

  // ---- Growing the queue and moving the sequential head

  lemma NewBlockOk(base: nat, head: nat)
    requires base >= head
    ensures BlockOk(NewBlock(base), head)
  {
    NoBits();
    forall p: nat | p < MSGS_PER_BLOCK ensures BitOk(NewBlock(base), p, head) { }
  }

  /** Fresh blocks hold only never-delivered messages. */
  lemma PublishedStates(blocks: seq<MsgBlock>, blocks': seq<MsgBlock>, head: nat, total: nat, count: nat)
    requires BlocksOk(blocks, head, total) && BlocksOk(blocks', head, total + count) && blocks <= blocks'
    ensures States(blocks', head, total + count) == States(blocks, head, total) + Uniform(count, Ready)
    ensures Redelivered(blocks', total + count) == Redelivered(blocks, total)
  {
    hide HasBit, BlockOk;
    forall i | 0 <= i < total ensures StateOf(blocks', head, total + count, i) == StateOf(blocks, head, total, i) { }
    forall i | 0 <= i < total + count
      ensures i in Redelivered(blocks', total + count) <==> i in Redelivered(blocks, total)
    {
      if i >= total { UnmarkedAhead(blocks', head, total + count, i); }
    }
  }

  lemma UnmarkedAhead(blocks: seq<MsgBlock>, head: nat, total: nat, i: nat)
    requires BlocksOk(blocks, head, total) && head <= i < total
    ensures !Marked(blocks, i)
  {
    var (k, p) := Locate(i);
    assert BitOk(blocks[k], p, head);
  }

  lemma AdvanceBlock(b: MsgBlock, b': MsgBlock, head: nat, bit: nat, take: nat)
    requires BlockOk(b, head) && head == b.baseSeq + bit && bit + take <= MSGS_PER_BLOCK
    requires b' == b.(inflight := b'.inflight) && |b'.inflight| == |b.inflight|
    requires forall p: nat :: HasBit(b'.inflight, p) <==> HasBit(b.inflight, p) || bit <= p < bit + take
    ensures BlockOk(b', head + take)
    ensures forall p: nat {:trigger BlockState(b', p)} :: p < MSGS_PER_BLOCK ==>
      BlockState(b', p) == if bit <= p < bit + take then Some(Inflight) else BlockState(b, p)
  {
    hide HasBit, MaskOk;
    forall p: nat | p < MSGS_PER_BLOCK
      ensures BitOk(b', p, head + take)
      ensures BlockState(b', p) == if bit <= p < bit + take then Some(Inflight) else BlockState(b, p)
    {
      assert BitOk(b, p, head);
    }
  }

  /** A block wholly before or wholly behind the moving head does not notice it. */
  lemma HeadElsewhere(b: MsgBlock, head: nat, head': nat)
    requires BlockOk(b, head) && head <= head'
    requires b.baseSeq + MSGS_PER_BLOCK <= head || head' <= b.baseSeq
    ensures BlockOk(b, head')
  {
    hide HasBit, MaskOk;
    forall p: nat | p < MSGS_PER_BLOCK ensures BitOk(b, p, head') { assert BitOk(b, p, head); }
  }

  lemma AdvanceHead(blocks: seq<MsgBlock>, head: nat, total: nat, b': MsgBlock, take: nat)
    requires BlocksOk(blocks, head, total)
    requires var (k, bit) := Locate(head);
      && bit + take <= MSGS_PER_BLOCK && head + take <= total && 0 < take
      && b' == blocks[k].(inflight := b'.inflight) && |b'.inflight| == |blocks[k].inflight|
      && forall p: nat :: HasBit(b'.inflight, p) <==> HasBit(blocks[k].inflight, p) || bit <= p < bit + take
    ensures var blocks' := blocks[head / MSGS_PER_BLOCK := b'];
      && BlocksOk(blocks', head + take, total)
      && States(blocks', head + take, total) == SetAll(States(blocks, head, total), Span(head, take), Inflight)
  {
    hide HasBit, BlockOk;
    var (k, bit) := Locate(head);
    var blocks' := blocks[k := b'];
    AdvanceBlock(blocks[k], b', head, bit, take);
    forall j | 0 <= j < |blocks'| ensures blocks'[j].baseSeq == j * MSGS_PER_BLOCK && BlockOk(blocks'[j], head + take) {
      if j != k { HeadElsewhere(blocks[j], head, head + take); }
    }
    forall i | 0 <= i < total
      ensures StateOf(blocks', head + take, total, i) == if i in Span(head, take) then Inflight
        else StateOf(blocks, head, total, i)
    {
      var (j, p) := Locate(i);
      if j == k {
        assert BlockState(b', p) == if bit <= p < bit + take then Some(Inflight) else BlockState(blocks[k], p);
      }
    }
  }

  // ---- Serving retried messages

  /** The lowest bits of a word come before all the bits left behind. */
  lemma LowestFirst(avail: u64, mask: u64, n: nat)
    requires n <= |BitList(avail)| && BitList(mask) == BitList(avail)[..n]
    ensures forall x: nat :: Bit(mask, x) ==> Bit(avail, x)
    ensures forall x: nat, y: nat :: Bit(mask, x) && Bit(avail, y) && !Bit(mask, y) ==> x < y
  {
    hide BitList, Bit;
    var rest := BitList(avail)[n..];
    assert BitList(avail) == BitList(mask) + rest;
    AscendingSplit(BitList(mask), rest);
    forall x: nat | Bit(mask, x) ensures Bit(avail, x) { assert x in BitList(mask); assert x in BitList(avail); }
    forall x: nat, y: nat | Bit(mask, x) && Bit(avail, y) && !Bit(mask, y) ensures x < y {
      assert x in BitList(mask) && y in BitList(avail) && y !in BitList(mask);
      assert y in rest;
    }
  }

  /** The messages of a mask that is part of the sparse row are waiting in that block. */
  lemma SparseMaskWaiting(blocks: seq<MsgBlock>, head: nat, total: nat, m: WordMask)
    requires BlocksOk(blocks, head, total) && m.block < |blocks| && m.word < WORDS_PER_BLOCK
    requires forall x: nat :: Bit(m.mask, x) ==> Bit(blocks[m.block].sparseReady[m.word], x)
    ensures forall i :: i in MaskSeqs(m) ==>
      i < head && States(blocks, head, total)[i] == SparseReady && i / MSGS_PER_BLOCK == m.block
  {
    hide MaskSeqs, Bit;
    forall i | i in MaskSeqs(m)
      ensures i < head && States(blocks, head, total)[i] == SparseReady && i / MSGS_PER_BLOCK == m.block
    {
      var (k, p) := Locate(i);
      assert HasBit(blocks[k].sparseReady, p);
      assert BitOk(blocks[k], p, head);
    }
  }

  /** Taking the lowest bits of the first non-empty word serves the block's messages in order. */
  lemma ServedInOrder(blocks: seq<MsgBlock>, head: nat, total: nat, m: WordMask, n: nat)
    requires BlocksOk(blocks, head, total) && m.block < |blocks| && m.word < WORDS_PER_BLOCK
    requires forall w :: 0 <= w < m.word ==> blocks[m.block].sparseReady[w] == 0
    requires var avail := blocks[m.block].sparseReady[m.word];
      n <= |BitList(avail)| && BitList(m.mask) == BitList(avail)[..n]
    ensures var S := States(blocks, head, total);
      InBlock(S, SparseReady, m.block) == MaskSeqs(m) + InBlock(SetAll(S, MaskSeqs(m), Inflight), SparseReady, m.block)
  {
    hide MaskSeqs, Bit, BitList, InBlock, SetAll;
    var S, seqs := States(blocks, head, total), MaskSeqs(m);
    var S', avail := SetAll(S, seqs, Inflight), blocks[m.block].sparseReady[m.word];
    LowestFirst(avail, m.mask, n);
    SparseMaskWaiting(blocks, head, total, m);
    forall x, y | x in seqs && y in InBlock(S', SparseReady, m.block) ensures x < y {
      StateIsBit(blocks, head, total, y, SparseReady);
      LaterWord(m, blocks[m.block].sparseReady, x, y);
    }
    AscendingJoin(seqs, InBlock(S', SparseReady, m.block), InBlock(S, SparseReady, m.block));
  }

  lemma LaterWord(m: WordMask, row: seq<u64>, x: nat, y: nat)
    requires m.word < WORDS_PER_BLOCK == |row|
    requires forall w :: 0 <= w < m.word ==> row[w] == 0
    requires forall a: nat, b: nat :: Bit(m.mask, a) && Bit(row[m.word], b) && !Bit(m.mask, b) ==> a < b
    requires x in MaskSeqs(m) && y !in MaskSeqs(m) && y / MSGS_PER_BLOCK == m.block && HasBit(row, y % MSGS_PER_BLOCK)
    ensures x < y
  {
    hide MaskSeqs, Bit;
    NoBits();
    var w := y % MSGS_PER_BLOCK / 64;
    assert w >= m.word;
    if w == m.word { assert x % MSGS_PER_BLOCK % 64 < y % MSGS_PER_BLOCK % 64; }
  }

  /** Clearing a word's summary bit exactly when the word has become empty. */
  lemma WordMaskMinusOk(row: seq<u64>, mask: u64, m: WordMask)
    requires |row| == WORDS_PER_BLOCK && m.word < WORDS_PER_BLOCK && MaskOk(row, mask)
    ensures var word := AndNot(row[m.word], m.mask);
      MaskOk(row[m.word := word], if word == 0 then AndNot(mask, OneAt(m.word)) else mask)
  {
    hide Bit, AndNot, OneAt;
    var word := AndNot(row[m.word], m.mask);
    if row[m.word] == 0 { NoBits(); EmptyWord(word); }
  }

  /** A block whose sparse row is empty has a zero summary mask. */
  lemma AllWordsEmpty(row: seq<u64>, mask: u64)
    requires MaskOk(row, mask) && forall w :: 0 <= w < |row| ==> row[w] == 0
    ensures mask == 0
  {
    EmptyWord(mask);
  }

  // ---- Putting a block's retry row back into service

  /** The word loop of `retry_all_now` over one block. */
  method RetryWords(b: MsgBlock) returns (r: MsgBlock, moved: nat)
    requires RowsOk(b)
    ensures r == b.(retry := r.retry, sparseReady := r.sparseReady, redelivered := r.redelivered)
    ensures |r.retry| == |r.sparseReady| == |r.redelivered| == WORDS_PER_BLOCK
    ensures forall w :: 0 <= w < WORDS_PER_BLOCK ==> r.retry[w] == 0
    ensures forall w :: 0 <= w < WORDS_PER_BLOCK ==> r.sparseReady[w] == Or(b.sparseReady[w], b.retry[w])
    ensures forall w :: 0 <= w < WORDS_PER_BLOCK ==> r.redelivered[w] == Or(b.redelivered[w], b.retry[w])
    ensures moved == PopSum(b.retry, WORDS_PER_BLOCK)
  {
    hide Or, MaskOk, Bit, PopCount;
    r, moved := b, 0;
    for w := 0 to WORDS_PER_BLOCK
      invariant r == b.(retry := r.retry, sparseReady := r.sparseReady, redelivered := r.redelivered)
      invariant |r.retry| == |r.sparseReady| == |r.redelivered| == WORDS_PER_BLOCK
      invariant forall v :: 0 <= v < WORDS_PER_BLOCK ==> r.retry[v] == if v < w then 0 else b.retry[v]
      invariant forall v :: 0 <= v < WORDS_PER_BLOCK ==>
        r.sparseReady[v] == if v < w then Or(b.sparseReady[v], b.retry[v]) else b.sparseReady[v]
      invariant forall v :: 0 <= v < WORDS_PER_BLOCK ==>
        r.redelivered[v] == if v < w then Or(b.redelivered[v], b.retry[v]) else b.redelivered[v]
      invariant moved == PopSum(b.retry, w)
    {
      var mask := r.retry[w];
      OrZero(b.sparseReady[w], b.redelivered[w]);
      if mask != 0 {
        r := r.(retry := r.retry[w := 0], sparseReady := r.sparseReady[w := Or(r.sparseReady[w], mask)],
                redelivered := r.redelivered[w := Or(r.redelivered[w], mask)]);
        moved := moved + PopCount(mask);
      }
    }
  }

  function PopSum(words: seq<u64>, n: nat): (r: nat)
    requires n <= |words|
  {
    if n == 0 then 0 else PopSum(words, n - 1) + PopCount(words[n - 1])
  }

  lemma OrZero(a: u64, b: u64)
    ensures Or(a, 0) == a && Or(b, 0) == b && PopCount(0) == 0
  {
    NoBits();
    SameBitsSameWord(Or(a, 0), a);
    SameBitsSameWord(Or(b, 0), b);
  }

  /** The messages of the first `n` words of a row, ascending. */
  function RowSeqs(k: nat, row: seq<u64>, n: nat): (r: seq<nat>)
    requires n <= |row| == WORDS_PER_BLOCK
    ensures Ascending(r) && |r| == PopSum(row, n)
    ensures forall i ::
      i in r <==> i >= 0 && i / MSGS_PER_BLOCK == k && i % MSGS_PER_BLOCK / 64 < n && HasBit(row, i % MSGS_PER_BLOCK)
  {
    if n == 0 then [] else
      var m := WordMask(k, n - 1, row[n - 1]);
      RowStep(k, row, n, RowSeqs(k, row, n - 1), MaskSeqs(m));
      RowSeqs(k, row, n - 1) + MaskSeqs(m)
  }

  lemma RowStep(k: nat, row: seq<u64>, n: nat, a: seq<nat>, b: seq<nat>)
    requires 0 < n <= |row| == WORDS_PER_BLOCK && Ascending(a)
    requires forall i ::
      i in a <==>
        i >= 0 && i / MSGS_PER_BLOCK == k && i % MSGS_PER_BLOCK / 64 < n - 1 && HasBit(row, i % MSGS_PER_BLOCK)
    requires b == MaskSeqs(WordMask(k, n - 1, row[n - 1]))
    ensures Ascending(a + b)
    ensures forall i ::
      i in a + b <==>
        i >= 0 && i / MSGS_PER_BLOCK == k && i % MSGS_PER_BLOCK / 64 < n && HasBit(row, i % MSGS_PER_BLOCK)
  {
    hide MaskSeqs, Bit;
    var s := a + b;
    forall x, y | x in a && y in b ensures x < y { }
    forall i, j | 0 <= i < j < |s| ensures s[i] < s[j] {
      if i < |a| <= j { assert s[i] in a && s[j] in b; }
    }
    forall i
      ensures i in s <==>
        i >= 0 && i / MSGS_PER_BLOCK == k && i % MSGS_PER_BLOCK / 64 < n && HasBit(row, i % MSGS_PER_BLOCK)
    {
    }
  }

  /** The retry row of a block lists exactly the block's messages in retry. */
  lemma RetryRow(blocks: seq<MsgBlock>, head: nat, total: nat, k: nat)
    requires BlocksOk(blocks, head, total) && k < |blocks|
    ensures var row, seqs := blocks[k].retry, InBlock(States(blocks, head, total), Retry, k);
      && |row| == WORDS_PER_BLOCK && |seqs| == PopSum(row, WORDS_PER_BLOCK)
      && (forall p: nat {:trigger HasBit(row, p)} :: p < MSGS_PER_BLOCK ==>
        (HasBit(row, p) <==> k * MSGS_PER_BLOCK + p in seqs))
      && InState(blocks[k], seqs, Retry)
      && (forall i :: i in seqs ==> i < head && i / MSGS_PER_BLOCK == k)
  {
    hide RowSeqs, InBlock, HasBit;
    var row, S := blocks[k].retry, States(blocks, head, total);
    var seqs, rows := InBlock(S, Retry, k), RowSeqs(k, row, WORDS_PER_BLOCK);
    StatesInBlock(blocks, head, total, k, seqs, Retry);
    forall p: nat | p < MSGS_PER_BLOCK ensures HasBit(row, p) <==> k * MSGS_PER_BLOCK + p in seqs {
      assert BitOk(blocks[k], p, head);
      assert Locate(k * MSGS_PER_BLOCK + p) == (k, p);
    }
    forall i ensures i in seqs <==> i in rows {
      if i >= 0 && i / MSGS_PER_BLOCK == k { assert i == k * MSGS_PER_BLOCK + i % MSGS_PER_BLOCK; }
    }
    AscendingUnique(seqs, rows);
  }

  /** What the word loop does to the rows and summary masks of a block. */
  lemma RetriedRows(b: MsgBlock, r: MsgBlock, seqs: seq<nat>)
    requires RowsOk(b)
    requires |r.retry| == |r.sparseReady| == |r.redelivered| == WORDS_PER_BLOCK
    requires forall w :: 0 <= w < WORDS_PER_BLOCK ==> r.retry[w] == 0
    requires forall w :: 0 <= w < WORDS_PER_BLOCK ==> r.sparseReady[w] == Or(b.sparseReady[w], b.retry[w])
    requires forall w :: 0 <= w < WORDS_PER_BLOCK ==> r.redelivered[w] == Or(b.redelivered[w], b.retry[w])
    requires forall p: nat {:trigger HasBit(b.retry, p)} :: p < MSGS_PER_BLOCK ==>
      (HasBit(b.retry, p) <==> b.baseSeq + p in seqs)
    ensures RowPlus(r.sparseReady, b.sparseReady, b.baseSeq, seqs)
    ensures RowPlus(r.redelivered, b.redelivered, b.baseSeq, seqs)
    ensures RowMinus(r.retry, b.retry, b.baseSeq, seqs)
    ensures MaskOk(r.sparseReady, Or(b.sparseWordMask, b.retryWordMask)) && MaskOk(r.retry, 0)
  {
    hide Or, Bit;
    NoBits();
    forall p: nat | p < MSGS_PER_BLOCK
      ensures HasBit(r.sparseReady, p) <==> HasBit(b.sparseReady, p) || HasBit(b.retry, p)
      ensures HasBit(r.redelivered, p) <==> HasBit(b.redelivered, p) || HasBit(b.retry, p)
      ensures !HasBit(r.retry, p)
    {
    }
    forall w: nat | w < WORDS_PER_BLOCK ensures r.sparseReady[w] != 0 <==> b.sparseReady[w] != 0 || b.retry[w] != 0 {
      OrIsZero(b.sparseReady[w], b.retry[w]);
    }
  }

  lemma OrIsZero(a: u64, b: u64)
    ensures Or(a, b) == 0 <==> a == 0 && b == 0
  {
    NoBits();
    if a == 0 && b == 0 { EmptyWord(Or(a, b)); }
    if Or(a, b) == 0 { EmptyWord(a); EmptyWord(b); }
  }

  lemma MarksAdded(blocks: seq<MsgBlock>, k: nat, b': MsgBlock, total: nat, seqs: seq<nat>)
    requires k < |blocks| && RowPlus(b'.redelivered, blocks[k].redelivered, k * MSGS_PER_BLOCK, seqs)
    requires forall i :: i in seqs ==> i < total && i / MSGS_PER_BLOCK == k
    ensures Redelivered(blocks[k := b'], total) == Redelivered(blocks, total) + (set i | i in seqs)
  {
    hide HasBit;
    forall i: nat ensures Marked(blocks[k := b'], i) <==> Marked(blocks, i) || i in seqs {
      if i / MSGS_PER_BLOCK == k { assert i == k * MSGS_PER_BLOCK + i % MSGS_PER_BLOCK; }
    }
  }

  // ---- Counting a row across all blocks

  function RowOf(b: MsgBlock, st: MsgState): (row: seq<u64>) {
    match st
    case Inflight => b.inflight
    case Acked => b.acked
    case Retry => b.retry
    case SparseReady => b.sparseReady
    case Ready => []
  }

  ghost predicate RowsSized(blocks: seq<MsgBlock>, st: MsgState) {
    forall k :: 0 <= k < |blocks| ==> |RowOf(blocks[k], st)| == WORDS_PER_BLOCK
  }

  function PopTotal(blocks: seq<MsgBlock>, st: MsgState): (n: nat)
    requires RowsSized(blocks, st)
  {
    if blocks == [] then 0
    else PopTotal(blocks[..|blocks| - 1], st) + PopSum(RowOf(blocks[|blocks| - 1], st), WORDS_PER_BLOCK)
  }

  ghost function AllSeqs(blocks: seq<MsgBlock>, st: MsgState): (r: seq<nat>)
    requires RowsSized(blocks, st)
    ensures Ascending(r) && |r| == PopTotal(blocks, st)
    ensures forall i ::
      i in r <==>
        i >= 0 && i / MSGS_PER_BLOCK < |blocks| && HasBit(RowOf(blocks[i / MSGS_PER_BLOCK], st), i % MSGS_PER_BLOCK)
  {
    if blocks == [] then [] else
      var n := |blocks| - 1;
      var a, b := AllSeqs(blocks[..n], st), RowSeqs(n, RowOf(blocks[n], st), WORDS_PER_BLOCK);
      AllSeqsStep(blocks, st, a, b);
      a + b
  }

  lemma AllSeqsStep(blocks: seq<MsgBlock>, st: MsgState, a: seq<nat>, b: seq<nat>)
    requires RowsSized(blocks, st) && blocks != [] && Ascending(a)
    requires var n := |blocks| - 1; b == RowSeqs(n, RowOf(blocks[n], st), WORDS_PER_BLOCK)
    requires forall i ::
      i in a <==>
        i >= 0 && i / MSGS_PER_BLOCK < |blocks| - 1 && HasBit(RowOf(blocks[i / MSGS_PER_BLOCK], st), i % MSGS_PER_BLOCK)
    ensures Ascending(a + b)
    ensures forall i ::
      i in a + b <==>
        i >= 0 && i / MSGS_PER_BLOCK < |blocks| && HasBit(RowOf(blocks[i / MSGS_PER_BLOCK], st), i % MSGS_PER_BLOCK)
  {
    hide RowSeqs, HasBit, RowOf;
    var s := a + b;
    forall x, y | x in a && y in b ensures x < y { }
    forall i, j | 0 <= i < j < |s| ensures s[i] < s[j] {
      if i < |a| <= j { assert s[i] in a && s[j] in b; }
    }
  }

  /** The population of a state row over all blocks is the number of messages in that state. */
  lemma PopTotalIsCount(blocks: seq<MsgBlock>, head: nat, total: nat, st: MsgState)
    requires BlocksOk(blocks, head, total) && st != Ready && RowsSized(blocks, st)
    ensures PopTotal(blocks, st) == Count(States(blocks, head, total), st)
  {
    hide HasBit, Count, AllSeqs;
    var list, S := AllSeqs(blocks, st), States(blocks, head, total);
    forall i: nat ensures i in list <==> i < total && S[i] == st {
      var (k, p) := Locate(i);
      if k < |blocks| { assert BitOk(blocks[k], p, head); }
    }
    AscendingDistinct(list);
    CountIsLength(S, st, list);
  }

  // ---- What the validator inspects in one block

  ghost predicate Sized(b: MsgBlock) {
    |b.inflight| == |b.acked| == |b.retry| == |b.sparseReady| == |b.redelivered| == WORDS_PER_BLOCK
  }

  /** No message of the block is in two states. */
  ghost predicate NoConflict(b: MsgBlock) {
    forall p: nat {:trigger HasBit(b.inflight, p)} {:trigger HasBit(b.acked, p)}
      {:trigger HasBit(b.retry, p)} {:trigger HasBit(b.sparseReady, p)} ::
      && !(HasBit(b.inflight, p) && HasBit(b.acked, p)) && !(HasBit(b.inflight, p) && HasBit(b.retry, p))
      && !(HasBit(b.inflight, p) && HasBit(b.sparseReady, p)) && !(HasBit(b.acked, p) && HasBit(b.retry, p))
      && !(HasBit(b.acked, p) && HasBit(b.sparseReady, p)) && !(HasBit(b.retry, p) && HasBit(b.sparseReady, p))
  }

  ghost predicate SummaryOk(b: MsgBlock)
    requires Sized(b)
  {
    forall w: nat :: w < WORDS_PER_BLOCK ==>
      (Bit(b.retryWordMask, w) <==> b.retry[w] != 0) && (Bit(b.sparseWordMask, w) <==> b.sparseReady[w] != 0)
  }

  /** `x & y == 0` in every word means that two rows share no bit. */
  lemma RowsDisjoint(x: seq<u64>, y: seq<u64>)
    requires |x| == |y| == WORDS_PER_BLOCK
    ensures (forall w :: 0 <= w < WORDS_PER_BLOCK ==> And(x[w], y[w]) == 0) <==>
      (forall p: nat :: !(HasBit(x, p) && HasBit(y, p)))
  {
    hide And, Bit;
    if forall w :: 0 <= w < WORDS_PER_BLOCK ==> And(x[w], y[w]) == 0 {
      forall p: nat ensures !(HasBit(x, p) && HasBit(y, p)) {
        NoBits();
        if p / 64 < WORDS_PER_BLOCK { assert !Bit(And(x[p / 64], y[p / 64]), p % 64); }
      }
    }
    if forall p: nat :: !(HasBit(x, p) && HasBit(y, p)) {
      forall w: nat | w < WORDS_PER_BLOCK ensures And(x[w], y[w]) == 0 {
        WordBits(x[w]);
        forall i: nat ensures !Bit(And(x[w], y[w]), i) {
          if i < 64 { assert !(HasBit(x, 64 * w + i) && HasBit(y, 64 * w + i)); }
        }
        EmptyWord(And(x[w], y[w]));
      }
    }
  }

  /** The whole effect of `retry_all_now` on one block `k` whose word loop produced `r`. */
  lemma RetriedBlock(blocks: seq<MsgBlock>, head: nat, total: nat, k: nat, r: MsgBlock, b': MsgBlock)
    requires BlocksOk(blocks, head, total) && k < |blocks| && RowsOk(blocks[k])
    requires r == blocks[k].(retry := r.retry, sparseReady := r.sparseReady, redelivered := r.redelivered)
    requires |r.retry| == |r.sparseReady| == |r.redelivered| == WORDS_PER_BLOCK
    requires forall w :: 0 <= w < WORDS_PER_BLOCK ==> r.retry[w] == 0
    requires forall w :: 0 <= w < WORDS_PER_BLOCK ==>
      r.sparseReady[w] == Or(blocks[k].sparseReady[w], blocks[k].retry[w])
    requires forall w :: 0 <= w < WORDS_PER_BLOCK ==>
      r.redelivered[w] == Or(blocks[k].redelivered[w], blocks[k].retry[w])
    requires b' == r.(retryWordMask := 0, sparseWordMask := Or(blocks[k].sparseWordMask, blocks[k].retryWordMask))
    ensures BlocksOk(blocks[k := b'], head, total)
    ensures var seqs := InBlock(States(blocks, head, total), Retry, k);
      && |seqs| == PopSum(blocks[k].retry, WORDS_PER_BLOCK)
      && States(blocks[k := b'], head, total) == SetAll(States(blocks, head, total), seqs, SparseReady)
      && Redelivered(blocks[k := b'], total) == Redelivered(blocks, total) + (set i | i in seqs)
    ensures blocks[k].retryWordMask != 0 ==> b'.sparseWordMask != 0
  {
    hide BlocksOk, States, SetAll, Redelivered, InBlock, HasBit, MaskOk, Moved, Or, BlockOk, RowPlus, RowMinus;
    RetryRow(blocks, head, total, k);
    BlockAt(blocks, head, total, k);
    var b, seqs := blocks[k], InBlock(States(blocks, head, total), Retry, k);
    RetriedRows(b, r, seqs);
    RetryMoves(b, b', head, seqs);
    MovedStates(blocks, head, total, k, b', seqs, SparseReady);
    InHead(blocks, head, total);
    MarksAdded(blocks, k, b', total, seqs);
    OrIsZero(b.sparseWordMask, b.retryWordMask);
  }

  lemma InHead(blocks: seq<MsgBlock>, head: nat, total: nat)
    requires BlocksOk(blocks, head, total)
    ensures head <= total
  {
  }
}
