/** The hybrid range/block queue (aurum-core): a sequential window over rows of blocks, with two
    intrusive lists of the blocks that hold waiting or retried messages. */
module HybridQueue {
  import opened Words
  import opened Kernels
  import opened IntrusiveList
  import opened QueueSpec
  import opened Blocks

  const RETRY_LINK: nat := 0
  const SPARSE_LINK: nat := 1
  const RETRY_TAG: nat := 0
  const SPARSE_TAG: nat := 1
  const LINK_SLOTS: nat := 3

  datatype InvariantKind = BitConflict | ListMismatch | SeqOutOfOrder | WordMaskMismatch | ListCycle

  class HybridRangeBlockQueue {
    var nextSeq: nat
    var sequentialHead: nat
    var sequentialTail: nat
    const blocks: Arena<MsgBlock>
    const sparseBlocks: IndexList
    const retryBlocks: IndexList

    ghost const Repr: set<object>

    /** The parts every operation keeps even while a block is off its list. */
    ghost predicate Shape()
      reads this, Repr
    {
      && Repr == {this, blocks, sparseBlocks, retryBlocks}
      && sparseBlocks != retryBlocks
      && retryBlocks.slot == RETRY_LINK && retryBlocks.tag == RETRY_TAG
      && sparseBlocks.slot == SPARSE_LINK && sparseBlocks.tag == SPARSE_TAG
      && |blocks.links| == LINK_SLOTS
      && sequentialTail == nextSeq
      && retryBlocks.Valid(blocks)
      && sparseBlocks.Valid(blocks)
      && BlocksOk(blocks.nodes, sequentialHead, nextSeq)
    }

    ghost predicate Inv()
      reads this, Repr
    {
      && Shape()
      && ListOk(blocks.nodes, blocks.links[RETRY_LINK], retryBlocks.items, Retry)
      && ListOk(blocks.nodes, blocks.links[SPARSE_LINK], sparseBlocks.items, SparseReady)
    }

    /** The meaning of the whole structure. */
    ghost function Abs(): (q: Queue)
      reads this, Repr
      requires Shape()
    {
      Queue(States(blocks.nodes, sequentialHead, nextSeq), sequentialHead, Redelivered(blocks.nodes, nextSeq),
            retryBlocks.items, sparseBlocks.items)
    }

    lemma AbsIsValid()
      requires Inv()
      ensures QueueSpec.Valid(Abs())
    {
      AbstractionIsValid(blocks.nodes, sequentialHead, nextSeq, blocks.links, retryBlocks.items, sparseBlocks.items);
    }

    constructor Empty()
      ensures Inv() && fresh(Repr) && Abs() == EMPTY_QUEUE
    {
      nextSeq, sequentialHead, sequentialTail := 0, 0, 0;
      var arena := new Arena<MsgBlock>(LINK_SLOTS);
      var sparse := new IndexList(SPARSE_LINK, SPARSE_TAG);
      var retry := new IndexList(RETRY_LINK, RETRY_TAG);
      blocks, sparseBlocks, retryBlocks := arena, sparse, retry;
      Repr := {this, arena, sparse, retry};
    }

    // ---- Publishing and sequential delivery

    method PublishContiguous(count: nat) returns (r: Range)
      requires Inv() && nextSeq + count <= U32_MAX * MSGS_PER_BLOCK
      modifies this, blocks
      ensures Inv() && Abs() == Publish(old(Abs()), count)
      ensures r == Range(old(nextSeq), count)
    {
      hide States, Redelivered, Realises, BlockOk, Uniform;
      if count == 0 {
        assert Abs().states + Uniform(0, Ready) == Abs().states;
        return Range(nextSeq, 0);
      }
      var start := nextSeq;
      var end := start + count;
      var neededBlocks := (end + MSGS_PER_BLOCK - 1) / MSGS_PER_BLOCK;
      while |blocks.nodes| < neededBlocks
        modifies blocks
        invariant old(blocks.nodes) <= blocks.nodes && |blocks.nodes| <= neededBlocks
        invariant |blocks.links| == LINK_SLOTS && retryBlocks.Valid(blocks) && sparseBlocks.Valid(blocks)
        invariant ListOk(blocks.nodes, blocks.links[RETRY_LINK], retryBlocks.items, Retry)
        invariant ListOk(blocks.nodes, blocks.links[SPARSE_LINK], sparseBlocks.items, SparseReady)
        invariant forall k :: 0 <= k < |blocks.nodes| ==>
          blocks.nodes[k].baseSeq == k * MSGS_PER_BLOCK && BlockOk(blocks.nodes[k], sequentialHead)
      {
        var base := |blocks.nodes| * MSGS_PER_BLOCK;
        NewBlockOk(base, sequentialHead);
        ghost var links := blocks.links;
        GrownListValid(retryBlocks, links[RETRY_LINK]);
        GrownListValid(sparseBlocks, links[SPARSE_LINK]);
        blocks.Push(NewBlock(base));
      }
      PublishedStates(old(blocks.nodes), blocks.nodes, sequentialHead, start, count);
      sequentialTail := end;
      nextSeq := end;
      r := Range(start, count);
    }

    lemma GrownListValid(list: IndexList, links: seq<Link>)
      requires Realises(Header(list.head, list.tail, list.len), links, list.tag, list.items)
      ensures Realises(Header(list.head, list.tail, list.len), links + [UNLINKED], list.tag, list.items)
    {
      OtherLinksAreIrrelevant(Header(list.head, list.tail, list.len), links, links + [UNLINKED], list.tag, list.items);
    }

    /** `mark_inflight_range` at the sequential head; the caller then moves the head. */
    method MarkInflightRange(start: nat, len: nat)
      requires Inv() && start == sequentialHead && start + len <= nextSeq
      modifies blocks`nodes
      ensures BlocksOk(blocks.nodes, start + len, nextSeq) && |blocks.nodes| == |old(blocks.nodes)|
      ensures States(blocks.nodes, start + len, nextSeq) == SetAll(old(Abs()).states, Span(start, len), Inflight)
      ensures Redelivered(blocks.nodes, nextSeq) == old(Abs()).redelivered
      ensures forall k, st :: 0 <= k < |blocks.nodes| ==>
        Pending(blocks.nodes[k], st) == old(Pending(blocks.nodes[k], st))
    {
      hide HasBit, BlocksOk, States, Redelivered, Realises, Span, SetAll;
      SetNothing(Abs().states, start, Inflight);
      if len == 0 { return; }
      var seq0, end := start, start + len;
      while seq0 < end
        invariant start <= seq0 <= end && BlocksOk(blocks.nodes, seq0, nextSeq) && |blocks.nodes| == |old(blocks.nodes)|
        invariant States(blocks.nodes, seq0, nextSeq) == SetAll(old(Abs()).states, Span(start, seq0 - start), Inflight)
        invariant Redelivered(blocks.nodes, nextSeq) == old(Abs()).redelivered
        invariant forall k, st :: 0 <= k < |blocks.nodes| ==>
          Pending(blocks.nodes[k], st) == old(Pending(blocks.nodes[k], st))
      {
        var (k, bit) := Locate(seq0);
        var take := Min(MSGS_PER_BLOCK - bit, end - seq0);
        BlockBound(blocks.nodes, seq0, nextSeq, seq0);
        BlockAt(blocks.nodes, seq0, nextSeq, k);
        var b := blocks.nodes[k];
        var inflight := SetRange(b.inflight, bit, take);
        var b' := b.(inflight := inflight);
        AdvanceHead(blocks.nodes, seq0, nextSeq, b', take);
        MarksKept(blocks.nodes, k, b', nextSeq);
        SpanConcat(start, seq0 - start, take);
        SetAllTwice(old(Abs()).states, Span(start, seq0 - start), Span(seq0, take), Inflight);
        blocks.nodes := blocks.nodes[k := b'];
        seq0 := seq0 + take;
      }
    }

    // ---- Single-block steps

    /** Write back a block whose messages `seqs` moved to `st`. */
    method StoreBlock(k: nat, b: MsgBlock, ghost seqs: seq<nat>, ghost st: MsgState)
      requires Shape() && k < |blocks.nodes|
      requires Moved(blocks.nodes[k], b, sequentialHead, seqs, st) && b.redelivered == blocks.nodes[k].redelivered
      requires forall i :: i in seqs ==> i < sequentialHead && i / MSGS_PER_BLOCK == k
      modifies blocks`nodes
      ensures blocks.nodes == old(blocks.nodes)[k := b]
      ensures Shape() && Abs() == old(Abs()).(states := SetAll(old(Abs()).states, seqs, st))
    {
      hide BlocksOk, Moved, States, SetAll, Redelivered;
      MovedStates(blocks.nodes, sequentialHead, nextSeq, k, b, seqs, st);
      MarksKept(blocks.nodes, k, b, nextSeq);
      blocks.nodes := blocks.nodes[k := b];
    }

    /** What the rows say about messages of block `k` that the queue holds in state `st`. */
    lemma Within(k: nat, seqs: seq<nat>, st: MsgState)
      requires Shape() && k < |blocks.nodes| && st != Ready
      requires forall i :: i in seqs ==> i < |Abs().states| && Abs().states[i] == st && i / MSGS_PER_BLOCK == k
      ensures blocks.nodes[k].baseSeq == k * MSGS_PER_BLOCK && BlockOk(blocks.nodes[k], sequentialHead)
      ensures InState(blocks.nodes[k], seqs, st)
      ensures forall i :: i in seqs ==> i < sequentialHead
    {
      BlockAt(blocks.nodes, sequentialHead, nextSeq, k);
      StatesInBlock(blocks.nodes, sequentialHead, nextSeq, k, seqs, st);
    }

    method EnsureRetryListed(k: nat)
      requires Shape() && k < |blocks.nodes| && Pending(blocks.nodes[k], Retry)
      requires ListOkBut(blocks.nodes, blocks.links[RETRY_LINK], retryBlocks.items, Retry, k)
      requires ListOk(blocks.nodes, blocks.links[SPARSE_LINK], sparseBlocks.items, SparseReady)
      modifies retryBlocks, blocks`links
      ensures Inv() && blocks.nodes == old(blocks.nodes)
      ensures Abs() == old(Abs()).(retryBlocks :=
        if k in old(retryBlocks.items) then old(retryBlocks.items) else old(retryBlocks.items) + [k])
    {
      if blocks.links[RETRY_LINK][k].IsLinked() { return; }
      ListFits(retryBlocks, blocks, k);
      retryBlocks.PushBack(blocks, k);
      MembersAreLinked(Header(retryBlocks.head, retryBlocks.tail, retryBlocks.len), blocks.links[RETRY_LINK], RETRY_TAG,
        retryBlocks.items);
    }

    // ---- Serving retried messages

    /** Block `k` has been taken off the sparse list and is being served. */
    ghost predicate Open(k: nat)
      reads this, Repr
    {
      && Shape() && k < |blocks.nodes| && k !in sparseBlocks.items
      && ListOk(blocks.nodes, blocks.links[RETRY_LINK], retryBlocks.items, Retry)
      && ListOkBut(blocks.nodes, blocks.links[SPARSE_LINK], sparseBlocks.items, SparseReady, k)
    }

    ghost function Waiting(k: nat): (r: seq<nat>)
      reads this, Repr
      requires Shape()
    {
      InBlock(Abs().states, SparseReady, k)
    }

    /** One word of `deliver_sparse_masks`: its lowest bits go out, in order. */
    method ServeWord(k: nat, w: nat, remaining: nat) returns (m: WordMask)
      requires Open(k) && w < WORDS_PER_BLOCK && remaining > 0 && blocks.nodes[k].sparseReady[w] != 0
      requires forall v :: 0 <= v < w ==> blocks.nodes[k].sparseReady[v] == 0
      modifies blocks`nodes
      ensures Open(k) && m.word == w && m.mask != 0 && m.block == k && RowsOk(blocks.nodes[k])
      ensures 0 < |MaskSeqs(m)| <= remaining
      ensures Abs() == old(Abs()).(states := SetAll(old(Abs()).states, MaskSeqs(m), Inflight))
      ensures old(Waiting(k)) == MaskSeqs(m) + Waiting(k)
      ensures forall v :: 0 <= v < w ==> blocks.nodes[k].sparseReady[v] == 0
      ensures |MaskSeqs(m)| < remaining ==> blocks.nodes[k].sparseReady[w] == 0
      ensures forall i :: i in MaskSeqs(m) ==>
        i < |Abs().states| && i / MSGS_PER_BLOCK == k && old(Abs()).states[i] == SparseReady
    {
      hide HasBit, BlocksOk, States, MaskSeqs, SetAll, Redelivered, Moved, MaskOk, Realises, InBlock, Bit;
      BlockAt(blocks.nodes, sequentialHead, nextSeq, k);
      var b := blocks.nodes[k];
      var available := b.sparseReady[w];
      var mask := TakeLowestBitsLocal(available, remaining);
      m := WordMask(k, w, mask);
      LowestFirst(available, mask, |BitList(mask)|);
      ServedInOrder(blocks.nodes, sequentialHead, nextSeq, m, |BitList(mask)|);
      SparseMaskWaiting(blocks.nodes, sequentialHead, nextSeq, m);
      Within(k, MaskSeqs(m), SparseReady);
      MaskRowMinus(b.sparseReady, m);
      MaskRowPlus(b.inflight, m);
      WordMaskMinusOk(b.sparseReady, b.sparseWordMask, m);
      TookAll(available, mask, remaining);
      var word := AndNot(available, mask);
      var b' := b.(sparseReady := b.sparseReady[w := word], inflight := b.inflight[w := Or(b.inflight[w], mask)],
                   sparseWordMask := if word == 0 then AndNot(b.sparseWordMask, OneAt(w)) else b.sparseWordMask);
      ServeMoves(b, b', sequentialHead, MaskSeqs(m));
      StoreBlock(k, b', MaskSeqs(m), Inflight);
    }

    /** Progress inside one block: `masks` have gone out, `remaining` of `max` are still wanted,
        and the words before `w` are empty unless nothing more is wanted. */
    ghost predicate Served(q: Queue, k: nat, max: nat, w: nat, masks: seq<WordMask>, remaining: nat)
      reads this, Repr
      requires Open(k)
    {
      && MasksOk(masks) && RowsOk(blocks.nodes[k]) && w <= WORDS_PER_BLOCK
      && remaining + |MasksSeqs(masks)| == max
      && Abs() == q.(states := SetAll(q.states, MasksSeqs(masks), Inflight))
      && InBlock(q.states, SparseReady, k) == MasksSeqs(masks) + Waiting(k)
      && (remaining != 0 ==> forall v :: 0 <= v < w ==> blocks.nodes[k].sparseReady[v] == 0)
      && (forall i :: i in MasksSeqs(masks) ==> i < |q.states| && i / MSGS_PER_BLOCK == k && q.states[i] == SparseReady)
    }

    method ServeStep(ghost q: Queue, k: nat, ghost max: nat, w: nat, masks: seq<WordMask>, remaining: nat)
        returns (masks': seq<WordMask>, remaining': nat)
      requires Open(k) && w < WORDS_PER_BLOCK && remaining > 0 && Served(q, k, max, w, masks, remaining)
      modifies blocks`nodes
      ensures Open(k) && Served(q, k, max, w + 1, masks', remaining')
    {
      hide BlocksOk, States, MaskSeqs, SetAll, Redelivered, MaskOk, Realises, InBlock, Bit, ListOk, ListOkBut,
        MasksSeqs, MasksOk, PopCount;
      SummaryBit(blocks.nodes[k], w);
      masks', remaining' := masks, remaining;
      if Bit(blocks.nodes[k].sparseWordMask, w) {
        var m := ServeWord(k, w, remaining);
        AppendMask(masks, m);
        SetAllTwice(q.states, MasksSeqs(masks), MaskSeqs(m), Inflight);
        masks' := masks + [m];
        remaining' := remaining - PopCount(m.mask);
        assert InBlock(q.states, SparseReady, k) == MasksSeqs(masks') + Waiting(k);
      }
    }

    /** The words of one block, until `remaining` runs out. */
    method ServeBlock(k: nat, max: nat) returns (masks: seq<WordMask>, remaining: nat)
      requires Open(k) && max > 0
      modifies blocks`nodes
      ensures Open(k) && MasksOk(masks)
      ensures remaining + |MasksSeqs(masks)| == max
      ensures Abs() == old(Abs()).(states := SetAll(old(Abs()).states, MasksSeqs(masks), Inflight))
      ensures old(Waiting(k)) == MasksSeqs(masks) + Waiting(k)
      ensures remaining > 0 ==> !Pending(blocks.nodes[k], SparseReady)
      ensures forall i :: i in MasksSeqs(masks) ==>
        i < |Abs().states| && i / MSGS_PER_BLOCK == k && old(Abs()).states[i] == SparseReady
    {
      hide BlocksOk, States, MaskSeqs, SetAll, Redelivered, MaskOk, Realises, InBlock, Bit, ListOk, ListOkBut,
        MasksSeqs, MasksOk;
      remaining, masks := max, [];
      NoMasks();
      ghost var q := Abs();
      SetNone(q.states, Inflight);
      BlockAt(blocks.nodes, sequentialHead, nextSeq, k);
      var w := 0;
      while w < WORDS_PER_BLOCK && remaining != 0
        invariant Open(k) && Served(q, k, max, w, masks, remaining)
      {
        masks, remaining := ServeStep(q, k, max, w, masks, remaining);
        w := w + 1;
      }
      if remaining > 0 {
        AllWordsEmpty(blocks.nodes[k].sparseReady, blocks.nodes[k].sparseWordMask);
      }
    }

    /** Take the first block off the sparse list. */
    method TakeSparse() returns (k: nat)
      requires Inv() && sparseBlocks.items != []
      modifies sparseBlocks, blocks`links
      ensures Open(k) && k == old(sparseBlocks.items[0]) && blocks.nodes == old(blocks.nodes)
      ensures Abs() == old(Abs()).(sparseBlocks := old(sparseBlocks.items)[1..])
    {
      hide BlocksOk, States, Redelivered;
      var r := sparseBlocks.PopFront(blocks);
      k := r.value;
      HeadNotInTail(old(sparseBlocks.items));
      MembersAreLinked(Header(sparseBlocks.head, sparseBlocks.tail, sparseBlocks.len), blocks.links[SPARSE_LINK],
        SPARSE_TAG, sparseBlocks.items);
    }

    /** Put a block that still holds messages back at the front, so that it is served next. */
    method ReturnSparse(k: nat)
      requires Open(k) && Pending(blocks.nodes[k], SparseReady)
      modifies sparseBlocks, blocks`links
      ensures Inv() && Abs() == old(Abs()).(sparseBlocks := [k] + old(sparseBlocks.items))
    {
      hide BlocksOk, States, Redelivered, Realises;
      ListFits(sparseBlocks, blocks, k);
      sparseBlocks.PushFront(blocks, k);
      MembersAreLinked(Header(sparseBlocks.head, sparseBlocks.tail, sparseBlocks.len), blocks.links[SPARSE_LINK],
        SPARSE_TAG, sparseBlocks.items);
    }

    /** One turn of `deliver_sparse_masks`: the first listed block is served. */
    method ServeFront(max: nat) returns (masks: seq<WordMask>, remaining: nat)
      requires Inv() && max > 0 && sparseBlocks.items != []
      modifies blocks, sparseBlocks
      ensures Inv() && MasksOk(masks) && remaining + |MasksSeqs(masks)| == max
      ensures Abs() == old(Abs()).(states := SetAll(old(Abs()).states, MasksSeqs(masks), Inflight),
        sparseBlocks := sparseBlocks.items)
      ensures Order(old(Abs()).states, SparseReady, old(sparseBlocks.items))
           == MasksSeqs(masks) + Order(Abs().states, SparseReady, sparseBlocks.items)
      ensures sparseBlocks.items == old(sparseBlocks.items)
           || (sparseBlocks.items == old(sparseBlocks.items)[1..]
             && !HasState(Abs().states, SparseReady, old(sparseBlocks.items[0])))
      ensures remaining > 0 ==> |sparseBlocks.items| < |old(sparseBlocks.items)|
    {
      hide BlocksOk, States, SetAll, Redelivered, Realises, InBlock, ListOk, ListOkBut;
      ghost var S, items := Abs().states, sparseBlocks.items;
      var k := TakeSparse();
      masks, remaining := ServeBlock(k, max);
      ghost var S' := Abs().states;
      assert items == [k] + items[1..];
      OrderElsewhere(S, S', SparseReady, k, items[1..]);
      PendingHasState(blocks.nodes, sequentialHead, nextSeq, k, SparseReady);
      EmptyBlock(S', SparseReady, k);
      if Pending(blocks.nodes[k], SparseReady) {
        ReturnSparse(k);
      } else {
        Closed(blocks.nodes, blocks.links[SPARSE_LINK], sparseBlocks.items, k);
      }
    }

    /** `deliver_sparse_masks`: a prefix of the service order goes out. */
    method DeliverSparseMasks(max: nat) returns (masks: seq<WordMask>, delivered: nat)
      requires Inv()
      modifies blocks, sparseBlocks
      ensures Inv() && MasksOk(masks) && delivered == |MasksSeqs(masks)|
      ensures var order := Order(old(Abs()).states, SparseReady, old(sparseBlocks.items));
        MasksSeqs(masks) == order[..Min(max, |order|)]
      ensures var states := SetAll(old(Abs()).states, MasksSeqs(masks), Inflight);
        Abs() == old(Abs()).(states := states,
          sparseBlocks := StillHolding(old(sparseBlocks.items), states, SparseReady))
    {
      hide BlocksOk, States, SetAll, Redelivered, Realises, InBlock, ListOk, Order, HasState, MasksSeqs, MasksOk,
        MaskSeqs;
      NoMasks();
      ghost var q, dropped := Abs(), [];
      ghost var order := Order(q.states, SparseReady, q.sparseBlocks);
      var remaining: nat := max;
      masks, delivered := [], 0;
      SetNone(q.states, Inflight);
      while remaining != 0 && sparseBlocks.head.Some?
        invariant Inv() && MasksOk(masks) && remaining + delivered == max && delivered == |MasksSeqs(masks)|
        invariant Abs() ==
          q.(states := SetAll(q.states, MasksSeqs(masks), Inflight), sparseBlocks := sparseBlocks.items)
        invariant order == MasksSeqs(masks) + Order(Abs().states, SparseReady, sparseBlocks.items)
        invariant q.sparseBlocks == dropped + sparseBlocks.items
        invariant forall b :: b in dropped ==> !HasState(Abs().states, SparseReady, b)
        decreases |sparseBlocks.items|, remaining
      {
        ghost var S, items, sofar := Abs().states, sparseBlocks.items, MasksSeqs(masks);
        HeadMeansItems(sparseBlocks, blocks);
        var served, left := ServeFront(remaining);
        MasksConcat(masks, served);
        SetAllTwice(q.states, sofar, MasksSeqs(served), Inflight);
        NoNewSparse(S, MasksSeqs(served), dropped);
        masks := masks + served;
        delivered := delivered + (remaining - left);
        remaining := left;
        if sparseBlocks.items != items {
          dropped := dropped + [items[0]];
          assert items == [items[0]] + items[1..];
        }
      }
      HeadMeansItems(sparseBlocks, blocks);
      AllHold();
      StillHoldingSuffix(dropped, sparseBlocks.items, Abs().states, SparseReady);
      EmptyOrder(Abs().states);
    }

    lemma AllHold()
      requires Inv()
      ensures forall b :: b in sparseBlocks.items ==> HasState(Abs().states, SparseReady, b)
    {
      AbsIsValid();
    }

    /** The sequential half of `deliver`. */
    method DeliverDirect(max: nat) returns (ranges: seq<Range>, available: nat)
      requires Inv()
      modifies this, blocks`nodes
      ensures Inv() && available == Min(|old(Abs()).states| - old(sequentialHead), max)
      ensures RangesSeqs(ranges) == Span(old(sequentialHead), available)
      ensures forall k :: 0 <= k < |ranges| ==> ranges[k].len > 0
      ensures Abs() == old(Abs()).(states := SetAll(old(Abs()).states, Span(old(sequentialHead), available), Inflight),
                                   head := old(sequentialHead) + available)
    {
      AbsIsValid();
      hide BlocksOk, States, SetAll, Redelivered, Realises, ListOk, Span;
      available := Min(sequentialTail - sequentialHead, max);
      ranges := [];
      SetNothing(Abs().states, sequentialHead, Inflight);
      if available != 0 {
        var start := sequentialHead;
        MarkInflightRange(start, available);
        SamePending(old(blocks.nodes), blocks.nodes, blocks.links[RETRY_LINK], retryBlocks.items, Retry);
        SamePending(old(blocks.nodes), blocks.nodes, blocks.links[SPARSE_LINK], sparseBlocks.items, SparseReady);
        sequentialHead := sequentialHead + available;
        ranges := [Range(start, available)];
      }
      OneRange(ranges, old(sequentialHead), available);
    }

    /** `deliver`: the sequential window first, then retried messages in service order. */
    method Deliver(max: nat) returns (work: Work, delivered: nat)
      requires Inv()
      modifies this, blocks, sparseBlocks
      ensures Inv() && MasksOk(work.masks)
      ensures forall k :: 0 <= k < |work.ranges| ==> work.ranges[k].len > 0
      ensures RangesSeqs(work.ranges) == Span(old(sequentialHead), Min(|old(Abs()).states| - old(sequentialHead), max))
      ensures WorkSeqs(work) == Delivered(old(Abs()), max) && delivered == |WorkSeqs(work)|
      ensures Abs() == QueueSpec.Deliver(old(Abs()), max)
    {
      hide BlocksOk, States, SetAll, Redelivered, Realises, ListOk, Order, Span, HasState, StillHolding, MaskSeqs,
        QueueSpec.Valid;
      AbsIsValid();
      DeliverParts(Abs(), max);
      var ranges, available := DeliverDirect(max);
      work, delivered := Work(ranges, []), available;
      if max - available != 0 {
        var masks, n := DeliverSparseMasks(max - available);
        work := work.(masks := masks);
        delivered := delivered + n;
      }
    }

    // ---- Returning retries to service

    method EnsureSparseListed(k: nat)
      requires Shape() && k < |blocks.nodes| && Pending(blocks.nodes[k], SparseReady)
      requires ListOk(blocks.nodes, blocks.links[RETRY_LINK], retryBlocks.items, Retry)
      requires ListOkBut(blocks.nodes, blocks.links[SPARSE_LINK], sparseBlocks.items, SparseReady, k)
      modifies sparseBlocks, blocks`links
      ensures Inv() && blocks.nodes == old(blocks.nodes)
      ensures Abs() == old(Abs()).(sparseBlocks := MergeBlocks(old(sparseBlocks.items), [k]))
    {
      hide BlocksOk, States, Redelivered, Realises;
      if blocks.links[SPARSE_LINK][k].IsLinked() { return; }
      ListFits(sparseBlocks, blocks, k);
      sparseBlocks.PushBack(blocks, k);
      MembersAreLinked(Header(sparseBlocks.head, sparseBlocks.tail, sparseBlocks.len), blocks.links[SPARSE_LINK],
        SPARSE_TAG, sparseBlocks.items);
    }

    method TakeRetry() returns (k: nat)
      requires Inv() && retryBlocks.items != []
      modifies retryBlocks, blocks`links
      ensures Shape() && k == old(retryBlocks.items[0]) && k < |blocks.nodes| && k !in retryBlocks.items
      ensures blocks.nodes == old(blocks.nodes)
      ensures ListOkBut(blocks.nodes, blocks.links[RETRY_LINK], retryBlocks.items, Retry, k)
      ensures ListOk(blocks.nodes, blocks.links[SPARSE_LINK], sparseBlocks.items, SparseReady)
      ensures Pending(blocks.nodes[k], Retry)
      ensures Abs() == old(Abs()).(retryBlocks := old(retryBlocks.items)[1..])
    {
      hide BlocksOk, States, Redelivered;
      var r := retryBlocks.PopFront(blocks);
      k := r.value;
      HeadNotInTail(old(retryBlocks.items));
      MembersAreLinked(Header(retryBlocks.head, retryBlocks.tail, retryBlocks.len), blocks.links[RETRY_LINK], RETRY_TAG,
        retryBlocks.items);
    }

    /** One turn of `retry_all_now`: the first listed block goes back into service. */
    method RetryFront() returns (moved: nat)
      requires Inv() && retryBlocks.items != []
      modifies blocks, retryBlocks, sparseBlocks
      ensures var k := old(retryBlocks.items[0]); var seqs := InBlock(old(Abs()).states, Retry, k);
        && Inv() && moved == |seqs|
        && Abs() == Queue(SetAll(old(Abs()).states, seqs, SparseReady), old(sequentialHead),
                          old(Abs()).redelivered + (set i | i in seqs), old(retryBlocks.items)[1..],
                          MergeBlocks(old(sparseBlocks.items), [k]))
    {
      hide BlocksOk, States, SetAll, Redelivered, Realises, InBlock, MaskOk, Or, MergeBlocks, BlockOk, PopSum;
      var k := TakeRetry();
      BlockAt(blocks.nodes, sequentialHead, nextSeq, k);
      BlockRows(blocks.nodes[k], sequentialHead);
      var b := blocks.nodes[k];
      var r, n := RetryWords(b);
      var b' := r.(retryWordMask := 0, sparseWordMask := Or(b.sparseWordMask, b.retryWordMask));
      RetriedBlock(blocks.nodes, sequentialHead, nextSeq, k, r, b');
      blocks.nodes := blocks.nodes[k := b'];
      EnsureSparseListed(k);
      moved := n;
    }

    /** `retry_all_now`: every waiting message becomes ready for redelivery. */
    method RetryAllNow() returns (moved: nat)
      requires Inv()
      modifies blocks, retryBlocks, sparseBlocks
      ensures Inv() && Abs() == QueueSpec.RetryAllNow(old(Abs())) && moved == Count(old(Abs()).states, Retry)
    {
      hide BlocksOk, States, SetAll, Redelivered, Realises, InBlock, ListOk, MergeBlocks, Order, Count, QueueSpec.Valid,
        RetriedSoFar;
      ghost var q, n := Abs(), 0;
      AbsIsValid();
      moved := 0;
      RetryStarts(q);
      while retryBlocks.head.Some?
        invariant n <= |q.retryBlocks| && Inv() && Abs() == RetriedSoFar(q, n)
        invariant moved == |Order(q.states, Retry, q.retryBlocks[..n])|
        decreases |q.retryBlocks| - n
      {
        HeadMeansItems(retryBlocks, blocks);
        RetryStep(q, n);
        var m := RetryFront();
        moved := moved + m;
        n := n + 1;
      }
      HeadMeansItems(retryBlocks, blocks);
      RetryEnds(q, n);
    }

    // ---- Readers

    /** `debug_state_of` reads the abstract state of every published message. */
    method DebugStateOf(i: nat) returns (st: Option<MsgState>)
      requires Inv()
      ensures st == if i < nextSeq then Some(Abs().states[i]) else None
    {
      if i >= nextSeq { return None; }
      if sequentialHead <= i < sequentialTail { return Some(Ready); }
      var (k, p) := Locate(i);
      assert BitOk(blocks.nodes[k], p, sequentialHead);
      return BlockState(blocks.nodes[k], p);
    }

    /** `redelivered_mask`: the bits of a delivery that carry the redelivered mark. */
    method RedeliveredMask(m: WordMask) returns (r: u64)
      requires Inv() && m.block < |blocks.nodes| && m.word < WORDS_PER_BLOCK
      requires forall i :: i in MaskSeqs(m) ==> i < nextSeq
      ensures r != 0 <==> exists i :: i in MaskSeqs(m) && i in Abs().redelivered
    {
      BlockAt(blocks.nodes, sequentialHead, nextSeq, m.block);
      r := And(blocks.nodes[m.block].redelivered[m.word], m.mask);
      MarkedMask(blocks.nodes, m, nextSeq, r);
    }

    /** `debug_counts`: the structural counts are the counts of the abstract states. */
    method DebugCounts() returns (c: QueueCounts)
      requires Inv()
      ensures c == Counts(Abs().states)
    {
      hide HasBit, States, PopSum, Realises, ListOk, Redelivered, Count, BlockOk;
      var nodes := blocks.nodes;
      AllRowsSized(nodes, sequentialHead, nextSeq);
      var sparse, inflight, acked, retry := 0, 0, 0, 0;
      for k := 0 to |nodes|
        invariant sparse == PopTotal(nodes[..k], SparseReady) && inflight == PopTotal(nodes[..k], Inflight)
        invariant acked == PopTotal(nodes[..k], Acked) && retry == PopTotal(nodes[..k], Retry)
      {
        BlockAt(nodes, sequentialHead, nextSeq, k);
        assert nodes[..k + 1][..k] == nodes[..k] && nodes[..k + 1][k] == nodes[k];
        var s, i, a, r := CountBlock(nodes[k]);
        sparse, inflight, acked, retry := sparse + s, inflight + i, acked + a, retry + r;
      }
      assert nodes[..|nodes|] == nodes;
      PopTotalIsCount(nodes, sequentialHead, nextSeq, SparseReady);
      PopTotalIsCount(nodes, sequentialHead, nextSeq, Inflight);
      PopTotalIsCount(nodes, sequentialHead, nextSeq, Acked);
      PopTotalIsCount(nodes, sequentialHead, nextSeq, Retry);
      AbsIsValid();
      WindowIsReady(Abs());
      c := QueueCounts(nextSeq, sequentialTail - sequentialHead + sparse, inflight, acked, retry);
    }

    // ---- The validator

    /** The structure can be read: rows have four words and every slot covers all blocks. */
    ghost predicate Readable()
      reads this, blocks
    {
      && |blocks.links| == LINK_SLOTS
      && (forall s :: 0 <= s < LINK_SLOTS ==> |blocks.links[s]| == |blocks.nodes|)
      && (forall k :: 0 <= k < |blocks.nodes| ==> Sized(blocks.nodes[k]))
    }

    /** What a passing validation means. */
    ghost predicate Sound()
      reads this, blocks, retryBlocks, sparseBlocks
      requires Readable()
    {
      && sequentialHead <= sequentialTail <= nextSeq
      && (forall k :: 0 <= k < |blocks.nodes| ==> BlockSound(k))
      && (exists items :: Realises(Header(retryBlocks.head, retryBlocks.tail, retryBlocks.len),
        blocks.links[RETRY_LINK], RETRY_TAG, items))
      && (exists items :: Realises(Header(sparseBlocks.head, sparseBlocks.tail, sparseBlocks.len),
        blocks.links[SPARSE_LINK], SPARSE_TAG, items))
    }

    ghost predicate BlockSound(k: nat)
      reads this, blocks
      requires Readable() && k < |blocks.nodes|
    {
      && NoConflict(blocks.nodes[k]) && SummaryOk(blocks.nodes[k])
      && (Pending(blocks.nodes[k], Retry) <==> blocks.links[RETRY_LINK][k].IsLinked())
      && (Pending(blocks.nodes[k], SparseReady) <==> blocks.links[SPARSE_LINK][k].IsLinked())
    }

    /** The first block that is not sound has the fault. */
    ghost predicate BlockFault(k: nat, kind: InvariantKind)
      reads this, blocks
      requires Readable()
    {
      && k < |blocks.nodes| && (forall j :: 0 <= j < k ==> BlockSound(j)) && !BlockSound(k)
      && if NoConflict(blocks.nodes[k]) && SummaryOk(blocks.nodes[k]) then kind == ListMismatch
        else WordsFault(blocks.nodes[k], kind)
    }

    /** `validate_invariants` accepts exactly the sound structures, and names what is wrong with the others:
        the sequence numbers, else the first unsound block, else the block lists. */
    method ValidateInvariants() returns (r: Option<InvariantKind>)
      requires Readable()
      ensures r.None? <==> Sound()
      ensures r == Some(SeqOutOfOrder) <==> !(sequentialHead <= sequentialTail <= nextSeq)
      ensures r == Some(ListCycle) <==>
        && sequentialHead <= sequentialTail <= nextSeq && !Sound()
        && (forall k :: 0 <= k < |blocks.nodes| ==> BlockSound(k))
      ensures r.Some? && r != Some(SeqOutOfOrder) && r != Some(ListCycle) ==> exists k :: BlockFault(k, r.value)
    {
      hide NoConflict, SummaryOk, Realises, Sized;
      if sequentialHead > sequentialTail { return Some(SeqOutOfOrder); }
      if sequentialTail > nextSeq { return Some(SeqOutOfOrder); }
      for k := 0 to |blocks.nodes|
        invariant forall j :: 0 <= j < k ==> BlockSound(j)
      {
        var b := blocks.nodes[k];
        var bad := CheckWords(b);
        assert BlockSound(k) ==> bad.None?;
        assert BlockSound(k) ==> Pending(b, Retry) == blocks.links[RETRY_LINK][k].IsLinked();
        assert BlockSound(k) ==> Pending(b, SparseReady) == blocks.links[SPARSE_LINK][k].IsLinked();
        if bad.Some? {
          assert BlockFault(k, bad.value);
          return bad;
        }
        assert !BlockSound(k) ==> BlockFault(k, ListMismatch);
        if Pending(b, Retry) != blocks.links[RETRY_LINK][k].IsLinked() { return Some(ListMismatch); }
        if Pending(b, SparseReady) != blocks.links[SPARSE_LINK][k].IsLinked() { return Some(ListMismatch); }
      }
      var v := Validate(Header(retryBlocks.head, retryBlocks.tail, retryBlocks.len), blocks.links[RETRY_LINK],
        RETRY_TAG);
      if v.Err? { return Some(ListCycle); }
      v := Validate(Header(sparseBlocks.head, sparseBlocks.tail, sparseBlocks.len), blocks.links[SPARSE_LINK],
        SPARSE_TAG);
      if v.Err? { return Some(ListCycle); }
      r := None;
    }

    /** Every queue the operations can produce passes validation. */
    lemma InvariantImpliesSound()
      requires Inv()
      ensures Readable() && Sound()
    {
      forall k | 0 <= k < |blocks.nodes|
        ensures Sized(blocks.nodes[k]) && NoConflict(blocks.nodes[k]) && SummaryOk(blocks.nodes[k])
      {
        BlockAt(blocks.nodes, sequentialHead, nextSeq, k);
        OkBlockHasNoConflict(blocks.nodes[k], sequentialHead);
      }
      assert Readable();
      forall k | 0 <= k < |blocks.nodes| ensures BlockSound(k) { }
      assert Realises(Header(retryBlocks.head, retryBlocks.tail, retryBlocks.len), blocks.links[RETRY_LINK], RETRY_TAG,
        retryBlocks.items);
      assert Realises(Header(sparseBlocks.head, sparseBlocks.tail, sparseBlocks.len), blocks.links[SPARSE_LINK],
        SPARSE_TAG, sparseBlocks.items);
    }

    // ---- Settlement

    /** One iteration of `ack_range`: a run of bits inside block `k`. */
    method AckRun(k: nat, bit: nat, take: nat)
      requires Inv() && k < |blocks.nodes| && bit + take <= MSGS_PER_BLOCK
      requires AllInflight(Abs(), Span(k * MSGS_PER_BLOCK + bit, take))
      modifies blocks`nodes
      ensures Inv() && Abs() == Ack(old(Abs()), Span(k * MSGS_PER_BLOCK + bit, take))
    {
      hide HasBit, BlocksOk, States, Span, SetAll, Redelivered, Moved, Realises;
      ghost var seqs := Span(k * MSGS_PER_BLOCK + bit, take);
      Within(k, seqs, Inflight);
      var b := blocks.nodes[k];
      var acked := SetRange(b.acked, bit, take);
      var inflight := ClearRange(b.inflight, bit, take);
      var b' := b.(acked := acked, inflight := inflight);
      RangeRowPlus(acked, b.acked, b.baseSeq, bit, take);
      RangeRowMinus(inflight, b.inflight, b.baseSeq, bit, take);
      AckMoves(b, b', sequentialHead, seqs);
      StoreBlock(k, b', seqs, Acked);
    }

    method AckMask(m: WordMask)
      requires Inv() && m.block < |blocks.nodes| && m.word < WORDS_PER_BLOCK
      requires AllInflight(Abs(), MaskSeqs(m))
      modifies blocks`nodes
      ensures Inv() && Abs() == Ack(old(Abs()), MaskSeqs(m))
    {
      hide HasBit, BlocksOk, States, MaskSeqs, SetAll, Redelivered, Moved, Realises;
      Within(m.block, MaskSeqs(m), Inflight);
      var b, w := blocks.nodes[m.block], m.word;
      MaskRowMinus(b.inflight, m);
      MaskRowPlus(b.acked, m);
      var b' :=
        b.(inflight := b.inflight[w := AndNot(b.inflight[w], m.mask)], acked := b.acked[w := Or(b.acked[w], m.mask)]);
      AckMoves(b, b', sequentialHead, MaskSeqs(m));
      StoreBlock(m.block, b', MaskSeqs(m), Acked);
    }

    /** One iteration of `nack_range_to_retry`. */
    method NackRun(k: nat, bit: nat, take: nat)
      requires Inv() && k < |blocks.nodes| && 0 < take && bit + take <= MSGS_PER_BLOCK
      requires AllInflight(Abs(), Span(k * MSGS_PER_BLOCK + bit, take))
      modifies blocks, retryBlocks
      ensures Inv() && Abs() == NackToRetry(old(Abs()), Span(k * MSGS_PER_BLOCK + bit, take))
      ensures |blocks.nodes| == |old(blocks.nodes)|
    {
      hide HasBit, BlocksOk, States, Span, SetAll, Redelivered, Moved, MaskOk, MergeBlocks, Realises;
      ghost var seqs := Span(k * MSGS_PER_BLOCK + bit, take);
      Within(k, seqs, Inflight);
      var b := blocks.nodes[k];
      var inflight := ClearRange(b.inflight, bit, take);
      var retry := SetRange(b.retry, bit, take);
      var mask := MarkWords(b.retryWordMask, bit / 64, (bit + take - 1) / 64);
      var b' := b.(inflight := inflight, retry := retry, retryWordMask := mask);
      RangeRowPlus(retry, b.retry, b.baseSeq, bit, take);
      RangeRowMinus(inflight, b.inflight, b.baseSeq, bit, take);
      RangeMaskOk(b.retry, retry, b.retryWordMask, mask, bit, take);
      NackMoves(b, b', sequentialHead, seqs);
      StoreBlock(k, b', seqs, Retry);
      MarkedIsPending(mask, bit / 64);
      EnsureRetryListed(k);
      MergeOneBlock(old(retryBlocks.items), seqs, k);
    }

    method NackMask(m: WordMask)
      requires Inv() && m.block < |blocks.nodes| && m.word < WORDS_PER_BLOCK && m.mask != 0
      requires AllInflight(Abs(), MaskSeqs(m))
      modifies blocks, retryBlocks
      ensures Inv() && Abs() == NackToRetry(old(Abs()), MaskSeqs(m))
      ensures |blocks.nodes| == |old(blocks.nodes)|
    {
      hide HasBit, BlocksOk, States, MaskSeqs, SetAll, Redelivered, Moved, MaskOk, MergeBlocks, Realises;
      Within(m.block, MaskSeqs(m), Inflight);
      var b, w := blocks.nodes[m.block], m.word;
      MaskRowMinus(b.inflight, m);
      MaskRowPlus(b.retry, m);
      WordMaskPlusOk(b.retry, b.retryWordMask, m);
      var b' :=
        b.(inflight := b.inflight[w := AndNot(b.inflight[w], m.mask)], retry := b.retry[w := Or(b.retry[w], m.mask)],
                   retryWordMask := Or(b.retryWordMask, OneAt(w)));
      NackMoves(b, b', sequentialHead, MaskSeqs(m));
      StoreBlock(m.block, b', MaskSeqs(m), Retry);
      MarkedIsPending(b'.retryWordMask, w);
      EnsureRetryListed(m.block);
      MergeOneBlock(old(retryBlocks.items), MaskSeqs(m), m.block);
    }

    method AckRange(start: nat, len: nat)
      requires Inv() && AllInflight(Abs(), Span(start, len))
      modifies blocks`nodes
      ensures Inv() && Abs() == Ack(old(Abs()), Span(start, len))
      ensures |blocks.nodes| == |old(blocks.nodes)|
    {
      hide BlocksOk, States, Span, SetAll, Redelivered, Realises;
      ghost var q := Abs();
      AckNothing(q, start);
      if len == 0 { return; }
      var seq0, end := start, start + len;
      while seq0 < end
        invariant start <= seq0 <= end && Inv()
        invariant Abs() == Ack(q, Span(start, seq0 - start))
        invariant |blocks.nodes| == |old(blocks.nodes)|
      {
        var (k, bit) := Locate(seq0);
        var take := Min(MSGS_PER_BLOCK - bit, end - seq0);
        RunAhead(q, start, len, seq0 - start, take);
        InRange(k, seq0);
        AckRun(k, bit, take);
        AckTwice(q, Span(start, seq0 - start), Span(seq0, take));
        seq0 := seq0 + take;
      }
    }

    method NackRangeToRetry(start: nat, len: nat)
      requires Inv() && AllInflight(Abs(), Span(start, len))
      modifies blocks, retryBlocks
      ensures Inv() && Abs() == NackToRetry(old(Abs()), Span(start, len))
      ensures |blocks.nodes| == |old(blocks.nodes)|
    {
      hide BlocksOk, States, Span, SetAll, Redelivered, MergeBlocks, Realises;
      ghost var q := Abs();
      NackNothing(q, start);
      if len == 0 { return; }
      var seq0, end := start, start + len;
      while seq0 < end
        invariant start <= seq0 <= end && Inv()
        invariant Abs() == NackToRetry(q, Span(start, seq0 - start))
        invariant |blocks.nodes| == |old(blocks.nodes)|
      {
        var (k, bit) := Locate(seq0);
        var take := Min(MSGS_PER_BLOCK - bit, end - seq0);
        RunAhead(q, start, len, seq0 - start, take);
        InRange(k, seq0);
        NackRun(k, bit, take);
        NackTwice(q, Span(start, seq0 - start), Span(seq0, take));
        seq0 := seq0 + take;
      }
    }

    lemma InRange(k: nat, i: nat)
      requires Shape() && i < |Abs().states| && k == i / MSGS_PER_BLOCK
      ensures k < |blocks.nodes|
    {
    }

    method AckRanges(ranges: seq<Range>)
      requires Inv() && Distinct(RangesSeqs(ranges)) && AllInflight(Abs(), RangesSeqs(ranges))
      modifies blocks`nodes
      ensures Inv() && Abs() == Ack(old(Abs()), RangesSeqs(ranges))
    {
      hide BlocksOk, States, Redelivered, Realises, Span, Ack, AllInflight, ListOk;
      ghost var q := Abs();
      AckNothing(q, 0);
      for k := 0 to |ranges|
        invariant Inv() && Abs() == Ack(q, RangesSeqs(ranges[..k]))
      {
        NextRange(ranges, k);
        ghost var done, now := RangesSeqs(ranges[..k]), Span(ranges[k].start, ranges[k].len);
        BatchAhead(q, done, now, RangesSeqs(ranges));
        AckRange(ranges[k].start, ranges[k].len);
        AckTwice(q, done, now);
      }
      assert ranges[..|ranges|] == ranges;
    }

    method AckMasks(masks: seq<WordMask>)
      requires Inv() && MasksOk(masks) && Distinct(MasksSeqs(masks)) && AllInflight(Abs(), MasksSeqs(masks))
      modifies blocks`nodes
      ensures Inv() && Abs() == Ack(old(Abs()), MasksSeqs(masks))
    {
      hide BlocksOk, States, Redelivered, Realises, MaskSeqs, MasksSeqs, Ack, AllInflight, ListOk;
      NoMasks();
      ghost var q := Abs();
      AckNothing(q, 0);
      for k := 0 to |masks|
        invariant Inv() && Abs() == Ack(q, MasksSeqs(masks[..k]))
      {
        NextMask(masks, k);
        ghost var done, now := MasksSeqs(masks[..k]), MaskSeqs(masks[k]);
        BatchAhead(q, done, now, MasksSeqs(masks));
        MaskInRange(masks[k]);
        AckMask(masks[k]);
        AckTwice(q, done, now);
      }
      assert masks[..|masks|] == masks;
    }

    method NackRanges(ranges: seq<Range>)
      requires Inv() && Distinct(RangesSeqs(ranges)) && AllInflight(Abs(), RangesSeqs(ranges))
      modifies blocks, retryBlocks
      ensures Inv() && Abs() == NackToRetry(old(Abs()), RangesSeqs(ranges))
    {
      hide BlocksOk, States, Redelivered, Realises, Span, NackToRetry, AllInflight, ListOk;
      ghost var q := Abs();
      NackNothing(q, 0);
      for k := 0 to |ranges|
        invariant Inv() && Abs() == NackToRetry(q, RangesSeqs(ranges[..k]))
      {
        NextRange(ranges, k);
        ghost var done, now := RangesSeqs(ranges[..k]), Span(ranges[k].start, ranges[k].len);
        BatchAhead(q, done, now, RangesSeqs(ranges));
        NackRangeToRetry(ranges[k].start, ranges[k].len);
        NackTwice(q, done, now);
      }
      assert ranges[..|ranges|] == ranges;
    }

    method NackMasks(masks: seq<WordMask>)
      requires Inv() && MasksOk(masks) && Distinct(MasksSeqs(masks)) && AllInflight(Abs(), MasksSeqs(masks))
      modifies blocks, retryBlocks
      ensures Inv() && Abs() == NackToRetry(old(Abs()), MasksSeqs(masks))
    {
      hide BlocksOk, States, Redelivered, Realises, MaskSeqs, MasksSeqs, NackToRetry, AllInflight, ListOk;
      NoMasks();
      ghost var q := Abs();
      NackNothing(q, 0);
      for k := 0 to |masks|
        invariant Inv() && Abs() == NackToRetry(q, MasksSeqs(masks[..k]))
      {
        NextMask(masks, k);
        ghost var done, now := MasksSeqs(masks[..k]), MaskSeqs(masks[k]);
        BatchAhead(q, done, now, MasksSeqs(masks));
        MaskInRange(masks[k]);
        NackMask(masks[k]);
        NackTwice(q, done, now);
      }
      assert masks[..|masks|] == masks;
    }

    /** `apply_ack_batch`: exactly the messages of the batch become acked. */
    method ApplyAckBatch(batch: Work)
      requires Inv() && MasksOk(batch.masks)
      requires Distinct(WorkSeqs(batch)) && AllInflight(Abs(), WorkSeqs(batch))
      modifies blocks`nodes
      ensures Inv() && Abs() == Ack(old(Abs()), WorkSeqs(batch))
    {
      ghost var q := Abs();
      DisjointParts(RangesSeqs(batch.ranges), MasksSeqs(batch.masks));
      StillInflight(q, RangesSeqs(batch.ranges), MasksSeqs(batch.masks));
      AckTwice(q, RangesSeqs(batch.ranges), MasksSeqs(batch.masks));
      AckRanges(batch.ranges);
      AckMasks(batch.masks);
    }

    /** `apply_nack_batch`: exactly the messages of the batch go to retry, and their blocks are
        listed in the order in which the batch first meets them. */
    method ApplyNackBatch(batch: Work)
      requires Inv() && MasksOk(batch.masks)
      requires Distinct(WorkSeqs(batch)) && AllInflight(Abs(), WorkSeqs(batch))
      modifies blocks, retryBlocks
      ensures Inv() && Abs() == NackToRetry(old(Abs()), WorkSeqs(batch))
    {
      ghost var q := Abs();
      DisjointParts(RangesSeqs(batch.ranges), MasksSeqs(batch.masks));
      StillInflight(q, RangesSeqs(batch.ranges), MasksSeqs(batch.masks));
      NackTwice(q, RangesSeqs(batch.ranges), MasksSeqs(batch.masks));
      NackRanges(batch.ranges);
      NackMasks(batch.masks);
    }

    lemma MaskInRange(m: WordMask)
      requires Shape() && m.word < WORDS_PER_BLOCK && m.mask != 0 && AllInflight(Abs(), MaskSeqs(m))
      ensures m.block < |blocks.nodes|
    {
      var i := MaskSeqs(m)[0];
      assert i in MaskSeqs(m);
      InRange(m.block, i);
    }
  }

  lemma BlockBound(blocks: seq<MsgBlock>, head: nat, total: nat, i: nat)
    requires BlocksOk(blocks, head, total) && i < total
    ensures i / MSGS_PER_BLOCK < |blocks|
  {
  }

  lemma SetNothing(states: seq<MsgState>, start: nat, st: MsgState)
    ensures SetAll(states, Span(start, 0), st) == states
  {
    assert Span(start, 0) == [];
  }

  lemma SetNone(states: seq<MsgState>, st: MsgState)
    ensures SetAll(states, [], st) == states
  {
  }

  lemma SummaryBit(b: MsgBlock, w: nat)
    requires RowsOk(b) && w < WORDS_PER_BLOCK
    ensures Bit(b.sparseWordMask, w) <==> b.sparseReady[w] != 0
  {
  }

  /** A mask shorter than asked for has emptied the word. */
  lemma TookAll(available: u64, mask: u64, remaining: nat)
    requires BitList(mask) == BitList(available)[..Min(remaining, |BitList(available)|)]
    requires available != 0 && remaining > 0
    ensures mask != 0 && PopCount(mask) <= remaining
    ensures PopCount(mask) < remaining ==> AndNot(available, mask) == 0
  {
    if PopCount(mask) < remaining {
      assert BitList(mask) == BitList(available);
      EmptyWord(AndNot(available, mask));
    }
  }

  /** A served-out block leaves the list exactly indexing the rest. */
  lemma Closed(nodes: seq<MsgBlock>, links: seq<Link>, items: seq<nat>, k: nat)
    requires ListOkBut(nodes, links, items, SparseReady, k) && k < |nodes| && !Pending(nodes[k], SparseReady)
    ensures ListOk(nodes, links, items, SparseReady)
  {
  }

  lemma HeadMeansItems(list: IndexList, arena: Arena<MsgBlock>)
    requires list.Valid(arena)
    ensures list.head.Some? <==> list.items != []
  {
  }

  lemma EmptyOrder(states: seq<MsgState>)
    ensures Order(states, SparseReady, []) == []
  {
  }

  lemma NoMasks()
    ensures MasksOk([]) && MasksSeqs([]) == []
  {
  }

  lemma AppendMask(masks: seq<WordMask>, m: WordMask)
    requires MasksOk(masks) && m.word < WORDS_PER_BLOCK && m.mask != 0
    ensures MasksOk(masks + [m]) && MasksSeqs(masks + [m]) == MasksSeqs(masks) + MaskSeqs(m)
  {
    hide MaskSeqs;
    assert (masks + [m])[..|masks|] == masks;
  }

  lemma {:induction false} MasksConcat(a: seq<WordMask>, b: seq<WordMask>)
    requires MasksOk(a) && MasksOk(b)
    ensures MasksOk(a + b) && MasksSeqs(a + b) == MasksSeqs(a) + MasksSeqs(b)
  {
    hide MaskSeqs, MasksSeqs;
    if b == [] {
      NoMasks();
      assert a + b == a;
    } else {
      var n := |b| - 1;
      var init, last := b[..n], b[n];
      MasksConcat(a, init);
      AppendMask(init, last);
      AppendMask(a + init, last);
      assert init + [last] == b && (a + init) + [last] == a + b;
    }
  }

  lemma NoNewSparse(states: seq<MsgState>, seqs: seq<nat>, blocks: seq<nat>)
    requires forall b :: b in blocks ==> !HasState(states, SparseReady, b)
    ensures forall b :: b in blocks ==> !HasState(SetAll(states, seqs, Inflight), SparseReady, b)
  {
  }

  lemma SamePending(nodes: seq<MsgBlock>, nodes': seq<MsgBlock>, links: seq<Link>, items: seq<nat>, st: MsgState)
    requires ListOk(nodes, links, items, st) && |nodes'| == |nodes|
    requires forall k :: 0 <= k < |nodes| ==> Pending(nodes'[k], st) == Pending(nodes[k], st)
    ensures ListOk(nodes', links, items, st)
  {
  }

  lemma OneRange(ranges: seq<Range>, start: nat, len: nat)
    requires ranges == (if len == 0 then [] else [Range(start, len)])
    ensures RangesSeqs(ranges) == Span(start, len)
  {
    if len != 0 { assert RangesSeqs(ranges[..0]) == []; }
  }

  /** The two halves of a delivery, as the code performs them. */
  lemma DeliverParts(q: Queue, max: nat)
    requires QueueSpec.Valid(q)
    ensures q.head <= |q.states|
    ensures var direct := Min(max, |q.states| - q.head);
      var mid, order := SetAll(q.states, Span(q.head, direct), Inflight), Order(q.states, SparseReady, q.sparseBlocks);
      && Order(mid, SparseReady, q.sparseBlocks) == order
      && Delivered(q, max) == Span(q.head, direct) + order[..Min(max - direct, |order|)]
      && SetAll(q.states, Delivered(q, max), Inflight) == SetAll(mid, order[..Min(max - direct, |order|)], Inflight)
      && (max == direct ==> Delivered(q, max) == Span(q.head, direct))
      && StillHolding(q.sparseBlocks, mid, SparseReady) == q.sparseBlocks
  {
    hide Order, Span, StillHolding, InBlock;
    var direct := Min(max, |q.states| - q.head);
    var mid, order := SetAll(q.states, Span(q.head, direct), Inflight), Order(q.states, SparseReady, q.sparseBlocks);
    OrderSame(q.states, mid, SparseReady, q.sparseBlocks);
    SetAllTwice(q.states, Span(q.head, direct), order[..Min(max - direct, |order|)], Inflight);
    forall b | b in q.sparseBlocks ensures HasState(mid, SparseReady, b) {
      var i :| 0 <= i < |q.states| && i / MSGS_PER_BLOCK == b && q.states[i] == SparseReady;
      assert mid[i] == SparseReady;
    }
    StillHoldingAll(q.sparseBlocks, mid, SparseReady);
  }

  /** The queue when `retry_all_now` has emptied the first `n` listed blocks. */
  ghost function RetriedSoFar(q: Queue, n: nat): (r: Queue)
    requires n <= |q.retryBlocks|
  {
    var done := Order(q.states, Retry, q.retryBlocks[..n]);
    Queue(SetAll(q.states, done, SparseReady), q.head, q.redelivered + (set i | i in done), q.retryBlocks[n..],
          MergeBlocks(q.sparseBlocks, q.retryBlocks[..n]))
  }

  lemma RetryStarts(q: Queue)
    ensures RetriedSoFar(q, 0) == q && Order(q.states, Retry, q.retryBlocks[..0]) == []
  {
    SetNone(q.states, SparseReady);
  }

  lemma OrderOfOne(states: seq<MsgState>, st: MsgState, k: nat)
    ensures Order(states, st, [k]) == InBlock(states, st, k)
  {
    assert [k][1..] == [];
  }

  lemma NotBefore(s: seq<nat>, n: nat)
    requires Distinct(s) && n < |s|
    ensures s[n] !in s[..n]
  {
  }

  lemma RetryStep(q: Queue, n: nat)
    requires QueueSpec.Valid(q) && n <= |q.retryBlocks| && RetriedSoFar(q, n).retryBlocks != []
    ensures n < |q.retryBlocks|
    ensures var s := RetriedSoFar(q, n); var k := s.retryBlocks[0]; var seqs := InBlock(s.states, Retry, k);
      && Order(q.states, Retry, q.retryBlocks[..n + 1]) == Order(q.states, Retry, q.retryBlocks[..n]) + seqs
      && RetriedSoFar(q, n + 1) ==
        Queue(SetAll(s.states, seqs, SparseReady), s.head, s.redelivered + (set i | i in seqs),
                                         s.retryBlocks[1..], MergeBlocks(s.sparseBlocks, [k]))
  {
    hide Order, InBlock, MergeBlocks, SetAll, HasState;
    var blocks := q.retryBlocks;
    var s, k := RetriedSoFar(q, n), blocks[n];
    var done, seqs := Order(q.states, Retry, blocks[..n]), InBlock(q.states, Retry, k);
    assert blocks[..n + 1] == blocks[..n] + [k];
    OrderConcat(q.states, Retry, blocks[..n], [k]);
    OrderOfOne(q.states, Retry, k);
    NotBefore(blocks, n);
    AscendingUnique(InBlock(s.states, Retry, k), seqs);
    SetAllTwice(q.states, done, seqs, SparseReady);
    MergeTwice(q.sparseBlocks, blocks[..n], [k]);
  }

  lemma RetryEnds(q: Queue, n: nat)
    requires QueueSpec.Valid(q) && n <= |q.retryBlocks| && RetriedSoFar(q, n).retryBlocks == []
    ensures RetriedSoFar(q, n) == QueueSpec.RetryAllNow(q)
    ensures |Order(q.states, Retry, q.retryBlocks[..n])| == Count(q.states, Retry)
  {
    hide Order, Select, MergeBlocks, Count, HasState;
    assert q.retryBlocks[..n] == q.retryBlocks;
    OrderIsComplete(q.states, Retry, q.retryBlocks);
    var waiting, done := Select(q.states, Retry, 0, |q.states|), Order(q.states, Retry, q.retryBlocks);
    assert forall i :: i in waiting <==> i in done;
    assert SetAll(q.states, waiting, SparseReady) == SetAll(q.states, done, SparseReady);
  }

  lemma AllRowsSized(nodes: seq<MsgBlock>, head: nat, total: nat)
    requires BlocksOk(nodes, head, total)
    ensures forall k, st :: 0 <= k <= |nodes| && st != Ready ==> RowsSized(nodes[..k], st)
    ensures forall st :: st != Ready ==> RowsSized(nodes, st)
  {
  }

  /** The word loop of `debug_counts` over one block; a row whose summary bit is off is skipped. */
  method CountBlock(b: MsgBlock) returns (sparse: nat, inflight: nat, acked: nat, retry: nat)
    requires RowsOk(b)
    ensures sparse == PopSum(b.sparseReady, WORDS_PER_BLOCK) && inflight == PopSum(b.inflight, WORDS_PER_BLOCK)
    ensures acked == PopSum(b.acked, WORDS_PER_BLOCK) && retry == PopSum(b.retry, WORDS_PER_BLOCK)
  {
    hide Bit, PopCount;
    sparse, inflight, acked, retry := 0, 0, 0, 0;
    for w := 0 to WORDS_PER_BLOCK
      invariant sparse == PopSum(b.sparseReady, w) && inflight == PopSum(b.inflight, w)
      invariant acked == PopSum(b.acked, w) && retry == PopSum(b.retry, w)
    {
      inflight := inflight + PopCount(b.inflight[w]);
      acked := acked + PopCount(b.acked[w]);
      if Bit(b.sparseWordMask, w) { sparse := sparse + PopCount(b.sparseReady[w]); }
      if Bit(b.retryWordMask, w) { retry := retry + PopCount(b.retry[w]); }
    }
  }

  lemma MarkedMask(nodes: seq<MsgBlock>, m: WordMask, total: nat, r: u64)
    requires m.block < |nodes| && m.word < WORDS_PER_BLOCK == |nodes[m.block].redelivered|
    requires r == And(nodes[m.block].redelivered[m.word], m.mask) && forall i :: i in MaskSeqs(m) ==> i < total
    ensures r != 0 <==> exists i :: i in MaskSeqs(m) && i in Redelivered(nodes, total)
  {
    hide MaskSeqs, Bit, And;
    if r != 0 {
      var t := TrailingZeros(r);
      var i := MaskMember(m, t);
      BitMarked(nodes, m, i);
      assert i in MaskSeqs(m) && i in Redelivered(nodes, total);
    }
    if exists i :: i in MaskSeqs(m) && i in Redelivered(nodes, total) {
      var i :| i in MaskSeqs(m) && i in Redelivered(nodes, total);
      BitMarked(nodes, m, i);
      MarkedIsPending(r, i % MSGS_PER_BLOCK % 64);
    }
  }

  lemma MaskMember(m: WordMask, t: nat) returns (i: nat)
    requires m.word < WORDS_PER_BLOCK && Bit(m.mask, t)
    ensures i in MaskSeqs(m) && i % MSGS_PER_BLOCK % 64 == t
  {
    hide MaskSeqs, Bit;
    WordBits(m.mask);
    i := m.block * MSGS_PER_BLOCK + m.word * 64 + t;
    BlockArithmetic(m.block, m.word * 64 + t);
  }

  lemma BitMarked(nodes: seq<MsgBlock>, m: WordMask, i: nat)
    requires m.block < |nodes| && m.word < WORDS_PER_BLOCK == |nodes[m.block].redelivered| && i in MaskSeqs(m)
    ensures Marked(nodes, i) <==> Bit(nodes[m.block].redelivered[m.word], i % MSGS_PER_BLOCK % 64)
    ensures Bit(m.mask, i % MSGS_PER_BLOCK % 64)
  {
    hide MaskSeqs, Bit;
  }

  lemma OkBlockHasNoConflict(b: MsgBlock, head: nat)
    requires BlockOk(b, head)
    ensures NoConflict(b) && SummaryOk(b)
  {
    forall p: nat
      ensures !(HasBit(b.inflight, p) && HasBit(b.acked, p)) && !(HasBit(b.inflight, p) && HasBit(b.retry, p))
      ensures !(HasBit(b.inflight, p) && HasBit(b.sparseReady, p)) && !(HasBit(b.acked, p) && HasBit(b.retry, p))
      ensures !(HasBit(b.acked, p) && HasBit(b.sparseReady, p)) && !(HasBit(b.retry, p) && HasBit(b.sparseReady, p))
    {
      if p < MSGS_PER_BLOCK { assert BitOk(b, p, head); }
    }
  }

  /** What a fault in a block's words means. */
  ghost predicate WordsFault(b: MsgBlock, kind: InvariantKind)
    requires Sized(b)
  {
    (kind == BitConflict && !NoConflict(b)) || (kind == WordMaskMismatch && !SummaryOk(b))
  }

  /** The word loop of `validate_invariants` over one block. */
  method CheckWords(b: MsgBlock) returns (r: Option<InvariantKind>)
    requires Sized(b)
    ensures r.None? <==> NoConflict(b) && SummaryOk(b)
    ensures r.Some? ==> WordsFault(b, r.value)
  {
    hide Bit, And, HasBit;
    RowsDisjoint(b.inflight, b.acked); RowsDisjoint(b.inflight, b.retry); RowsDisjoint(b.inflight, b.sparseReady);
    RowsDisjoint(b.acked, b.retry); RowsDisjoint(b.acked, b.sparseReady); RowsDisjoint(b.retry, b.sparseReady);
    for w := 0 to WORDS_PER_BLOCK
      invariant forall v :: 0 <= v < w ==> And(b.inflight[v], b.acked[v]) == 0 && And(b.inflight[v], b.retry[v]) == 0
      invariant forall v :: 0 <= v < w ==> And(b.inflight[v], b.sparseReady[v]) == 0 && And(b.acked[v], b.retry[v]) == 0
      invariant forall v :: 0 <= v < w ==>
        And(b.acked[v], b.sparseReady[v]) == 0 && And(b.retry[v], b.sparseReady[v]) == 0
      invariant forall v: nat :: v < w ==> (Bit(b.retryWordMask, v) <==> b.retry[v] != 0)
      invariant forall v: nat :: v < w ==> (Bit(b.sparseWordMask, v) <==> b.sparseReady[v] != 0)
    {
      var inflight, acked, retry, sparse := b.inflight[w], b.acked[w], b.retry[w], b.sparseReady[w];
      if And(inflight, acked) != 0 || And(inflight, retry) != 0 || And(inflight, sparse) != 0
        || And(acked, retry) != 0 || And(acked, sparse) != 0 || And(retry, sparse) != 0 {
        return Some(BitConflict);
      }
      if (retry != 0) != Bit(b.retryWordMask, w) { return Some(WordMaskMismatch); }
      if (sparse != 0) != Bit(b.sparseWordMask, w) { return Some(WordMaskMismatch); }
    }
    r := None;
  }

  lemma BlockRows(b: MsgBlock, head: nat)
    requires BlockOk(b, head)
    ensures RowsOk(b)
  {
  }

  lemma AckNothing(q: Queue, start: nat)
    ensures Ack(q, []) == q && Ack(q, Span(start, 0)) == q
  {
    assert SetAll(q.states, [], Acked) == q.states;
    assert Span(start, 0) == [];
  }

  lemma NackNothing(q: Queue, start: nat)
    ensures NackToRetry(q, []) == q && NackToRetry(q, Span(start, 0)) == q
  {
    assert SetAll(q.states, [], Retry) == q.states;
    assert Span(start, 0) == [];
  }

  /** The next run of a range is still inflight after the part before it was settled. */
  lemma RunAhead(q: Queue, start: nat, len: nat, n: nat, take: nat)
    requires n + take <= len && AllInflight(q, Span(start, len))
    ensures Span(start, n) + Span(start + n, take) == Span(start, n + take)
    ensures AllInflight(Ack(q, Span(start, n)), Span(start + n, take))
    ensures AllInflight(NackToRetry(q, Span(start, n)), Span(start + n, take))
    ensures take > 0 ==> start + n < |q.states|
  {
    SpanConcat(start, n, take);
    assert take > 0 ==> start + n in Span(start, len);
    StillInflight(q, Span(start, n), Span(start + n, take));
  }

  lemma BatchAhead(q: Queue, done: seq<nat>, now: seq<nat>, all: seq<nat>)
    requires done + now <= all && Distinct(all) && AllInflight(q, all)
    ensures AllInflight(Ack(q, done), now) && AllInflight(NackToRetry(q, done), now)
  {
    assert forall i :: i in done + now ==> i in all;
    forall j, k | 0 <= j < k < |done + now| ensures (done + now)[j] != (done + now)[k] { assert all[j] != all[k]; }
    StillInflight(q, done, now);
  }

  lemma MarkedIsPending(mask: u64, w: nat)
    requires Bit(mask, w)
    ensures mask != 0
  {
    NoBits();
  }

  /** There is always room for one more block in a list that does not hold it. */
  lemma ListFits(list: IndexList, arena: Arena<MsgBlock>, k: nat)
    requires list.Valid(arena) && k < |arena.nodes| && k !in list.items
    ensures list.len < U32_MAX
  {
    LengthFits(arena.links[list.slot], list.items + [k]);
  }
}
