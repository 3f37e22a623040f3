# AurumMQ data plane in Dafny

AurumMQ keeps each broker fact twice: in a fast compact form (bitsets, ranges, rank masks,
intrusive lists, byte logs, compiled tables) and in a simple meaning that the fast form must agree
with. This project models both sides and proves the agreement, first per operation and then for
every run.

The layers, from the bottom up:

- **Words, kernels, intrusive list** (`Words.dfy`, `Kernels.dfy`, `IndexList.dfy`): 64-bit words as
  bounded naturals with a bit-level meaning; the kernels' loops; a doubly linked list whose links
  live in an external arena, with a validator that decides exactly whether header and links
  realise some duplicate-free sequence.
- **Queue** (`QueueSpec.dfy`, `Blocks.dfy`, `HybridQueue.dfy`): the hybrid range/block queue as a
  class over 256-message blocks and two intrusive block lists. Every method is proved to do to the
  per-message states exactly what a simple deterministic queue does, including which messages a
  delivery hands out and in which order.
- **Consumer session** (`Deliveries.dfy`, `Window.dfy`, `SessionSpec.dfy`, `Session.dfy`): the
  segment window as a class whose meaning is an ordered list of (tag, message) pairs, and the
  session that adds tags, credit and the queue.
- **Agreement with the reference implementation** (`Models.dfy`, `Differential.dfy`, `Twins.dfy`,
  `ServiceOrder.dfy`): the repository's slow reference queue and session, a relation that all
  requests preserve, and a driver that runs both concrete pairs side by side on any request
  sequence with equal replies. The two may serve retried messages in different orders;
  `ServiceOrder.dfy` says exactly when, with two request sequences that show it.
- **Runs** (`Runs.dfy`, `Traces.dfy`, `Fleet.dfy`): any number of sessions on one queue. A message is inflight iff
  exactly one session holds it under exactly one tag; it is flagged redelivered iff the same run
  delivered it before; tags are issued from one upwards and never reused; settled messages stay
  settled. `Fleet.dfy` ties these runs to the concrete queue and sessions, which carry the run they
  have made; their validator accepts every reachable state. `Traces.dfy` states the same for plain lists
  of requests, says how each acked message ended and what each refusal tells about the requests before
  it; any such list can be put to new structures.
- **Shard executor** (`ShardSpec.dfy`, `Turns.dfy`, `ShardTraces.dfy`, `Shard.dfy`, `ShardReplay.dfy`,
  `Settlement.dfy`): the command machine over queue and consumer registries. Every command of every run
  does what it should to registries and log; after it no ready message waits while an attached consumer
  has credit, and one delivering pass is always enough. Who is served is fixed: the consumers in turn,
  each as far as its credit and what the ones before it left go. The executor carries the requests it has made of
  each queue, and the concrete queue and sessions, asked the same, end with the same contents.
- **Storage and durability** (`Bytes.dfy`, `Records.dfy`, `Bodies.dfy`, `SortedMaps.dfy`,
  `Recovery.dfy`, `Engine.dfy`, `StoreLog.dfy`, `Durability.dfy`): record codec, segment scanner, the
  three record bodies, image rebuilding and the engine over byte logs. On arbitrary bytes, exactly the
  records with a right checksum are read and anything else stops the scan where it is. A restart recovers exactly the
  published messages that the ledger does not name, and the ledger names exactly the messages that were
  acknowledged on their first delivery. So an acked message comes back iff it was acknowledged on a
  redelivery or dropped by a nack, a reject or a cancel.
- **Routing** (`QueueSets.dfy`, `Routing.dfy`): the route compiler, the queue-set representations and
  the lookups.
- **AMQP field tables** (`FieldTables.dfy`): the recursive printer and parser of section 4.2.5.5 of
  the AMQP 0-9-1 specification: round trips, fields in any order, and which bytes fail with which error.

Where code and documentation disagree the model follows the code: an ack mask settles `base`,
`base + 1`, ... one tag per set bit, and an ack range settles everything up to its end.
`Settlement.dfy` gives the exact condition under which each agrees with its documentation, and inputs
at which it does not. The reference queue is documented to make delivery sequences comparable exactly;
`ServiceOrder.dfy` gives two counterexamples and the exact condition.

Assumed bounds: at most 2^32 - 1 blocks per queue, fewer than 2^32 outstanding messages per session
with unlimited prefetch, record bodies, long strings and field tables under 2^32 bytes, logs under 2^64
bytes. The CRC and the lossy
UTF-8 reading are arbitrary functions passed as parameters.

## Model

| member | source | states |
|---|---|---|
| `Words.LowMask` | crates/aurum-kernels/src/lib.rs:35-41 | exactly the bits below `n` (and below 64) are set |
| `Words.DropLowest` | crates/aurum-kernels/src/lib.rs:45-70 | clearing the lowest set bit removes exactly the first element of the word's ascending bit list |
| `Kernels.TakeLowestBits` | crates/aurum-kernels/src/lib.rs:45-70 | takes the min(max, popcount) lowest set bits out of the word: taken and kept bits are the two parts of its ascending bit list |
| `Kernels.TakeLowestBitsLocal` | crates/aurum-core/src/queue/hybrid.rs:519-537 | the queue's own variant selects the same lowest bits |
| `Kernels.SetRange` | crates/aurum-kernels/src/lib.rs:72-87 | across any number of words, exactly the bits of the range become set and all others keep their value |
| `Kernels.ClearRange` | crates/aurum-kernels/src/lib.rs:89-104 | across any number of words, exactly the bits of the range become clear and all others keep their value |
| `Kernels.BitForRank` | crates/aurum-core/src/consumer/segment.rs:126-137 | rank is the index into the ascending list of set bits, so rank to bit is an increasing bijection |
| `Kernels.ExtractBitsUpToRank` | crates/aurum-core/src/consumer/segment.rs:142-161 | yields exactly the bits of the unsettled ranks up to the limit, and clears exactly those ranks |
| `Kernels.ExtractAllRemainingBits` | crates/aurum-core/src/consumer/segment.rs:165-178 | yields exactly the bits of all unsettled ranks |
| `IntrusiveList.InsertRealises` | crates/aurum-intrusive/src/lib.rs:528-546 | splicing links at position k turns a realised duplicate-free sequence into the one with the new index at k |
| `IntrusiveList.RemoveRealises` | crates/aurum-intrusive/src/lib.rs:1039-1055 | splicing a member out realises the sequence without it |
| `IntrusiveList.IndexList.PushBack` | crates/aurum-intrusive/src/lib.rs:454-470 | appends the index to the sequence; other slots, other nodes and payloads are untouched |
| `IntrusiveList.IndexList.PushFront` | crates/aurum-intrusive/src/lib.rs:486-502 | prepends the index to the sequence, with the same frame |
| `IntrusiveList.IndexList.InsertAfter` | crates/aurum-intrusive/src/lib.rs:528-546 | inserts directly behind the given member, with the same frame |
| `IntrusiveList.IndexList.InsertBefore` | crates/aurum-intrusive/src/lib.rs:566-584 | inserts directly before the given member, with the same frame |
| `IntrusiveList.IndexList.PopFront` | crates/aurum-intrusive/src/lib.rs:593-600 | removes and returns the first member (none iff empty) and resets its link |
| `IntrusiveList.IndexList.PopBack` | crates/aurum-intrusive/src/lib.rs:603-610 | removes and returns the last member (none iff empty) and resets its link |
| `IntrusiveList.IndexList.TryPushBack` | crates/aurum-intrusive/src/lib.rs:437-444 | succeeds iff the index is in bounds, unlinked and the length fits; a refusal names the first failing check and changes nothing |
| `IntrusiveList.IndexList.TryRemove` | crates/aurum-intrusive/src/lib.rs:613-620 | succeeds iff the index is a member, even against a list of the same tag; removes it at its position and resets its link; a refusal names the first failing check and changes nothing |
| `IntrusiveList.IndexList.Remove` | crates/aurum-intrusive/src/lib.rs:627-648 | removes the member and resets its link, and says whether it was one |
| `IntrusiveList.IndexList.MoveToBack` | crates/aurum-intrusive/src/lib.rs:652-669 | moves the member behind all others, keeping their order |
| `IntrusiveList.IndexList.MoveToFront` | crates/aurum-intrusive/src/lib.rs:673-690 | moves the member before all others, keeping their order |
| `IntrusiveList.IndexList.Append` | crates/aurum-intrusive/src/lib.rs:696-721 | the sequence becomes the concatenation and the other list becomes empty |
| `IntrusiveList.IndexList.Clear` | crates/aurum-intrusive/src/lib.rs:725-742 | the sequence becomes empty and every member's link is reset |
| `IntrusiveList.IndexList.Retain` | crates/aurum-intrusive/src/lib.rs:747-761 | shows the closure every member once, in order, and passes its own state on from member to member; keeps exactly the accepted members in order and resets the links of the others; exactly the shown payloads change, each to what the closure makes of it |
| `IntrusiveList.IndexList.Contains` | crates/aurum-intrusive/src/lib.rs:794-799 | true iff the index is a member |
| `IntrusiveList.IndexList.Iterate` | crates/aurum-intrusive/src/lib.rs:1152-1162 | yields the sequence |
| `IntrusiveList.IndexList.IterateReverse` | crates/aurum-intrusive/src/lib.rs:1206-1216 | yields the sequence backwards |
| `IntrusiveList.IndexList.CheckInsertPreconditions` | crates/aurum-intrusive/src/lib.rs:977-993 | which error an insertion meets, in order: bounds, already linked, length overflow |
| `IntrusiveList.IndexList.CheckRemovePreconditions` | crates/aurum-intrusive/src/lib.rs:996-1018 | accepts exactly the members, and names the error otherwise |
| `IntrusiveList.IndexList.UnlinkKnownMember` | crates/aurum-intrusive/src/lib.rs:1022-1033 | the sequence loses exactly this member and its link is reset |
| `IntrusiveList.OtherListKept` | crates/aurum-intrusive/src/lib.rs:1039-1055 | a list in another slot, or one that shares no touched node, stays valid under any operation that respects the frame |
| `IntrusiveList.Validate` | crates/aurum-intrusive/src/lib.rs:838-859 | on arbitrary, even cyclic, links: terminates, and is Ok iff header and links realise some duplicate-free sequence of the stored length; an error describes what the header lacks or what the walk meets behind sound nodes |
| `IntrusiveList.ValidateForward` | crates/aurum-intrusive/src/lib.rs:874-908 | the forward walk is Ok iff some duplicate-free sequence is realised, and never runs into its step bound |
| `IntrusiveList.ValidateBackward` | crates/aurum-intrusive/src/lib.rs:911-945 | whenever the forward walk passed, the backward walk passes |
| `IntrusiveList.BackLinkedChainIsDistinct` | crates/aurum-intrusive/src/lib.rs:874-908 | a chain whose back links match never repeats a node, which is why the walk cannot cycle |
| `QueueSpec.Counts` | crates/aurum-core/src/queue/state.rs:10-22 | ready + inflight + acked + retry = published, for every vector of message states |
| `QueueSpec.DeliveredAre` | crates/aurum-core/src/queue/hybrid.rs:92-117 | a delivery hands out min(max, ready) distinct messages: the sequential prefix first, then sparse-ready ones |
| `QueueSpec.DeliverKeeps` | crates/aurum-core/src/queue/hybrid.rs:92-117 | delivery keeps the queue consistent and everything handed out is inflight |
| `QueueSpec.DeliverCounts` | crates/aurum-core/src/queue/hybrid.rs:92-117 | delivery moves exactly min(max, ready) from ready to inflight |
| `QueueSpec.DeliverTwice` | crates/aurum-core/src/queue/hybrid.rs:92-117 | two deliveries hand out what one of both sizes would, and leave the same queue |
| `QueueSpec.AckCounts` | crates/aurum-core/src/queue/hybrid.rs:137-151 | acknowledging moves exactly the batch from inflight to acked |
| `QueueSpec.NackKeeps` | crates/aurum-core/src/queue/hybrid.rs:153-169 | requeueing keeps the retry index exact: a block is listed iff it holds a retry |
| `QueueSpec.NackCounts` | crates/aurum-core/src/queue/hybrid.rs:153-169 | requeueing moves exactly the batch from inflight to retry |
| `QueueSpec.RetryKeeps` | crates/aurum-core/src/queue/hybrid.rs:251-276 | making retries ready keeps both block indexes exact |
| `QueueSpec.RetryCounts` | crates/aurum-core/src/queue/hybrid.rs:251-276 | making retries ready moves all of retry to ready |
| `QueueSpec.OrderIsComplete` | crates/aurum-core/src/queue/hybrid.rs:434-478 | block-list order serves every sparse-ready message exactly once |
| `Blocks.AckMoves` | crates/aurum-core/src/queue/hybrid.rs:171-186 | clearing inflight and setting acked bits moves exactly those messages and no other |
| `Blocks.NackMoves` | crates/aurum-core/src/queue/hybrid.rs:211-236 | clearing inflight and setting retry bits moves exactly those messages and no other |
| `Blocks.RetryMoves` | crates/aurum-core/src/queue/hybrid.rs:251-276 | moving retry words to sparse-ready words moves exactly the retries of the block |
| `Blocks.AbstractionIsValid` | crates/aurum-core/src/queue/block.rs:30-92 | well-formed blocks and lists read as a consistent simple queue |
| `HybridQueue.HybridRangeBlockQueue.Empty` | crates/aurum-core/src/queue/hybrid.rs:28-38 | the new queue is well-formed and empty |
| `HybridQueue.HybridRangeBlockQueue.PublishContiguous` | crates/aurum-core/src/queue/hybrid.rs:52-70 | appends exactly `count` ready messages, whatever blocks must be opened, and returns their range |
| `HybridQueue.HybridRangeBlockQueue.Deliver` | crates/aurum-core/src/queue/hybrid.rs:92-117 | ranges then masks denote exactly the sequential prefix and then the sparse-ready messages in block-list and bit order; the whole new state is the simple queue's |
| `HybridQueue.HybridRangeBlockQueue.DeliverSparseMasks` | crates/aurum-core/src/queue/hybrid.rs:434-478 | serves the listed blocks in order, lowest bits first, and delists exactly the emptied blocks |
| `HybridQueue.HybridRangeBlockQueue.MarkInflightRange` | crates/aurum-core/src/queue/hybrid.rs:480-492 | exactly the range becomes inflight |
| `HybridQueue.HybridRangeBlockQueue.AckRange` | crates/aurum-core/src/queue/hybrid.rs:171-186 | with the range inflight, exactly its messages become acked |
| `HybridQueue.HybridRangeBlockQueue.AckMask` | crates/aurum-core/src/queue/hybrid.rs:188-195 | with the mask inflight, exactly its messages become acked |
| `HybridQueue.HybridRangeBlockQueue.NackRangeToRetry` | crates/aurum-core/src/queue/hybrid.rs:211-236 | with the range inflight, exactly its messages become retries and their blocks are listed once, in order |
| `HybridQueue.HybridRangeBlockQueue.NackMask` | crates/aurum-core/src/queue/hybrid.rs:238-249 | with the mask inflight, exactly its messages become retries and their block is listed once |
| `HybridQueue.HybridRangeBlockQueue.ApplyAckBatch` | crates/aurum-core/src/queue/hybrid.rs:137-151 | exactly the messages of the batch become acked |
| `HybridQueue.HybridRangeBlockQueue.ApplyNackBatch` | crates/aurum-core/src/queue/hybrid.rs:153-169 | exactly the messages of the batch become retries, and blocks are listed in the order the batch meets them |
| `HybridQueue.HybridRangeBlockQueue.RetryAllNow` | crates/aurum-core/src/queue/hybrid.rs:251-276 | every retry becomes sparse-ready and redelivered, blocks keep their listing order, and the number moved is the number of retries |
| `HybridQueue.HybridRangeBlockQueue.EnsureRetryListed` | crates/aurum-core/src/queue/hybrid.rs:494-499 | a block with retries ends up listed exactly once |
| `HybridQueue.HybridRangeBlockQueue.EnsureSparseListed` | crates/aurum-core/src/queue/hybrid.rs:501-506 | a block with sparse-ready messages ends up listed exactly once |
| `HybridQueue.HybridRangeBlockQueue.RedeliveredMask` | crates/aurum-core/src/queue/hybrid.rs:280-282 | non-zero iff some message of the mask is marked redelivered |
| `HybridQueue.HybridRangeBlockQueue.DebugStateOf` | crates/aurum-core/src/queue/hybrid.rs:285-314 | reads back the state of the message, none iff it was never published |
| `HybridQueue.HybridRangeBlockQueue.DebugCounts` | crates/aurum-core/src/queue/hybrid.rs:320-342 | the structural popcounts equal the counts of the per-message states |
| `HybridQueue.HybridRangeBlockQueue.ValidateInvariants` | crates/aurum-core/src/queue/hybrid.rs:344-432 | on any readable structure: no violation iff order, bit-disjointness, summaries and both lists are sound; otherwise the kind names the sequence numbers, else the first unsound block, else the lists |
| `HybridQueue.HybridRangeBlockQueue.InvariantImpliesSound` | crates/aurum-core/src/queue/hybrid.rs:344-432 | every well-formed queue passes the validator |
| `Blocks.Locate` | crates/aurum-core/src/queue/hybrid.rs:511-515 | block and bit of a sequence number recombine to it |
| `DeliveryWindow.SegmentDeliveryWindow.PushRange` | crates/aurum-core/src/consumer/window.rs:231-239 | appends one delivery per message of the range, under consecutive tags, to the first deliveries |
| `DeliveryWindow.SegmentDeliveryWindow.PushMask` | crates/aurum-core/src/consumer/window.rs:241-256 | appends one delivery per set bit, in rank order, under consecutive tags, to the redeliveries |
| `DeliveryWindow.SegmentDeliveryWindow.FindSegmentIdx` | crates/aurum-core/src/consumer/window.rs:63-65 | finds a segment iff the tag is outstanding |
| `DeliveryWindow.SegmentDeliveryWindow.SettleOne` | crates/aurum-core/src/consumer/window.rs:258-272 | (also nack_one, 305-325) removes exactly that tag's delivery and the batch denotes exactly its message, as a range iff it came from a range segment; fails, leaving the window unchanged, iff the tag is not outstanding |
| `DeliveryWindow.SegmentDeliveryWindow.SettleMultiple` | crates/aurum-core/src/consumer/window.rs:274-303 | (also nack_multiple, 327-360) removes exactly the deliveries up to the tag and the batch denotes their messages once each, those of range segments as ranges and those of mask segments as masks, in order; fails, unchanged, iff the tag is not outstanding |
| `DeliveryWindow.SegmentDeliveryWindow.DrainAll` | crates/aurum-core/src/consumer/window.rs:362-369 | empties the window and the batch denotes everything that was outstanding, once each, ranges and masks kept apart |
| `DeliveryWindow.SegmentDeliveryWindow.ApplySegAction` | crates/aurum-core/src/consumer/window.rs:107-136 | replaces the segment by exactly its trimmed, split or cleared pieces |
| `DeliveryWindow.ComputeOneAction` | crates/aurum-core/src/consumer/window.rs:67-105 | the chosen action and batch are right for the tag's delivery in its segment |
| `DeliveryWindow.OneActionEffect` | crates/aurum-core/src/consumer/window.rs:107-136 | applying the chosen action removes exactly the tag's delivery from the segment |
| `DeliveryWindow.FullSegment` | crates/aurum-core/src/consumer/window.rs:144-159 | the batch gains exactly the segment's outstanding messages |
| `DeliveryWindow.PartialSegment` | crates/aurum-core/src/consumer/window.rs:161-185 | the batch gains exactly the outstanding messages up to the tag and the segment keeps exactly those beyond; a mask left without ranks denotes nothing |
| `DeliveryWindow.BalancedSplit` | crates/aurum-core/src/consumer/window.rs:274-303 | where range segments hold first deliveries and mask segments redeliveries, the batch of a prefix lists exactly the first deliveries as ranges and exactly the redeliveries as masks, in tag order, and the window stays so |
| `DeliveryWindow.DrawnSplit` | crates/aurum-core/src/consumer/window.rs:258-272 | the same for the batch of one tag |
| `ConsumerSessions.ConsumerSession.constructor` | crates/aurum-core/src/consumer/session.rs:74-88 | starts at tag one with no credit in use |
| `ConsumerSessions.ConsumerSession.DeliverFromQueue` | crates/aurum-core/src/consumer/session.rs:90-147 | within the credit, takes exactly what the simple queue serves, under consecutive fresh tags; each announced segment is flagged redelivered iff its messages are, and an announced mask counts its messages; first deliveries and redeliveries stay apart in the window; refused iff cancelled |
| `ConsumerSessions.ConsumerSession.Ack` | crates/aurum-core/src/consumer/session.rs:149-177 | refused iff cancelled, never issued or no longer outstanding, in this order of checks, changing nothing; otherwise settles exactly the taken messages, which were inflight, first deliveries before redeliveries, and the reported ranges are exactly the first deliveries in tag order |
| `ConsumerSessions.ConsumerSession.Nack` | crates/aurum-core/src/consumer/session.rs:179-202 | as ack, but requeues or drops by reason, in the same order, and the reported counts are the changes of the queue's counts |
| `ConsumerSessions.ConsumerSession.Reject` | crates/aurum-core/src/consumer/session.rs:204-210 | a negative acknowledgement of exactly one tag |
| `ConsumerSessions.ConsumerSession.Cancel` | crates/aurum-core/src/consumer/session.rs:212-233 | settles everything outstanding by the disposition, first deliveries before redeliveries, and ends the session; the reported counts are the changes of the queue's counts |
| `SessionSpec.Credit.Reserve` | crates/aurum-core/src/consumer/credit.rs:29-44 | with a limit, refused iff more is asked than available; otherwise exactly `n` more are in flight; never refused without a limit |
| `SessionSpec.FailsIffNotOutstanding` | crates/aurum-core/src/consumer/session.rs:149-177 | a settlement request is refused iff its tag is not outstanding |
| `SessionSpec.TakenAre` | crates/aurum-core/src/consumer/window.rs:258-303 | one-mode takes the entry of the tag, multiple-mode all entries with tags up to it |
| `SessionSpec.SettleOwned` | crates/aurum-core/src/consumer/session.rs:149-202 | a batch standing for the taken messages touches only inflight messages, once each, and the session owns the rest |
| `SessionSpec.OwnedAreInflight` | crates/aurum-core/src/consumer/session.rs:90-147 | a session holds no more than is inflight, so what it holds and what is ready never exceed what was published |
| `SessionSpec.ReceiveOwned` | crates/aurum-core/src/consumer/session.rs:90-147 | what a session receives it owns, next to what it had |
| `Deliveries.SettleOrderComplete` | crates/aurum-core/src/queue/hybrid.rs:137-151 | first deliveries and then redeliveries are all the messages, once each |
| `ReferenceModels.ModelQueue.Publish` | crates/aurum-core/src/queue/model.rs:55-61 | appends exactly `count` ready messages |
| `ReferenceModels.ModelQueue.Deliver` | crates/aurum-core/src/queue/model.rs:64-90 | sequential prefix first, then the FIFO of retried messages |
| `ReferenceModels.ModelQueue.SettleId` | crates/aurum-core/src/queue/model.rs:100-118 | settles exactly the message, if it exists |
| `ReferenceModels.ModelQueue.RetryAllNow` | crates/aurum-core/src/queue/model.rs:122-132 | retries become sparse-ready, queued in ascending order; returns how many |
| `ReferenceModels.ModelQueue.CountStates` | crates/aurum-core/src/queue/model.rs:136-147 | the counted states are the counts of the vector |
| `ReferenceModels.ModelConsumerSession.DeliverFromQueue` | crates/aurum-core/src/consumer/model.rs:43-72 | within the credit, one delivery per message under consecutive tags, flagged iff the session requeued the message |
| `ReferenceModels.ModelConsumerSession.SettleTag` | crates/aurum-core/src/consumer/model.rs:74-98 | ack, nack and reject: one or all up to the tag, failing iff it is not outstanding |
| `ReferenceModels.ModelConsumerSession.SettleMultiple` | crates/aurum-core/src/consumer/model.rs:151-175 | settles exactly the prefix up to the tag |
| `ReferenceModels.ModelConsumerSession.Cancel` | crates/aurum-core/src/consumer/model.rs:100-122 | settles everything outstanding by the disposition |
| `Differential.DeliverAgrees` | crates/aurum-core/tests/consumer_model_diff.rs:533-545 | equal requests hand out equally many messages and keep tags, credit and all counts equal |
| `Differential.SettleAgrees` | crates/aurum-core/tests/consumer_model_diff.rs:546-591 | settling the same tag on both sides keeps tags, credit and all counts equal, though the messages may differ |
| `Differential.RetryAgrees` | crates/aurum-core/tests/consumer_model_diff.rs:593-597 | retrying on both sides keeps all counts equal |
| `Differential.CancelAgrees` | crates/aurum-core/src/consumer/session.rs:212-233 | a final cancel keeps credit and all counts equal |
| `Differential.FlagsAgree` | crates/aurum-core/src/consumer/session.rs:113-142 | delivery by delivery, both sides flag the same tags as redelivered |
| `Differential.RequestAgrees` | crates/aurum-core/tests/consumer_model_diff.rs:531-601 | one request of any kind, on both sides, keeps tags, credit and all counts equal |
| `Differential.ReachedAgree` | crates/aurum-core/tests/consumer_model_diff.rs:512-602 | hence every pair that any request sequence leads to from empty queues agrees |
| `TwinDrive.Twins.Deliver` | crates/aurum-core/tests/consumer_model_diff.rs:533-545 | on the concrete structures: same tags, same number, same redelivered flags, however many messages were published before |
| `TwinDrive.Twins.Publish` | crates/aurum-core/tests/consumer_model_diff.rs:519-520 | on the concrete structures: both hold equally many more ready messages |
| `TwinDrive.Twins.Retry` | crates/aurum-core/tests/consumer_model_diff.rs:593-597 | on the concrete structures: both make equally many messages ready |
| `TwinDrive.Twins.Apply` | crates/aurum-core/tests/consumer_model_diff.rs:531-601 | on the concrete structures: one request of any kind draws equal replies, in which the tags delivered, their redelivered flags and the list of outstanding tags are compared one by one, and the reference side moves as the request says |
| `TwinDrive.Twins.Settle` | crates/aurum-core/tests/consumer_model_diff.rs:546-591 | on the concrete structures: both accept or both refuse, and settle equally many |
| `TwinDrive.Twins.Cancel` | crates/aurum-core/src/consumer/session.rs:212-233 | on the concrete structures: both settle equally many |
| `TwinDrive.Twins.Drive` | crates/aurum-core/tests/consumer_model_diff.rs:512-602 | for every request sequence up to and including a final cancel, all replies are equal: success, counts, delivered tags and their flags, the list of outstanding tags, credit and the five queue counts |
| `TwinDrive.RunBoth` | crates/aurum-core/tests/consumer_model_diff.rs:512-602 | the same from new structures on both sides |
| `ServiceOrder.OrderAscends` | crates/aurum-core/src/queue/hybrid.rs:434-478 | the hybrid queue serves block after block in list order, and ascending within a block |
| `ServiceOrder.SameServiceIff` | crates/aurum-core/src/queue/model.rs:5-9 | delivery sequences agree exactly when both queues hold the same messages for redelivery and the FIFO runs through the blocks in the order of the hybrid queue's block list, ascending within each block, a check on neighbours |
| `ServiceOrder.ReachedServiceIff` | crates/aurum-core/src/queue/model.rs:5-9 | the same for every pair that any request sequence leads to |
| `ServiceOrder.ServiceDiffersInBlock` | crates/aurum-core/src/queue/model.rs:5-9 | publish, deliver, requeue and retry requests from empty queues after which the hybrid queue serves 0 then 1 and the reference queue 1 then 0 |
| `ServiceOrder.ServiceDiffersAcrossBlocks` | crates/aurum-core/src/queue/model.rs:5-9 | requests from empty queues after which the hybrid queue serves 256 then 0 and the reference queue 0 then 256 |
| `Runs.StepOk` | crates/aurum-core/src/consumer/session.rs:90-233 | every step of many sessions on one queue keeps the queue consistent and every inflight message with exactly one holder |
| `Runs.ReachableOk` | crates/aurum-core/src/consumer/session.rs:90-233 | hence every state of every run is consistent |
| `Runs.InflightIsHeldOnce` | crates/aurum-core/src/consumer/session.rs:90-233 | a message is inflight iff some session holds it, and then exactly one session under exactly one tag |
| `Runs.FlaggedIffDeliveredBefore` | crates/aurum-core/src/consumer/session.rs:113-142 | in every run, a delivered message is marked redelivered iff an earlier step of the run delivered it |
| `Runs.FlagsTellHistory` | crates/aurum-core/src/consumer/session.rs:113-142 | whatever run led to a state, the next delivery finds a message marked iff that run delivered it |
| `Runs.ExtendRun` | crates/aurum-core/src/consumer/session.rs:90-233 | a run followed by an enabled step is a run |
| `Runs.HeadIsHistory` | crates/aurum-core/src/queue/hybrid.rs:92-117 | in every run, the messages behind the sequential head are exactly those delivered so far |
| `Runs.TagsAreIssued` | crates/aurum-core/src/consumer/session.rs:113-138 | the tags issued to a session so far are exactly one up to its next tag |
| `Runs.TagsNeverReused` | crates/aurum-core/src/consumer/session.rs:113-138 | a later delivery to a session issues larger tags |
| `Runs.StepMoves` | crates/aurum-core/src/queue/hybrid.rs:52-276 | every step moves every message along Ready, Inflight, then Acked or Retry, SparseReady, Inflight, and adds only ready ones |
| `Runs.MessagesLast` | crates/aurum-core/src/queue/hybrid.rs:320-342 | the queue holds exactly as many messages as were published |
| `Runs.SettledForever` | crates/aurum-core/src/queue/hybrid.rs:171-209 | an acked message stays acked for the rest of the run |
| `SessionFleet.Fleet.Deliver` | crates/aurum-core/src/consumer/session.rs:90-147 | on the concrete queue and sessions: the run made so far grows by this delivery, and an announced segment is flagged redelivered iff that run delivered its messages before |
| `SessionFleet.Fleet.Ack` | crates/aurum-core/src/consumer/session.rs:149-177 | on the concrete structures: the run grows by this acknowledgement, accepted iff the tag is outstanding and otherwise refused with the session's error; first deliveries are settled before redeliveries and are exactly what is reported |
| `SessionFleet.Fleet.Nack` | crates/aurum-core/src/consumer/session.rs:179-202 | on the concrete structures: the run grows by this negative acknowledgement, accepted iff the tag is outstanding and otherwise refused with the session's error |
| `SessionFleet.Fleet.Cancel` | crates/aurum-core/src/consumer/session.rs:212-233 | on the concrete structures: the run grows by this cancel |
| `SessionFleet.Fleet.Publish` | crates/aurum-core/src/queue/hybrid.rs:52-70 | on the concrete structures: the run grows by this publish |
| `SessionFleet.Fleet.Retry` | crates/aurum-core/src/queue/hybrid.rs:251-276 | on the concrete structures: the run grows by this retry |
| `SessionFleet.Fleet.OpenSession` | crates/aurum-core/src/consumer/session.rs:74-88 | on the concrete structures: the run grows by a new session, a new object over a new window, whatever the queue holds |
| `SessionFleet.Fleet.Inspect` | crates/aurum-core/src/queue/hybrid.rs:320-432 | in every state the sessions can reach, the validator finds no violation and the counts partition what was published |
| `Traces.WorldAfterOk` | crates/aurum-core/src/consumer/session.rs:90-233 | whatever is requested of a queue and its sessions, in whatever order, leads to a consistent world |
| `Traces.HeadIsDelivered` | crates/aurum-core/src/queue/hybrid.rs:92-117 | the messages behind the sequential head are exactly those that some request delivered |
| `Traces.MarkTellsHistory` | crates/aurum-core/src/consumer/session.rs:113-142 | a message handed out is marked redelivered iff an earlier request delivered it |
| `Traces.OneEnds` | crates/aurum-core/src/queue/hybrid.rs:171-209 | a request acks exactly the messages that it acknowledges or drops, and none that was acked before |
| `Traces.EndedIffAcked` | crates/aurum-core/src/queue/hybrid.rs:171-209 | a message is acked iff some request acknowledged or dropped it |
| `Traces.EndingStays` | crates/aurum-core/src/queue/hybrid.rs:171-209 | how a message ended, acknowledged on a first delivery, acknowledged on a redelivery or dropped, never changes |
| `Traces.RefusalTells` | crates/aurum-core/src/consumer/session.rs:149-177 | after any requests, a settlement is refused as cancelled iff one of them cancelled the session, else as an invalid tag iff none issued the tag to the session, else as already settled iff one did and it is no longer outstanding |
| `Traces.IssuedIffBelow` | crates/aurum-core/src/consumer/session.rs:113-138 | the tags that some request issued to a session are exactly those from one to below its next tag |
| `SessionFleet.Fleet.Perform` | crates/aurum-core/src/consumer/session.rs:90-233 | on the concrete structures: any request, of any kind and to any session, leads to the world it leads to on values, with the right answer |
| `SessionFleet.Replay` | crates/aurum-core/src/consumer/session.rs:90-233 | any list of requests to new structures: they end with the contents that the requests lead to on values, and every answer is right: accepted or refused with the error that tells what the earlier requests made of the session and the tag, how many messages, which tags, and flagged redelivered iff an earlier request delivered them |
| `SessionFleet.Drive` | crates/aurum-core/src/queue/hybrid.rs:320-432 | any list of requests to new structures, all answers right, and at the end the validator finds no violation |
| `ShardSpec.SubscribeOk` | crates/aurum-broker/src/in_memory/registry.rs:62-72 | attaching a new consumer keeps both registries in agreement |
| `ShardSpec.CancelOk` | crates/aurum-broker/src/in_memory/registry.rs:74-81 | detaching a consumer keeps both registries in agreement, unsettles nothing and makes nothing ready |
| `ShardSpec.DeclareOk` | crates/aurum-broker/src/in_memory/registry.rs:30-46 | a new queue keeps the registries in agreement and nothing waits on it |
| `ShardSpec.Visited` | crates/aurum-broker/src/in_memory/shard.rs:644-647 | one round-robin pass visits every position |
| `ShardExecutor.InMemoryShardExecutor.DeliverConsumer` | crates/aurum-broker/src/in_memory/shard.rs:660-696 | serves one consumer, under its next tags, until it has no credit or its queue nothing ready, touching no other consumer; the ready count falls by exactly what is delivered |
| `ShardExecutor.InMemoryShardExecutor.DriveQueue` | crates/aurum-broker/src/in_memory/shard.rs:626-658 | serves the consumers in turn, starting with the one whose turn it was: each gains the least of its credit and what the ones before it left, and gets the next messages of the service order under its next tags; the turn moves on by one iff anything was delivered; no ready message is left while an attached consumer has credit, after at most one delivering pass, so the cap of 16 never binds |
| `Turns.RoundLeads` | crates/aurum-broker/src/in_memory/shard.rs:644-647 | after some positions of a round, the consumers at them have consecutive slices of the service order, the others nothing, and the queue has delivered as many |
| `Turns.RoundIsDealt` | crates/aurum-broker/src/in_memory/shard.rs:644-647 | so, read off the sessions before and after, the consumer at each position gained the least of its credit and what the ones before it left |
| `Turns.TurnsDiffer` | crates/aurum-broker/src/in_memory/shard.rs:644-647 | a round visits nobody twice |
| `Turns.TurnAfterLeaving` | crates/aurum-broker/src/in_memory/registry.rs:74-81 | when a consumer leaves behind the one whose turn it is, the turn stays; otherwise it passes to the next in line, so that the leaving of an earlier consumer makes the round pass somebody over |
| `ShardExecutor.InMemoryShardExecutor.ExecDeclareQueue` | crates/aurum-broker/src/in_memory/shard.rs:176-188 | refuses exactly the known ids |
| `ShardExecutor.InMemoryShardExecutor.ExecPublish` | crates/aurum-broker/src/in_memory/shard.rs:190-250 | refuses exactly unknown queues; otherwise a durable log grows by exactly this batch at the next sequence number, the batch is appended and the queue driven |
| `ShardExecutor.InMemoryShardExecutor.ExecConsumeStart` | crates/aurum-broker/src/in_memory/shard.rs:252-300 | refuses unknown queues, then taken ids; otherwise attaches and serves the consumer; prefetch zero is unlimited |
| `ShardExecutor.InMemoryShardExecutor.ExecCreditUpdate` | crates/aurum-broker/src/in_memory/shard.rs:302-317 | refuses exactly unknown consumers; otherwise drives the consumer's queue |
| `ShardExecutor.InMemoryShardExecutor.ExecAckCommand` | crates/aurum-broker/src/in_memory/shard.rs:450-521 | settles one tag, everything up to a tag, or `base` onwards one tag per set bit; exactly the messages no longer outstanding become acked and are counted; names the refusal; the ledger gains exactly the first deliveries among them |
| `ShardExecutor.SettlementOrder` | crates/aurum-core/src/consumer/session.rs:168-175 | what a session reports: the queue gets first deliveries before redeliveries, and the ranges are exactly the first deliveries, however they are cut |
| `ShardExecutor.InMemoryShardExecutor.LogAcks` | crates/aurum-broker/src/in_memory/shard.rs:514-518 | the ledger gains exactly the messages of the ranges, and nothing is logged when there are none |
| `ShardExecutor.InMemoryShardExecutor.ExecNackCommand` | crates/aurum-broker/src/in_memory/shard.rs:523-591 | settles one tag, everything up to a tag, or `base` plus each set bit; exactly the messages no longer outstanding are requeued or dropped and counted; every refusal is an invalid tag; the log is untouched |
| `ShardExecutor.InMemoryShardExecutor.ExecAckBatch` | crates/aurum-broker/src/in_memory/shard.rs:319-342 | the commands in order leave exactly the tags that each of them leaves; exactly the settled messages become acked and are counted, and the ledger gains exactly the first deliveries among them; the errors are exactly the refusals, in order, each with its reason; then the freed credit is used; nothing changes if nothing was settled |
| `ShardExecutor.InMemoryShardExecutor.ExecNackBatch` | crates/aurum-broker/src/in_memory/shard.rs:344-370 | the commands in order leave exactly the tags that each of them leaves, and move exactly the messages each of them takes to retry or to acked by its own reason; the errors are exactly the refusals; then all retries of the queue are ready again and delivered as far as credit goes |
| `ShardExecutor.InMemoryShardExecutor.ExecRejectBatch` | crates/aurum-broker/src/in_memory/shard.rs:372-390 | exactly the listed tags that were outstanding are settled, each by its own reason, without a retry; errors are dropped |
| `ShardExecutor.NackedStateIs` | crates/aurum-broker/src/in_memory/shard.rs:523-591 | after a batch a message is where the last command that took it says, and where it was if none took it |
| `ShardExecutor.InMemoryShardExecutor.ExecCancel` | crates/aurum-broker/src/in_memory/shard.rs:392-446 | refuses exactly unknown consumers; otherwise everything it held is requeued or dropped, it leaves both registries and every other consumer stays; only a requeue drives the queue |
| `ShardExecutor.InMemoryShardExecutor.DeliverPending` | crates/aurum-broker/src/in_memory/shard.rs:158-162 | from any consistent state, ends with every queue driven, its consumers served in turn |
| `ShardExecutor.InMemoryShardExecutor.RetryAllAndDeliver` | crates/aurum-broker/src/in_memory/shard.rs:165-172 | from any consistent state, every queue's retries become ready and every queue is driven, its consumers served in turn; no message is left waiting for a retry and nothing settled is unsettled |
| `ShardExecutor.InMemoryShardExecutor.Execute` | crates/aurum-broker/src/in_memory/shard.rs:123-155 | every command of the batch does what its own row says to the registries and the log, reports its errors, and leaves no queue with a ready message while an attached consumer has credit; the states in between are given one by one |
| `ShardExecutor.InMemoryShardExecutor.ExecuteAll` | crates/aurum-broker/src/in_memory/shard.rs:123-155 | the same for every command of every run |
| `ShardExecutor.InMemoryShardExecutor.ExecuteWhole` | crates/aurum-broker/src/in_memory/shard.rs:134-147 | publish, ack, nack and reject batches: what each makes of registries and log, and its errors |
| `ShardExecutor.LedTwice` | crates/aurum-broker/src/in_memory/shard.rs:123-155 | two runs, the second from where the first ended, make one run with the errors of both |
| `ShardTraces.PutTraced` | crates/aurum-broker/src/in_memory/shard.rs:660-696 | a request to one consumer leads that session and the queue where it leads them in the requests made so far, and moves no other session |
| `ShardTraces.OpenTraced` | crates/aurum-broker/src/in_memory/registry.rs:62-72 | a new consumer is one more session of its queue and stands last in line |
| `ShardTraces.CancelTraced` | crates/aurum-broker/src/in_memory/registry.rs:74-81 | a consumer that leaves is the cancel of its session |
| `ShardTraces.StillLined` | crates/aurum-broker/src/in_memory/registry.rs:74-81 | leaving keeps the order of the others, so that a queue always lists its consumers in the order of their arrival |
| `ShardTraces.AckFirsts` | crates/aurum-broker/src/in_memory/shard.rs:514-518 | an acknowledgement adds to the messages acknowledged on a first delivery exactly the first deliveries among those it takes |
| `ShardTraces.AskedFirsts` | crates/aurum-broker/src/in_memory/shard.rs:523-591 | no other request adds to them |
| `ShardExecutor.TellsMore` | crates/aurum-broker/src/in_memory/shard.rs:514-518 | so a ledger that names exactly these messages still does after the append |
| `ShardReplay.HistoryLeadsHere` | crates/aurum-broker/src/in_memory/shard.rs:37-43 | the requests that a shard has made of a queue lead, on values, to that queue and to the sessions of its consumers; all other sessions are cancelled |
| `ShardReplay.Rebuild` | crates/aurum-broker/src/in_memory/shard.rs:37-43 | the concrete hybrid queue and consumer sessions, asked what any run of the shard asked, end with the contents of the shard's queue and of its consumers' sessions; every answer was right and the validator finds no violation |
| `SettlementMeaning.AckMaskAsDocumented` | crates/aurum-internal-protocol/src/command/settlement.rs:37-41 | the mask form settles the documented tags, for every list of outstanding tags, iff the mask is a run of its lowest bits |
| `SettlementMeaning.AckMaskOnSession` | crates/aurum-internal-protocol/src/command/settlement.rs:37-41 | for one session: the mask form settles the documented tags iff each outstanding tag is among the first tags from `base`, as many as bits are set, exactly when its own bit is set |
| `SettlementMeaning.AckMaskDiffers` | crates/aurum-broker/src/in_memory/shard.rs:494-510 | a concrete mask that settles another tag than documented |
| `SettlementMeaning.AckRangeAsDocumented` | crates/aurum-internal-protocol/src/command/settlement.rs:32-36 | the range form settles the documented tags iff, with its end outstanding, no tag below its start is, and, with its end not outstanding, no tag of the range is |
| `SettlementMeaning.AckRangeDiffers` | crates/aurum-broker/src/in_memory/shard.rs:490-493 | a range that also settles a tag below its start, and a range whose settled end makes it settle nothing |
| `Bytes.PackedField` | crates/aurum-storage/src/record/codec.rs:111-122 | any field of a packed little-endian record can be read back in place, whatever surrounds it |
| `Bytes.UnpackedFields` | crates/aurum-storage/src/record/codec.rs:75-110 | bytes are the packing of the fields read from them |
| `Bytes.LEDigit` | crates/aurum-storage/src/record/codec.rs:111-122 | the least significant byte comes first |
| `Records.HeaderRoundTrip` | crates/aurum-storage/src/record/codec.rs:74-122 | a written header reads back, whatever follows it |
| `Records.RecordRoundTrip` | crates/aurum-storage/src/record/codec.rs:28-72 | a written record reads back with its header and body, whatever follows it |
| `Records.CutRecord` | crates/aurum-storage/src/record/codec.rs:50-72 | a record cut anywhere decodes to Truncated within the header and BodyTooShort within the body |
| `Records.HeaderAnswer` | crates/aurum-storage/src/record/codec.rs:75-78 | any header that 40 bytes can spell is answered with the first check that fails, and is read if none does |
| `Records.DecodesIff` | crates/aurum-storage/src/record/codec.rs:50-72 | arbitrary bytes decode to a header and a body iff they start with them, the header is acceptable and it stores the checksum of itself, with zero in that place, and the body |
| `Records.WrongChecksum` | crates/aurum-storage/src/record/codec.rs:50-72 | a whole record with any other checksum is refused as such |
| `Records.ScanSegment` | crates/aurum-storage/src/segment/scanner.rs:30-79 | the scanning loop computes the recursive scan of the bytes; what it finds in arbitrary bytes are whole records with right checksums, one behind the other, up to where the bytes end or break off |
| `Records.PrefixScan` | crates/aurum-storage/src/segment/scanner.rs:30-79 | scanning any prefix of concatenated records returns exactly the wholly contained ones, the last boundary, and truncation iff the cut is inside a record |
| `Records.WholeIsLast` | crates/aurum-storage/src/segment/scanner.rs:30-79 | the number of records returned is the largest whose total length fits the prefix |
| `Records.Rescan` | crates/aurum-storage/src/segment/scanner.rs:30-79 | rescanning any bytes up to the valid end gives the same records and no truncation |
| `Records.CorruptStops` | crates/aurum-storage/src/segment/scanner.rs:30-79 | behind any records, a whole record with a wrong checksum makes the scan report corruption at its offset, whatever follows |
| `Records.ScannedAreStored` | crates/aurum-storage/src/segment/scanner.rs:30-79 | in arbitrary bytes, what is scanned is there: whole records with right checksums from the start to the valid end, where the bytes end or break off inside a record |
| `Records.CorruptionIsThere` | crates/aurum-storage/src/segment/scanner.rs:30-79 | in arbitrary bytes, where corruption is reported there is neither a whole record with a right checksum nor the beginning of one, and before it only such records |
| `RecordBodies.EncodeIndexBody` | crates/aurum-storage/src/queue_index/log.rs:47-59 | writes count and entries |
| `RecordBodies.DecodeIndexBody` | crates/aurum-storage/src/queue_index/log.rs:89-131 | reads the announced entries as far as whole entries go |
| `RecordBodies.IndexRoundTrip` | crates/aurum-storage/src/queue_index/log.rs:89-131 | decoding an encoded index body gives the entries back |
| `RecordBodies.IndexBodyReads` | crates/aurum-storage/src/queue_index/log.rs:89-131 | of any index body, as many entries as announced are read, fewer only if the bytes end inside the next |
| `RecordBodies.EncodeAckBody` | crates/aurum-storage/src/ack_ledger/log.rs:88-121 | writes count and tagged entries |
| `RecordBodies.DecodeAckBody` | crates/aurum-storage/src/ack_ledger/log.rs:123-179 | reads up to count entries, stopping inside a cut entry and passing over unknown kinds |
| `RecordBodies.AckRoundTrip` | crates/aurum-storage/src/ack_ledger/log.rs:123-179 | decoding an encoded ledger body gives the entries back, for all four kinds |
| `RecordBodies.AckBodyReads` | crates/aurum-storage/src/ack_ledger/log.rs:123-179 | of any ledger body, as many entries or unknown bytes as announced are passed, fewer only if the bytes end inside an entry, and exactly the entries among them are read |
| `RecordBodies.EncodePayloadBody` | crates/aurum-storage/src/payload/log.rs:48-60 | writes count, lengths and payloads |
| `RecordBodies.DecodePayloadAt` | crates/aurum-storage/src/payload/log.rs:110-137 | finds the payload by summing the lengths before it |
| `RecordBodies.PayloadRoundTrip` | crates/aurum-storage/src/payload/log.rs:110-137 | every payload of a batch is read back from its index |
| `RecordBodies.PayloadCut` | crates/aurum-storage/src/payload/log.rs:110-137 | of a batch cut off anywhere, a payload is too short if its index or the lengths are missing, out of bounds if its own bytes are, and read otherwise |
| `Recovery.BuildImage` | crates/aurum-storage/src/recovery/image.rs:81-139 | ready is exactly the last entries of the unsettled messages in ascending order; next_seq is the largest indexed number plus one, or zero |
| `Recovery.SettledSet` | crates/aurum-storage/src/recovery/image.rs:93-122 | a message is settled iff an ack range, dead letter or mask entry of the queue covers it; the word index plays no part |
| `Recovery.IndexBySeq` | crates/aurum-storage/src/recovery/image.rs:86-91 | the last write wins, in ascending order |
| `StorageEngine.AppendOnlyStorageEngine.AppendPublish` | crates/aurum-storage/src/engine.rs:41-63 | the logs become exactly the logs of the longer history |
| `StorageEngine.AppendOnlyStorageEngine.AppendAckRange` | crates/aurum-storage/src/engine.rs:65-73 | the ledger becomes exactly the ledger of the longer history |
| `StorageEngine.AppendOnlyStorageEngine.ReadPayload` | crates/aurum-storage/src/payload/log.rs:87-92 | decodes the record at the offset and the payload at the index |
| `StorageEngine.AppendOnlyStorageEngine.RecoverQueue` | crates/aurum-storage/src/recovery/image.rs:49-55 | for every history without overlapping publishes, through all encoders, scanner and image: exactly published-minus-acked in ascending order, next_seq, and references that read back their own bytes |
| `StorageEngine.PayloadReadsBack` | crates/aurum-storage/src/payload/log.rs:87-92 | every reference given out reads back its own bytes, however much was appended since |
| `StorageEngine.EntryMeans` | crates/aurum-storage/src/engine.rs:41-63 | an index entry says which call published which message and where its payload is |
| `StorageEngine.IndexScansBack` | crates/aurum-storage/src/queue_index/log.rs:74-86 | scanning and decoding an index log gives exactly the entries appended |
| `StorageEngine.AcksScanBack` | crates/aurum-storage/src/ack_ledger/log.rs:73-85 | scanning and decoding a ledger gives exactly the entries appended |
| `Durability.NothingUnsettledIsLost` | crates/aurum-broker/src/in_memory/storage.rs:56-106 | the recovered image holds exactly the published messages the ledger does not name, among them every message the queue does not hold as acked, and numbering continues |
| `Durability.RestartAndRecover` | crates/aurum-broker/src/in_memory/shard.rs:190-236 | the same for the log of any run of the durable executor, replayed and recovered, with references that read back their own bytes; an acked message is recovered iff it was acknowledged on a redelivery or dropped by a nack, a reject or a cancel |
| `Durability.AckedButRecovered` | crates/aurum-broker/src/in_memory/shard.rs:514-518 | a message is acked iff a request ended it, and recovered iff it was published and not acknowledged on its first delivery; so exactly the acked messages that were acknowledged on a redelivery or dropped come back |
| `Durability.RedeliveryComesBack` | crates/aurum-broker/src/in_memory/shard.rs:514-518 | declare, publish, consume, nack to requeue, ack, restart: the queue holds the message as acked and it is recovered |
| `Durability.RecoveredAfterAcks` | crates/aurum-broker/src/in_memory/shard.rs:514-518 | a restart after acknowledgements recovers exactly what one before them would have, without the first deliveries they settled; settled redeliveries come back |
| `Durability.ContiguousNeverOverlaps` | crates/aurum-broker/src/in_memory/shard.rs:206-219 | batches that each start at the queue's length never overlap |
| `StoreLog.PublishRecorded` | crates/aurum-broker/src/in_memory/shard.rs:206-228 | logging before publishing keeps the log complete |
| `StoreLog.AckRecorded` | crates/aurum-broker/src/in_memory/shard.rs:514-518 | logging acked ranges keeps the ledger naming only acked messages |
| `QueueSets.DedupeTargets` | crates/aurum-routing/src/compiler.rs:51-55 | strictly sorted, with exactly the given targets |
| `QueueSets.BuildSet` | crates/aurum-routing/src/queue_set.rs:82-122 | whichever representation is chosen, it visits exactly the targets, and a sorted list in its own order |
| `QueueSets.CountIsVisited` | crates/aurum-routing/src/queue_set.rs:149-156 | the announced count is the number of targets visited |
| `QueueSets.GroupsVisit` | crates/aurum-routing/src/queue_set.rs:126-146 | visiting shard groups visits the targets of those shards in order |
| `Routing.FlagsMean` | crates/aurum-routing/src/compiler.rs:155-167 | unroutable iff no target, multiple iff more than one, direct and fanout as given |
| `Routing.CompileDirect` | crates/aurum-routing/src/compiler.rs:57-104 | every bound key has a route to exactly its targets, no other key has one, and other exchanges are undisturbed |
| `Routing.CompileFanout` | crates/aurum-routing/src/compiler.rs:106-153 | one route to exactly the bound targets serves every key |
| `Routing.CompiledRoutes` | crates/aurum-routing/src/table.rs:86-158 | resolving gives the table's version and the flags of the exchange's kind, and looking up that route under that version finds each bound target once in sorted order; any other version and any other generation is refused as such; there is no route iff nothing is bound |
| `Routing.Compile` | crates/aurum-routing/src/compiler.rs:15-48 | accepts exactly the non-empty configurations with unique exchange ids, resolvable bindings and supported kinds, naming the first failing check; then every exchange and key routes as the bindings say and unknown exchanges are not found |
| `FieldTables.TableRoundTrip` | crates/aurum-protocol-amqp/src/wire/field_table.rs:39-62 | decoding an encoded table followed by any bytes gives the table and exactly those bytes, nested to any depth |
| `FieldTables.ValueRoundTrip` | crates/aurum-protocol-amqp/src/wire/field_table.rs:64-197 | the same for every kind of field value |
| `FieldTables.EncodesIffKeysShort` | crates/aurum-protocol-amqp/src/wire/field_table.rs:39-48 | encoding fails iff some key, at any depth, is longer than 255 bytes, and reports the length of such a key |
| `FieldTables.TableSurvivesIff` | crates/aurum-protocol-amqp/src/wire/field_table.rs:39-197 | a table of values that fit their fields is read back as written iff no key and no short string in it, at any depth, is longer than 255 bytes |
| `FieldTables.LongShortString` | crates/aurum-protocol-amqp/src/wire/field_table.rs:64-197 | a longer short string is cut to its length modulo 256 and its rest is left in front of what follows |
| `FieldTables.TableFails` | crates/aurum-protocol-amqp/src/wire/field_table.rs:50-197 | decoding arbitrary bytes fails with an error iff, behind whole fields, the bytes break off inside a key, a string or a nested table, or inside a number or truth value past their end, or a value has an unknown kind; the error names which |
| `FieldTables.ReadTable` | crates/aurum-protocol-amqp/src/wire/field_table.rs:50-61 | the decoding loop computes the recursive decoding, of which the other rows speak |
| `FieldTables.InsertIsUpdate` | crates/aurum-protocol-amqp/src/wire/field_table.rs:50-62 | inserting into an ascending table changes the value of its key and of no other, and the table stays ascending |
| `FieldTables.SentTable` | crates/aurum-protocol-amqp/src/wire/field_table.rs:50-62 | fields sent in any order, keys possibly repeated, decode to the ascending table in which each key has the value sent last under it, with exactly the bytes behind it |
| `FieldTables.OneTable` | crates/aurum-protocol-amqp/src/wire/field_table.rs:50-62 | there is one ascending table with the same value under every key |
| `FieldTables.TruthReads` | crates/aurum-protocol-amqp/src/wire/field_table.rs:64-197 | a truth value is on unless its byte is zero |
| `FieldTables.BEDigit` | crates/aurum-protocol-amqp/src/wire/longstr.rs:5-22 | the most significant byte comes first |
| `FieldTables.ShortReads` | crates/aurum-protocol-amqp/src/wire/shortstr.rs:39-57 | a short string reads back before any bytes |
| `FieldTables.LongReads` | crates/aurum-protocol-amqp/src/wire/longstr.rs:5-22 | a long string reads back before any bytes |

## Left out

- HybridRangeBlockQueue: `stats` and the cumulative counters, `with_messages`, `ack_work`, `nack_work_to_retry` and `ack_id`, which only wrap the modelled operations.
- DeliverSparseMasks: the branch that unmarks a marked but empty word is not modelled, because the invariant rules it out.
- PublishContiguous: the number of blocks is assumed to fit 32 bits.
- IndexList: `try_push_front`, `try_insert_after`, `try_insert_before`, `for_each_mut` and `iter_nodes`; misuse that the source answers with a panic is a precondition.
- SetRange: the word slice is a sequence passed in and returned, not an array changed in place.
- ClearRange: the word slice is a sequence passed in and returned, not an array changed in place.
- DeliverFromQueue: with unlimited prefetch, messages in flight after the delivery are assumed to fit 32 bits, so the saturating credit never saturates.
- SettleOne: the acknowledging and the rejecting variants of the window differ in the batch type only and share one model.
- SettleMultiple: the acknowledging and the rejecting variants of the window differ in the batch type only and share one model.
- InMemoryShardExecutor: registries hold queues and sessions as the values they are proved to stand for; the concrete structures are tied to its runs in `ShardReplay.dfy`. Emitted events are reduced to errors and counts; payload handles, channel ids and the merging of delivery segments are not modelled.
- SettlementOrder: how the first deliveries are cut into ranges depends on the session's window and is left open, so the shard results hold for every cut.
- ExecPublish: storage never fails in the model; after a failed append the original refuses the batch. The payload bytes are those given, where the original logs zero bytes of the same lengths.
- ExecAckCommand: storage never fails in the model; after a failed append the original reports an error although the messages are settled.
- ExecCancel: the refusal of a consumer that is already cancelled is not modelled, because a cancelled consumer has left the registry.
- RestartAndRecover: covers one broker lifetime followed by one recovery; republishing a recovered count under new numbers is not modelled.
- AppendOnlyStorageEngine: files, directories, flushing and syncing; every log is one byte sequence and there is one segment per log. Appending behind a torn tail is not modelled.
- DecodePayloadAt: a length that points past the body, where the original panics, is an error of its own.
- ReadTable: reading a number past the end of the bytes, where the original panics, is an error of its own; `TableFails` says exactly when. Floating-point values are raw bits.
- Compile: exchange names, exchange flags, routing-key hashes and lengths are not modelled; routes of one exchange are numbered in any order.
- The native and AMQP protocol sessions, frame reassembly, route cache, transport, server, threads, configuration, metrics and experiments.
