# Verification of libsmartereye2's core

libsmartereye2 is a C++ driver for stereo cameras. Four of its parts are small state machines that
everything else rests on: reference-counted frames drawn from a slot pool, the aggregator that turns
the latest frame of each stream into a composite, the queue and worker thread behind every
asynchronous call, and the byte streams to and from the camera. This project models those parts and
proves what they keep. `dafny verify dfyconfig.toml` checks it.

* **Frames** (`FrameStore`, `FrameInvariant`, `FrameOwnership`, `ConcurrentRelease`,
  `ConcurrentRuns`, `ConcurrentQuota`, `ConcurrentRest`, `FrameHeap`, `SmallHeap`). `FrameStore.Store` is the memory
  of frames and archives as a value, with one function per operation of the C++ code; a sticky
  `fault` flag stands for touching a frame that is gone, freeing a slot twice or handing a heap an
  item it does not own. A frame is named by its incarnation number, so a pointer that survives the
  reuse of its slot is seen to dangle. `FrameHeap.Memory` is the code as it runs, field by field and
  loop by loop. `FrameOwnership` proves exact counts, no leak and no dangling frame, pool and quota
  over every run of operations; `ConcurrentRuns` and `ConcurrentQuota` prove memory safety and the
  quota when many threads give up and keep frames at once and the count, the kept mark, the quota
  counter and the hand-back each change in a step of their own; `ConcurrentRest` proves that such
  releases always come to an end, and what is then left.
* **Aggregator** (`Aggregation`, `AggregatorOwnership`, `AggregatorPaths`, `AggregatorRuns`,
  `AggregatorFeeding`, `AggregatorCalls`, `FrameAggregator`). The aggregator on top of the frame
  store: memory soundness on every path, how the frames fed are cut up into composites, the order and
  the bookkeeping of the queue, and exactly when handling a single frame or a composite goes wrong.
* **Queue and worker** (`ConsumerQueue`, `Dispatcher`, `DispatcherProgress`, `RepeatOperation`,
  `RepeatProgress`). Each mutex section and each access to an atomic flag is one step; the theorems
  hold for every interleaving of any number of client threads and the worker, and say both what
  never happens and what the worker gets done.
* **Wire** (`LittleEndian`, `SerialFraming`, `SerialReceiver`, `Handshake`, `HandshakeTally`,
  `StreamRead`). The receive loop, as a function of the bytes on the line and of what each read
  returns, refines a batch parser that inverts the serializer, and delivers every message exactly when
  the reads split no head and leave nothing unread; the handshake's states and everything it sends over
  every run; reassembly of an image message, as a function of what the device answers.
* **Devices** (`DeviceHub`, `ListChanged`). Fair cyclic search, and the pigeonhole argument behind the
  comparison of device lists.

## What the proofs found

* After a composite frame that leaves some requested stream without a frame, the aggregator holds an
  empty holder for that stream (`AggregatorPaths.IncompleteCompositeLeavesEmptyHolder`), and a later
  single frame that completes the count dereferences it. `AggregatorPaths.SingleFaultsExactly` says
  when, as an if-and-only-if, and `AggregatorPaths.FaultIsReached` gets there with two frames and
  one composite; fed single frames only, it never happens (`AggregatorRuns`).
* Composite input goes wrong exactly when a part has no stream profile
  (`AggregatorPaths.CompositeFaultsExactly`, reached in `AggregatorPaths.UndescribedPartIsReached`).
* Starting a stopped aggregator does not open its queue again: composites are formed and dropped until
  the consumer's next call (`AggregatorCalls.ClosedQueueLosesComposite`).
* A queue within its capacity outgrows it in exactly one way: a blocking push while it is being
  flushed (`ConsumerQueue.OutgrowsExactlyByFlushedPush`).
* `listChanged` answers rightly about every second list exactly when the first has no equal entries
  (`ListChanged.RightExactlyWithoutTwins`). If it has, replacing one of them goes unnoticed, while
  the comparison the other way round may notice (`ListChanged.TwinsHideAChange`).
* A head read that returns a part of a head loses those bytes, and the loop goes on with what is left
  (`SerialReceiver.SplitHeadIsDropped`, `SerialReceiver.DeliversUnsplit`): a message whose head comes
  as four and four bytes is not delivered (`SerialReceiver.FourAndFourBytesDeliverNothing`), and no
  later reads make up for a head split at the start (`SerialReceiver.SplitHeadLosesMessages`).
* `stream_read` asks for a transfer past the buffer exactly when `pack_length` in the head is
  smaller than the first transfer or larger than the buffer (`StreamRead.OverrunsExactly`; a head of
  24 bytes that announces four is enough, `StreamRead.ShortMessageOverruns`).

## Model

| member | source | states |
|---|---|---|
| SmallHeap.FirstFree | include/smartereye2/se_types.hpp:116-123 | the scan stops at the lowest free slot: all before it are taken |
| SmallHeap.AllocateTakesFreeSlot | include/smartereye2/se_types.hpp:112-124 | allocation hands out a free slot, changes no other, keeps the size equal to the number of taken slots, and is refused exactly when stopped or full |
| SmallHeap.DeallocateIsSound | include/smartereye2/se_types.hpp:126-145 | an item is refused exactly when it lies outside the buffer; the size stays right exactly when the slot was taken; deallocation undoes the allocation |
| SmallHeap.StoppedPoolRefuses | include/smartereye2/se_types.hpp:112-150 | a stopped pool hands out nothing and still takes back what is out |
| SmallHeap.Heap.constructor | include/smartereye2/se_types.hpp:105-110 | all slots free and blank, size zero |
| SmallHeap.Heap.Allocate | include/smartereye2/se_types.hpp:112-124 | the loop over the flags computes the abstract allocation |
| SmallHeap.Heap.Deallocate | include/smartereye2/se_types.hpp:126-145 | throws exactly on foreign items and then changes nothing; otherwise blanks the item and frees its slot and no other |
| SmallHeap.Heap.StopAllocating | include/smartereye2/se_types.hpp:147-150 | only the allocation flag changes |
| FrameInvariant.HeldIsLive | src/core/frame.h:65-101 | a frame some holder points at is live and counts at least those holders |
| FrameInvariant.KeepKeepsInv | src/core/frame_data.cc:210-214 | keep marks the frame and takes it out of the wrapping quota counter exactly once |
| FrameInvariant.GiveBackKeepsInv | src/core/frame_archive.h:138-141 | handing back a frame at zero frees its own slot, of its own archive, and no other |
| FrameInvariant.UnpublishKeepsInv | src/core/frame_archive.h:131-143 | keep then hand back: the frame is gone, recorded as returned once, nothing else changes |
| FrameInvariant.ReleaseKeepsInv | src/core/frame_data.cc:203-238 | giving up one reference keeps counts, pool and quota exact for nested composites of any depth; newer frames are untouched and survivors keep their fields |
| FrameInvariant.ReleaseSlotsKeepsInv | src/core/frame_data.cc:230-235 | the release loop of a composite consumes exactly the references its slots held |
| FrameOwnership.CloneKeepsSound | src/core/frame.h:94-100 | a clone adds one holder and one count |
| FrameOwnership.DropKeepsSound | src/core/frame.h:74-78 | a dying holder takes exactly its own reference with it |
| FrameOwnership.DropAllKeepsSound | src/proc/synthetic_stream.cc:42-48 | a vector of holders that dies takes exactly its references with it |
| FrameOwnership.PublishKeepsInv | src/core/frame_archive.h:120-128 | a new frame in a free pool slot or on the heap keeps counts, pool and quota exact |
| FrameOwnership.AllocKeepsSound | src/core/frame_archive.h:111-129 | refused exactly when the counter has reached a positive maximum, and then nothing changes; otherwise a new live frame with one reference, in the pool exactly when the archive uses one and it has room |
| FrameOwnership.AllocRefusedIffQuotaUsed | src/core/frame_archive.h:115-118 | below the quota the counter has not wrapped, and allocation is refused exactly when the unkept live frames reach the maximum |
| FrameOwnership.GrantKeepsInv | src/proc/synthetic_stream.cc:47-66 | a granted composite holds exactly the given frames in order and takes over the holders' references |
| FrameOwnership.ComposeKeepsSound | src/proc/synthetic_stream.cc:42-66 | composing trades the holders for one reference to the composite or, refused, for none |
| FrameOwnership.SlotIsLive | src/core/frame_data.cc:222-225 | what a live composite holds is live |
| FrameOwnership.LiveIffReachable | src/core/frame_data.cc:199-238 | no leak and no dangling frame: live is the same as reachable from a holder through composite slots |
| FrameOwnership.StepKeepsSound | src/core/frame.h:65-101 | every operation of a client on its holders keeps the whole invariant |
| FrameOwnership.HeldByStep | src/core/frame.h:65-101 | each operation ends and makes exactly the holders it names |
| FrameOwnership.FrameOptionsSet | src/core/frame_data.cc:199-214 | keep, describe and clone change one field of one frame |
| FrameOwnership.ArchiveOptionsSet | src/core/frame_archive.h:111-118 | a new maximum or a stopped pool takes effect in its archive and nowhere else |
| FrameOwnership.StoppedPoolUsesHeap | src/core/frame_archive.h:120-126 | frames allocated once the pool is stopped live on the heap |
| FrameOwnership.InitialIsSound | src/core/frame_archive.h:58-66 | the invariant holds before the first frame |
| FrameOwnership.EveryRunIsSound | src/core/frame_data.cc:199-238 | over every run: no fault, exact counts, live equals reachable, pool and quota exact, every frame that is gone returned exactly once |
| FrameOwnership.PoolMatchesLiveFrames | src/core/frame_archive.h:120-142 | a slot is taken exactly when a live frame occupies it, no two frames share one, and a frame is marked fixed exactly when it occupies one |
| FrameOwnership.StepKeepsQuota | src/core/frame_archive.h:111-147 | no operation takes an archive past a positive maximum that does not change |
| FrameOwnership.QuotaHoldsInEveryRun | src/core/frame_archive.h:111-147 | with a constant positive maximum the unkept live frames never exceed it, and the counter equals their number |
| FrameOwnership.NoHolderNoFrame | src/core/frame_data.cc:203-238 | without holders nothing is live, and the returned frames are all frames, once each |
| ConcurrentRelease.DecrementKeepsCInv | src/core/frame_data.cc:203-208 | of all threads exactly the one that takes the count to zero inherits the slots and the hand-back |
| ConcurrentRelease.GiveBackKeepsCInv | src/core/frame_archive.h:138-141 | handing back a dying frame is sound whatever the other threads have done in between |
| ConcurrentRelease.MarkKeepsCInv | src/core/frame_data.cc:210-214 | of all threads exactly the one that sets the mark owes the archive a decrement |
| ConcurrentRelease.LowerCounterKeepsCInv | src/core/frame_archive.h:145-147 | the decrement pays what is owed, whenever it comes |
| ConcurrentRelease.NextKeepsCInv | src/core/frame_data.cc:199-238 | every step of every thread keeps counts equal to holders, pending releases and slots, and quota counters equal to unkept frames plus owed decrements |
| ConcurrentRuns.EveryInterleavingIsSound | src/core/frame_data.cc:199-238 | every interleaving is free of faults, keeps pools and, but for owed decrements, counters exact, returns each frame at most once, and at rest leaves exactly the reachable frames |
| ConcurrentQuota.QuotaHoldsInEveryInterleaving | src/core/frame_archive.h:111-147 | with a constant positive maximum unkept frames and owed decrements together never exceed it, in any interleaving |
| ConcurrentRest.GivingMovesReference | src/core/frame.h:74-88 | a dying or overwritten holder leaves its reference to its thread |
| ConcurrentRest.ComposingMovesReferences | src/proc/synthetic_stream.cc:42-66 | a composite takes over the references of its parts; refused, it leaves them to the thread |
| ConcurrentRest.DecrementMovesReferences | src/core/frame_data.cc:227-238 | the last reference to a composite leaves its slots to be released |
| ConcurrentRest.KeepingMarks | src/core/frame_data.cc:210-214 | keep marks the frame and moves no reference |
| ConcurrentRest.ReleasesAreBounded | src/core/frame_data.cc:199-238 | however the threads take turns, releases begun end within a bounded number of steps |
| ConcurrentRest.ComesToRest | src/core/frame_data.cc:199-238 | from every state the threads come to rest with exactly the reachable frames live and exact counters |
| FrameHeap.Memory.constructor | src/core/frame_archive.h:58-66 | archives start empty and sound |
| FrameHeap.Memory.Acquire | src/core/frame_data.cc:199-201 | one more reference, nothing else |
| FrameHeap.Memory.Keep | src/core/frame_data.cc:210-214 | the abstract keep, invariant included, also for a frame at zero |
| FrameHeap.Memory.KeepFrame | src/core/frame_archive.h:145-147 | the 32-bit counter goes down by one, wrapping |
| FrameHeap.Memory.UnpublishFrame | src/core/frame_archive.h:131-143 | the abstract unpublish |
| FrameHeap.Memory.Release | src/core/frame_data.cc:203-238 | the recursive in-place release is the abstract cascade, terminates, and keeps the invariant |
| FrameHeap.Memory.ReleaseSlots | src/core/frame_data.cc:230-235 | the loop over the slot array releases every slot in order |
| FrameHeap.Memory.PublishFrame | src/core/frame_archive.h:111-129 | quota check, choice of slot or heap block, counter and fields of the new frame |
| FrameHeap.Memory.AllocAndTrack | src/core/frame_archive.h:161-171 | publish and first acquire |
| FrameHeap.Memory.AllocateCompositeFrame | src/proc/synthetic_stream.cc:42-66 | the loops compute the abstract composition; the holders give up their references either way |
| FrameHeap.Memory.MarkBlocking | src/proc/synthetic_stream.cc:53-57 | the composite is blocking exactly when one of its parts is |
| FrameHeap.Memory.FillSlots | src/proc/synthetic_stream.cc:59-63 | the slots are the holders' pointers in order |
| FrameHeap.FrameHolder.MoveFrom | src/core/frame.h:70-72 | the source is emptied and no count changes |
| FrameHeap.FrameHolder.Clone | src/core/frame.h:94-100 | a new holder of the same frame, counted |
| FrameHeap.FrameHolder.AssignFrom | src/core/frame.h:81-88 | the old frame is released, the source emptied; assigning a holder to itself leaves it empty |
| FrameHeap.FrameHolder.Destroy | src/core/frame.h:74-78 | the frame held is released |
| AggregatorOwnership.PutHolders | src/core/frame_aggregator.cc:105 | storing a frame replaces the holder of its stream and no other |
| AggregatorOwnership.RememberKeepsSound | src/core/frame_aggregator.cc:105 | the new reference is taken before the replaced one is dropped; all other references stay |
| AggregatorOwnership.ComposedKeepsSound | src/core/frame_aggregator.cc:107-111 | composing clones of all entries adds one reference, to the composite, exactly when the archive grants it |
| AggregatorOwnership.DeliverKeepsSound | src/core/frame_aggregator.cc:120 | queued, overflowed or turned away by a closed queue, references balance and the queue stays within 250 |
| AggregatorOwnership.EmitKeepsSound | src/core/frame_aggregator.cc:106-123 | the whole emission leaves the callers' references as they were |
| AggregatorOwnership.HandleSingleKeepsSound | src/core/frame_aggregator.cc:94-124 | every path for a single frame keeps the store sound, a refused composite with an empty holder in the map included |
| AggregatorOwnership.DropAllCancelsCloneAll | src/core/frame_aggregator.cc:107-115 | cloning a set of holders and dropping the clones leaves the store as it was |
| AggregatorOwnership.RefusalOnlyStores | src/core/frame_aggregator.cc:112-115 | a refused allocation leaves map, queue and store exactly as after the store alone |
| AggregatorPaths.RememberAllKeepsSound | src/core/frame_aggregator.cc:72-77 | remembering the parts of a composite keeps the store sound while the composite is held |
| AggregatorPaths.TouchAllKeepsSound | src/core/frame_aggregator.cc:79-81 | the test either finds a frame for every stream or leaves an empty holder for one that has none |
| AggregatorPaths.PublishKeepsAggSound | src/core/frame_aggregator.cc:93 | the queue's own overwrite keeps references balanced |
| AggregatorPaths.HandleCompositeKeepsSound | src/core/frame_aggregator.cc:71-93 | composite input whose parts have profiles keeps the store sound |
| AggregatorPaths.HandleKeepsSound | src/core/frame_aggregator.cc:63-126 | the whole of handleFrame keeps the store sound |
| AggregatorPaths.DequeueKeepsSound | src/core/frame_aggregator.cc:37-43 | the consumer takes over the queue's reference |
| AggregatorPaths.StopKeepsSound | src/core/frame_aggregator.cc:57-61 | stop releases every queued composite and nothing else |
| AggregatorPaths.SingleFaultsExactly | src/core/frame_aggregator.cc:105-111 | handling a single frame faults exactly when it brings the map to the number of streams, an empty holder is in it, and the archive has room for the composite |
| AggregatorPaths.CompositeFaultsExactly | src/core/frame_aggregator.cc:71-77 | composite input faults exactly when some part has no stream profile |
| AggregatorPaths.IncompleteCompositeLeavesEmptyHolder | src/core/frame_aggregator.cc:79-81 | a composite that leaves a requested stream without a frame leaves an empty holder |
| AggregatorPaths.EmptyHolderIsMet | src/core/frame_aggregator.cc:71-111 | two streams, an empty map, a composite of one of them and then a frame of that stream: the second call faults |
| AggregatorPaths.FaultIsReached | src/core/frame_aggregator.cc:71-111 | a program that allocates two frames of one stream and composes the first gets there |
| AggregatorPaths.UndescribedPartIsReached | src/core/frame_aggregator.cc:71-77 | and one whose composite has a part without profile faults at once |
| AggregatorRuns.CompleteMap | src/core/frame_aggregator.cc:106-110 | as many entries as streams means: exactly the newest frame of each stream, in ascending order of ids |
| AggregatorRuns.CompleteIffAllStreams | src/core/frame_aggregator.cc:106 | the size test holds exactly when every requested stream has sent a frame |
| AggregatorRuns.EmitEffect | src/core/frame_aggregator.cc:106-123 | the queue gains the composite or loses its oldest, the map is emptied, and the composite keeps its parts and carries the description of the completing frame |
| AggregatorRuns.EveryAggregatorRun | src/core/frame_aggregator.cc:63-126 | over every run fed single frames: memory sound; each composite holds one newest frame per stream in order; at most 250 queued; formed = delivered + queued + 2 per overflow; delivered and queued follow the order of forming; those queued are live and hold their parts |
| AggregatorRuns.EmitsExactlyWhenComplete | src/core/frame_aggregator.cc:98-123 | a composite is formed exactly when a frame of a requested stream comes with which every stream has sent one since the last composite, and the archive grants it |
| AggregatorRuns.EmissionIsDescribed | src/core/frame_aggregator.cc:116-120 | it is the last in the queue, described like the frame that completed it, and blocks exactly when a part does |
| AggregatorFeeding.SingleEntersExactly | src/core/frame_aggregator.cc:98-123 | a single frame changes nothing exactly when its stream is not requested; otherwise it takes the place of the frame of its stream and of no other, unless it completes the map, which is then empty |
| AggregatorFeeding.CompositeIsMap | src/core/frame_aggregator.cc:105-122 | the composite is everything remembered, the new frame included, and enters the queue or costs it its oldest |
| AggregatorFeeding.EventsAct | src/core/frame_aggregator.cc:37-43 | a feeding is handleFrame, the consumer gets the oldest composite, other clients operate on the store |
| AggregatorFeeding.LogsAreFed | src/core/frame_aggregator.cc:98-123 | no frame of a requested stream is left out, used twice or reordered: the logs of the composites and the open one are what was fed |
| AggregatorFeeding.CompositesArePieces | src/core/frame_aggregator.cc:98-123 | with an unlimited archive the composites of a run are the pieces into which the frames fed are cut as soon as every stream has sent one |
| AggregatorCalls.StoppedIgnoresFrames | src/core/frame_aggregator.cc:45-61 | a stopped aggregator ignores frames until it is started; what it remembers survives, what was queued does not |
| AggregatorCalls.ClosedQueueLosesComposite | src/core/frame_aggregator.cc:45-61 | after stop and start, composites are dropped until the consumer calls |
| AggregatorCalls.DequeueTakesOldest | src/core/frame_aggregator.cc:37-43 | the consumer gets the oldest composite, if any, and the queue is open |
| AggregatorCalls.RememberAllEnters | src/core/frame_aggregator.cc:72-77 | after a composite as input each stream has the last part that is of it, or what it had |
| AggregatorCalls.CompositeInputQueues | src/core/frame_aggregator.cc:71-93 | a composite as input queues a composite of everything remembered exactly when every stream has a frame and the archive grants it; the map stays |
| FrameAggregator.FrameAggregator.constructor | src/core/frame_aggregator.cc:28-35 | the stream ids form an ordered set; the queue has capacity 250 |
| FrameAggregator.FrameAggregator.HandleFrame | src/core/frame_aggregator.cc:63-126 | the in-place code computes the abstract handling and keeps the store sound |
| FrameAggregator.FrameAggregator.Remember | src/core/frame_aggregator.cc:105 | map assignment of a clone |
| FrameAggregator.FrameAggregator.Emit | src/core/frame_aggregator.cc:107-122 | compose, describe, deliver, clear |
| FrameAggregator.FrameAggregator.Deliver | src/core/frame_aggregator.cc:120 | enqueue a clone or drop the oldest |
| FrameAggregator.FrameAggregator.HandleComposite | src/core/frame_aggregator.cc:71-93 | the loops over the parts and over the streams |
| FrameAggregator.FrameAggregator.TryDequeue | src/core/frame_aggregator.cc:41-43 | the front moves to the consumer |
| FrameAggregator.FrameAggregator.Stop | src/core/frame_aggregator.cc:57-61 | closes the queue and releases its contents |
| ConsumerQueue.ConsumerQueue.Enqueue | src/concurrency/consumer_queue.h:35-45 | push with overwrite of the oldest; nothing when closed |
| ConsumerQueue.ConsumerQueue.BlockingEnqueue | src/concurrency/consumer_queue.h:47-57 | pushes, is turned away, or must wait, and exactly when |
| ConsumerQueue.ConsumerQueue.ResumeEnqueue | src/concurrency/consumer_queue.h:52-53 | the push after the wait does not look whether the queue is closed |
| ConsumerQueue.ConsumerQueue.Dequeue | src/concurrency/consumer_queue.h:59-74 | re-opens the queue and takes the front, or must wait |
| ConsumerQueue.ConsumerQueue.ResumeDequeue | src/concurrency/consumer_queue.h:68-73 | takes the front after the wait, if there is one |
| ConsumerQueue.ConsumerQueue.TryDequeue | src/concurrency/consumer_queue.h:76-87 | re-opens the queue and takes the front, if there is one |
| ConsumerQueue.ConsumerQueue.PopFront | src/concurrency/consumer_queue.h:89-92 | drops the front, if there is one |
| ConsumerQueue.ConsumerQueue.Clear | src/concurrency/consumer_queue.h:101-111 | closes, marks flushing and empties, all items dropped in order |
| ConsumerQueue.ConsumerQueue.Start | src/concurrency/consumer_queue.h:113-117 | opens and ends flushing |
| ConsumerQueue.SectionsDo | src/concurrency/consumer_queue.h:35-117 | which item enters and which leave in each section, and exactly who has to wait |
| ConsumerQueue.FrontIsOldest | src/concurrency/consumer_queue.h:71-73 | a reader gets the oldest item and leaves the rest |
| ConsumerQueue.WaitersGoOn | src/concurrency/consumer_queue.h:48-66 | waiting readers and pushes go on exactly when there is something, or room, or a flush |
| ConsumerQueue.FlagsByHistory | src/concurrency/consumer_queue.h:59-117 | the queue is closed exactly from a clear to the next reader or start, and flushed exactly from a clear to the next start |
| ConsumerQueue.NextConserves | src/concurrency/consumer_queue.h:35-117 | every step keeps: pushed in order = removed in order, then the contents |
| ConsumerQueue.QueueConservation | src/concurrency/consumer_queue.h:35-117 | the same over every interleaving, histories only growing |
| ConsumerQueue.EveryDeliveryInOrder | src/concurrency/consumer_queue.h:59-87 | deliveries are pushes at strictly increasing positions |
| ConsumerQueue.OutgrowsExactlyByFlushedPush | src/concurrency/consumer_queue.h:47-57 | the only step that takes a queue past its capacity, as an if-and-only-if |
| ConsumerQueue.SizeBounded | src/concurrency/consumer_queue.h:35-57 | within capacity before the first clear, and always without blocking pushes |
| ConsumerQueue.FlushedQueueMayOutgrow | src/concurrency/consumer_queue.h:47-57 | a concrete run past the capacity |
| Dispatcher.NextKeepsInv | src/concurrency/dispatcher.cc:24-69 | every step keeps each item in one place and what each stop call has established; finished stays finished |
| Dispatcher.MarkIsPushedAtClear | src/concurrency/dispatcher.cc:60-68 | a stop call remembers how many items had been pushed when it cleared |
| Dispatcher.FinishedForever | src/concurrency/dispatcher.cc:26-36 | a finished item is never queued or run again |
| Dispatcher.StopIsABarrier | src/concurrency/dispatcher.cc:53-69 | when stop returns, every item pushed before its clear has run or been dropped and none runs later, in every interleaving |
| DispatcherProgress.LosesExactly | src/concurrency/dispatcher.cc:60 | items are lost to a clear or, the oldest, to an overwrite, and to nothing else |
| DispatcherProgress.PushesExactly | src/concurrency/dispatcher.h:50-58 | a push to an open queue queues its item behind all others, and one waits exactly when it is blocking and there is no room |
| DispatcherProgress.TakesExactly | src/concurrency/dispatcher.cc:26-36 | the worker runs the oldest item, and waits exactly when there is none and no flush |
| DispatcherProgress.FinishesExactly | src/concurrency/dispatcher.cc:31-36 | what the worker runs it finishes, and nothing else is ever finished |
| DispatcherProgress.NothingIsLost | src/concurrency/dispatcher.cc:24-43 | without clears and overwrites every item pushed is done, running or queued, and in push order |
| DispatcherProgress.FinishInPushOrder | src/concurrency/dispatcher.cc:24-43 | in every run items finish in push order |
| DispatcherProgress.WorkerTakesFront | src/concurrency/dispatcher.cc:24-36 | wherever an idle worker stands it gets to the oldest item on its own |
| DispatcherProgress.WorkerDrainsQueue | src/concurrency/dispatcher.cc:24-43 | left alone it runs every item in the queue to its end |
| DispatcherProgress.StopIsAnswered | src/concurrency/dispatcher.cc:38-69 | a waiting stop is answered by the next two steps of an idle worker or one at its last item |
| DispatcherProgress.StopIsAnsweredLater | src/concurrency/dispatcher.cc:38-69 | and by one that is still on its way to the queue |
| DispatcherProgress.WaitsExactly | src/concurrency/dispatcher.cc:65-69 | what a waiting push, stop or worker waits for |
| DispatcherProgress.InvokePushes | src/concurrency/dispatcher.h:50-58 | invoke pushes its item, and does nothing on a stopped dispatcher |
| DispatcherProgress.StartOpens | src/concurrency/dispatcher.cc:46-51 | start lets invoke through and opens the queue |
| DispatcherProgress.StopCloses | src/concurrency/dispatcher.cc:53-69 | stop keeps invoke out, empties and closes the queue, and then waits |
| DispatcherProgress.KilledWorkerLeaves | src/concurrency/dispatcher.cc:72-77 | the destructor ends the worker at its next test |
| RepeatOperation.NextKeepsInv | src/concurrency/dispatcher.h:107-143 | the invariant behind the next rows, step by step |
| RepeatOperation.StoppedStaysStopped | src/concurrency/dispatcher.h:121-124 | after stop and until the next start: queue empty, operation not running, nothing about to run it |
| RepeatOperation.AtMostOneQueued | src/concurrency/dispatcher.h:131-138 | at most one run is queued |
| RepeatOperation.SecondRunExactly | src/concurrency/dispatcher.h:114-138 | a second run comes about exactly when start is called while there is one already |
| RepeatOperation.AtMostOneRun | src/concurrency/dispatcher.h:114-138 | at most one run exists in all when start is only called at rest |
| RepeatProgress.ExactlyOneRun | src/concurrency/dispatcher.h:114-138 | from a start at rest to the next start, stop or exception there is exactly one run: asked for, queued, in progress or being re-armed |
| RepeatProgress.RunIsRequeued | src/concurrency/dispatcher.h:131-138 | a run that ends while neither stop flag is set is queued again by the next three steps of the worker |
| RepeatProgress.RepeatsForEver | src/concurrency/dispatcher.h:131-138 | undisturbed, six steps of the worker take it from one run to the next, for ever |
| RepeatProgress.StoppedRunIsNotRequeued | src/concurrency/dispatcher.h:134-136 | with a stop flag set it is not queued again |
| RepeatProgress.StartQueues | src/concurrency/dispatcher.h:114-119 | start queues the operation |
| RepeatProgress.StopWaits | src/concurrency/dispatcher.h:121-124 | stop sets both flags, empties and closes the queue, and waits |
| RepeatProgress.StopIsAnswered | src/concurrency/dispatcher.h:121-124 | and is answered within two steps of the worker |
| RepeatProgress.ThrowEndsIt | src/concurrency/dispatcher.h:131-138 | an exception ends the repetition |
| RepeatProgress.WaitsExactly | src/concurrency/dispatcher.cc:26-29 | the worker waits exactly when the queue is empty and not being flushed |
| LittleEndian.Uint32RoundTrip | src/gemini/tlv_data.h:22-28 | decoding inverts encoding of a 32-bit field |
| LittleEndian.LowByteFirst | src/gemini/tlv_data.h:22-28 | the low byte of a field comes first |
| SerialFraming.ParseAppend | src/gemini/gemini_serial_port.cc:261-302 | parsing continues where a whole prefix ends |
| SerialFraming.ParsePartial | src/gemini/gemini_serial_port.cc:276-298 | an incomplete packet yields nothing, a complete one itself |
| SerialFraming.ParsePrefix | src/gemini/gemini_serial_port.cc:261-302 | reading less delivers a prefix of the same packets |
| SerialFraming.ParsedAreValid | src/gemini/gemini_serial_port.cc:254-259 | no packet outside the type range or over the length bound is delivered |
| SerialFraming.RoundTrip | src/gemini/gemini_serial_port.cc:192-203 | the batch parser inverts the serializer on every list of valid messages |
| SerialFraming.FrameBytes | src/gemini/gemini_serial_port.cc:192-203 | the bytes of a message on the line: type, length, data |
| SerialFraming.HeadBounds | src/gemini/tlv_data.h:19-29 | what passes for a head |
| SerialFraming.SerializeInjective | src/gemini/gemini_serial_port.cc:192-203 | equal byte streams come from equal messages |
| SerialReceiver.Receiver.constructor | src/gemini/gemini_serial_port.cc:250-252 | nothing read, nothing delivered |
| SerialReceiver.Receiver.ReadHead | src/gemini/gemini_serial_port.cc:263-274 | the head read as a function of the state and the read: a valid head kept, an invalid one skipped, a short one dropped with a retry |
| SerialReceiver.Receiver.ReadBody | src/gemini/gemini_serial_port.cc:276-298 | the body read as a function of the state and the read: the buffer holds the body so far, read plus lacking is the length, a complete packet is delivered |
| SerialReceiver.Receiver.ReceiveLoop | src/gemini/gemini_serial_port.cc:261-302 | the loop over the reads computes the abstract run |
| SerialReceiver.RunKeepsValid | src/gemini/gemini_serial_port.cc:261-302 | in every run, delivered is the parse up to the last boundary, behind which are the head and the body so far |
| SerialReceiver.DeliveredIsBatchParse | src/gemini/gemini_serial_port.cc:254-298 | the bytes kept parse to what is delivered, except for a packet without data whose read is to come |
| SerialReceiver.LosesNothingExactly | src/gemini/gemini_serial_port.cc:263-268 | the reads lose no byte exactly when none brings a part of a head |
| SerialReceiver.DeliversUnsplit | src/gemini/gemini_serial_port.cc:254-298 | whatever the reads do, the batch parse of the bytes taken, those of split heads cut out, is delivered |
| SerialReceiver.ChunkingInvariance | src/gemini/gemini_serial_port.cc:254-298 | without split heads the batch parse of the bytes read is delivered, for all read sizes and exceptions |
| SerialReceiver.SplitHeadIsDropped | src/gemini/gemini_serial_port.cc:263-268 | a head read that brings a part of a head drops it and retries; nothing else changes |
| SerialReceiver.ReadTakesAll | src/gemini/gemini_serial_port.cc:263-291 | a read takes what it asks for unless it is allowed less or less is there |
| SerialReceiver.RetriesAreShortHeads | src/gemini/gemini_serial_port.cc:263-268 | over every run the retries are the head reads that bring less than a head, none included |
| SerialReceiver.SilenceRetries | src/gemini/gemini_serial_port.cc:263-268 | on a silent line every read that does not throw is a retry |
| SerialReceiver.TransferExactly | src/gemini/gemini_serial_port.cc:192-302 | the messages arrive, complete and in order, exactly when all bytes are read, no head is split and no empty packet is pending |
| SerialReceiver.EnoughReadsDeliverAll | src/gemini/gemini_serial_port.cc:192-302 | as many reads that bring something as there are bytes deliver everything, whatever their sizes and whatever comes in between |
| SerialReceiver.SplitHeadLosesMessages | src/gemini/gemini_serial_port.cc:263-268 | when the first head comes in pieces the messages are not delivered, whatever is read later |
| SerialReceiver.FourAndFourBytesDeliverNothing | src/gemini/gemini_serial_port.cc:263-268 | a head that comes as four and four bytes is dropped twice |
| SerialReceiver.HeadThenDataDeliversIt | src/gemini/gemini_serial_port.cc:263-298 | a message read as head and data is delivered |
| SerialReceiver.ReceiveAny | src/gemini/gemini_serial_port.cc:254-302 | what is delivered and how much is read is determined by the bytes and the reads; it is the batch parse of the bytes read unless a head was split |
| SerialReceiver.Transfer | src/gemini/gemini_serial_port.cc:192-302 | serialized messages are all delivered in order when each read may bring a head and there are enough; in general exactly when the reads take everything and split no head |
| Handshake.SerialPort.OfferHand | src/gemini/gemini_serial_port.cc:235-245 | the abstract offer |
| Handshake.SerialPort.OnConnected | src/gemini/gemini_serial_port.cc:345-364 | the burst on entry, nothing when already connected |
| Handshake.SerialPort.HandleConnection | src/gemini/gemini_serial_port.cc:378-390 | dispatch on the connection messages |
| Handshake.SerialPort.HandleTlvData | src/gemini/gemini_serial_port.cc:210-233 | a wrong message while syncing offers the hand and is then handled all the same |
| Handshake.SerialPort.Retry | src/gemini/gemini_serial_port.cc:314-336 | the abstract retry |
| Handshake.StateIsLastSignal | src/gemini/gemini_serial_port.cc:210-376 | in every run, told from the events alone: Connected, Syncing or Disconnected exactly when the last of connect, watchdog firing, Ack and Disconnect says so |
| Handshake.BurstOncePerEntry | src/gemini/gemini_serial_port.cc:345-364 | the burst goes out in full and in order exactly once per Ack that finds the port not connected |
| Handshake.RetryOffersEverySixth | src/gemini/gemini_serial_port.cc:320-327 | re-offers by retry number the syncing timeouts divided by six, the counter is the remainder |
| Handshake.OneSyncPerOffer | src/gemini/gemini_serial_port.cc:216-222 | each offer writes one Sync and nothing else does; wrong replies while syncing and the offers they cause are equal in number |
| HandshakeTally.BurstContents | src/gemini/gemini_serial_port.cc:345-364 | Ack, watchdog start, time stamp and the three requests, in this order |
| HandshakeTally.SendsExactly | src/gemini/gemini_serial_port.cc:210-376 | over every run, from the events alone: heartbeat replies and watchdog kicks, heartbeats on timeouts while connected, file replies, disconnects, Syncs and bursts, each as often as due and nothing else |
| StreamRead.Reader.BulkTransfer | src/usb/usb_messenger.cc:40-62 | what the device brings is stored at the offset, also by a transfer that fails, which leaves the count as it was |
| StreamRead.Reader.ReadHead | src/gemini/gemini_device.cc:202-228 | the first transfer and the resets, as a function of the buffer, the answers and the reset results |
| StreamRead.Reader.ReadRest | src/gemini/gemini_device.cc:230-248 | the loop computes the abstract transfers: offset plus missing is `pack_length` |
| StreamRead.Reader.StreamRead | src/gemini/gemini_device.cc:193-251 | outcome, buffer, transfers and resets are those of the abstract call; success means exactly the announced bytes stored in order |
| StreamRead.RestStoresAll | src/gemini/gemini_device.cc:230-248 | each request asks for what is missing, all bytes are stored in order and nothing else changes, and the end is success exactly when every transfer worked and all has come |
| StreamRead.SuccessIsWholeMessage | src/gemini/gemini_device.cc:193-251 | success means the device sent as many bytes as the head announces, and they are in the buffer in order with the rest untouched |
| StreamRead.SucceedsExactly | src/gemini/gemini_device.cc:193-251 | the call succeeds exactly when the head is read, its message fits, and the device offers what is missing before it fails |
| StreamRead.SteadyDeviceSucceeds | src/gemini/gemini_device.cc:235-246 | a device that always has something to send makes the call succeed within as many transfers as the message has bytes, or two |
| StreamRead.OverrunsExactly | src/gemini/gemini_device.cc:230-233 | a transfer past the buffer is asked for exactly when the head announces less than was brought or more than fits |
| StreamRead.ShortMessageOverruns | src/gemini/gemini_device.cc:230-233 | a head of 24 bytes that announces a message of four does it |
| StreamRead.HeadFailsWithReset | src/gemini/gemini_device.cc:214-228 | which resets a short head and a bad magic call for, and which of them ends the call |
| StreamRead.FailsWithStepThatFailed | src/gemini/gemini_device.cc:202-250 | a call that fails returns the status of the step that failed, and does nothing after it |
| DeviceHub.Hub.CreateDevice | src/device/device_hub.cc:103-133 | positions are probed in cyclic order up to the first suitable one; the start advances as specified |
| DeviceHub.ChooseFindsIfAny | src/device/device_hub.cc:105-126 | a search repeats no position and succeeds exactly when some entry suits |
| DeviceHub.ReturnsFirstInOrder | src/device/device_hub.cc:105-126 | the device returned is the first in cyclic order that opens and has the serial number asked for |
| DeviceHub.AdvancesExactly | src/device/device_hub.cc:115-130 | the start moves on by one exactly when cycling is on, no serial number is asked for and a device was found |
| DeviceHub.EveryDeviceIsReturned | src/device/device_hub.cc:128-130 | any n consecutive calls return every device that opens, from any starting position |
| ListChanged.ListChanged | src/device/backend.h:39-59 | unchanged exactly when the lengths agree and every entry of the first list is found in the second |
| ListChanged.UnchangedIffPermutation | src/device/backend.h:39-59 | for an equivalence and a first list without equal entries, unchanged is the same as being a permutation |
| ListChanged.UnchangedIsSymmetric | src/device/backend.h:98-101 | then the comparison does not depend on the order of its arguments |
| ListChanged.TwinsHideAChange | src/device/backend.h:39-59 | replacing one of two equal entries by something else goes unnoticed, and if it is new, only this way round |
| ListChanged.RightExactlyWithoutTwins | src/device/backend.h:39-59 | the answer is right for every second list exactly when the first has no equal entries, or all devices count as equal |

## Left out

- FrameHeap.Memory: frames and archives are values in one object, addressed by incarnation number; separate C++ objects with raw addresses are not modelled, and an archive's pool is the value that `SmallHeap.Heap` implements.
- FrameHeap.FrameHolder.Clone: reference counts are unbounded; overflow of the `int` count at 2^31 holders is not modelled.
- FrameOwnership.EveryRunIsSound: each operation is one step; interleaving inside a release is the subject of `ConcurrentRelease`, which lets threads act in more orders than the program does, and where allocation is still one step: the archive's mutex keeps other allocations out of it.
- The original frame inside a depth frame (`setOriginal`, `keep` of depth frames): nothing in the repository sets it.
- Payload bytes, metadata blobs and per-type `loadData`: they do not affect ownership.
- `flush` of an archive beyond stopping its pool: it waits for callbacks, of which only one can be tracked.
- Public `Frame`, `FrameSet` and `FrameQueue` wrappers, `ProcessingBlock::invoke`: some do not follow the acquire discipline, and their callers are outside this model.
- AggregatorRuns.EveryAggregatorRun: each handleFrame and each consumer call is atomic, and runs contain no `stop`; `stop` itself is covered by `AggregatorPaths.StopKeepsSound`.
- A composite formed from composite input keeps the profile and sensor a recycled slot had before; the model leaves them empty there.
- DispatcherProgress.StopIsAnswered: steps that end the wait exist from every state with a living worker; that the scheduler takes them is not part of the model, the bound of the very long waits is ignored, and the mutex that keeps `start` whole against the first part of `stop` is not modelled, so more interleavings are covered than can occur.
- `Dispatcher::flush`, `invoke_and_wait`, `trySleep`, `Watchdog`: waiting helpers around the same queue.
- RepeatOperation.StoppedStaysStopped: start and stop come from one client thread, and the destructor's shutdown of the worker is not included.
- SerialReceiver.Receiver.ReceiveLoop: the watchdog's concurrent reset of the parser and its flush of the port are not modelled.
- Handshake.RetryOffersEverySixth: the counter is a static shared by all ports; one port is modelled. Write failures and the race between watchdog and receive thread are left out.
- Frame payload handling of the individual data messages, and the file transfer state of `receiveFile`.
- USB and serial port access, device enumeration, pipeline and sensor start/stop, options, filters, playback and the syncer (a stub).
- Everything under `3rdparty/`.
