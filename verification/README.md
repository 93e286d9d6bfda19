# Mojo Core transport: a verified model

This project models the byte and handle transport of Mojo Core (`mojo/core`) in Dafny and proves what
its pieces promise over whole runs.

- **Data pipe** (`DataPipe*`). Producer and consumer share a ring and know of each other only through two
  FIFO queues of counts. `DataPipe` specifies each call, `DataPipeDispatchers` has the two dispatchers as
  objects over a shared array, proved to refine those specifications, and `DataPipeProtocol` interleaves
  the calls, the notifications they owe after dropping their lock, their late returns, two-phase operations,
  transfers, callbacks and closure. `DataPipeProof` keeps its invariant; `DataPipeTheorems` has stream safety,
  conservation, two-phase stability and finality of closure, `DataPipeTransfers` completed and cancelled
  transfers. `DataPipeElements`, `DataPipeLimits` and `DataPipeOverlap` say exactly when elements stay whole
  and for which pipes and callers stream safety holds; `DataPipeFailures` has, for every pipe, the runs that lose
  a count and that fail a CHECK. `DataPipeCalls` has the result of every call, the four ways of reading and what a
  two-phase write commits, `DataPipeSignals` what the signals foretell, `DataPipePorts` the order of the counts.
- **Linux shared-memory ring** (`SharedRing*`, `SharedDelivery`). `ChannelLinux::SharedBuffer`, its reader
  loop and its eventfd as a machine of atomic accesses and single copied bytes, with any number of writer
  threads and callbacks; `SharedRingCalls` follows one whole write and one whole callback.
- **Upgrade handshake** (`Upgrade*`). Both sides may offer at once, on any thread, and replies may travel
  through a ring already in use. `UpgradeDelivery` accounts for every message over both paths, `UpgradeAnswers`
  says how offers and replies are answered and which path a write takes.
- **POSIX write queue** (`WriteQueue`, `PosixWrite`). Direct writes, requeueing, the plain and the writev
  flush against a socket that answers as it likes.
- **Receive side and wire format** (`Framing`, `Receive`, `Delivery`, `MessageFormat`). The read buffer,
  the incremental parser, both message representations, `Deserialize`, and the composition of sender,
  wire and receiver.
- **Handle table** (`HandleTable*`). The map with its one-entry cache, the begin, cancel and complete protocol of
  handles in transit, and the lives of the dispatchers behind it.
- **Mach send queue** (`MachQueue`). Handshake, one-message retry buffer and pending queue.

`Basics`, `RingMath`, `Division` and `Messages` hold what the others share: options, the arithmetic of rings,
multiples and common divisors, and the concatenation of messages.

## What the results rest on

- Ports are FIFO and report closure only once their queue is drained, as the comments at
  `mojo/core/message_pipe_dispatcher.cc:188-194` describe.
- The data pipe theorems are about pipes whose last offset and largest count stay below 2^32 (all up to 2^31
  bytes), and about callers that do not end a two-phase operation while another call that ends one at the same
  end is under way. `StreamSafeIff` shows that these are exactly the pipes and callers for which every run is
  safe. The model accepts all others too, and follows their runs until a count leaves the range of the ring.
- A data pipe end begins transit only while it is registered, so it is not closed. Once its transfer completes its
  port is gone, so counts it still owes are lost. Closing an end and closing its port are one step.
- Shared memory is sequentially consistent, the eventfd is a flag that is zero or not, and with
  EFD_ZERO_ON_WAKE callbacks run on one I/O thread. In the handshake both sides have the same page size, and
  the ring is abstracted to a queue whose own correctness is the subject of `SharedRing`.
- A socket is any finite list of answers, after which it blocks. A callback for writability comes only while there
  is a watcher. The writev flush keeps asking after EAGAIN
  while its queue is not empty (`mojo/core/channel_posix.cc:586`), so it is followed until the answers run
  out. Messages are not empty and carry at most 128 handles.
- The grown size of a buffer, which the source computes in floating point, is any size; only its maximum with
  the size required matters. Memory the allocator does not clear holds any bytes.
- A Mach destination that is dead stays dead. A message that was destroyed after a failed send is accounted
  for as such.
- Control messages are accepted or refused by their type alone.

## Where the code differs from what one would expect

- The offsets of a data pipe wrap at 2^32 before the remainder is taken, which loses stream safety for pipes
  whose last offset and largest count reach 2^32 (`InexactIsBroken`). The option check of `CreateDataPipe`
  (`mojo/core/core.cc:649-652`) accepts any 32-bit capacity; creating the region may still fail.
- `EndReadData` and `EndWriteData` drop the lock before they clear the flag that admits them. A second call in
  that window is not refused, although `mojo/public/c/system/data_pipe.h:428-430` promises that it is, and loses
  the stream (`OverlappingReadsBreak`, `OverlappingWritesBreak`, `StreamSafeIff`).
- An end that is transferred while a call still owes its notification loses the count (`ConservationIff`, and
  `TransferCanLoseCount` for the run).
- An end closed in the middle of a two-phase read fails a CHECK if the read is then ended (`EndReadCheckIff`, and
  `EndAfterCloseFails` for the run).
- A partial write is cut at the free capacity, not at an element, so a capacity that is no multiple of the
  element size lets a write split an element (`WholeElementsIff`).
- `EndSerialize` moves the region out, so a later `CancelTransit` leaves an end that refuses every call
  (`CancelRestoresIff`, `StrippedProducerRefuses`, `StrippedConsumerRefuses`).
- `StartOnIOThread` ignores the result of its flush: if that fails, a message written before the start is dropped
  and later ones are sent all the same. A channel keeps to the stream whatever the socket answers if and only if
  nothing is queued when it starts (`StartAndUse`, `SpoilableIff`; `WriteBeforeStart` is an example).
- `ChannelLinux::Write` uses its notifier without asking whether it is still there: a write that gets to its
  `Notify` after the channel was shut down uses a null pointer. With a valid number of pages this is the only such
  use (`CrashedIff`), and there is a run of it for every such number (`ShutDownCanCrash`).
- The branch for a bad number of pages in an upgrade offer does not return: the offer is rejected and then
  accepted (`UnexpectedAcceptIff`). The shared writer is safe even so.
- The producer ignores a count that is too large, the consumer takes it for closure; neither happens between
  peers that follow the code (`DrainsNeverFail`).
- On Apple channels `Deserialize` refuses a message that was built with room for 63 or 64 handles, although 64 is
  the limit: its extra header, rounded up, has room for 70 (`BuiltIsAcceptedIff`).
- READABLE and WRITABLE are reported also by an end in transit, whose calls are refused (`ReadableMeansRead`,
  `WritableMeansWrite`).
- A dispatcher of the base class that is sent, and one that finds the table out of handles, stays open without a
  handle (`OpenIffRegistered`).
- The definitions in `channel.cc` take `capacity, payload_size, max_handles`; the declaration in `channel.h`
  names the last two in the other order. The model follows the definitions.
- The comment in the writev flush gives two reasons for messages left in the queue after a round; EAGAIN is a
  third, and the loop then tries again at once.
- `AddDispatchersFromTransit` counts missing dispatchers against the handles left and refuses even an empty
  batch once the counter has wrapped to zero.

## Model

| member | source | states |
|---|---|---|
| DataPipe.OffsetExactIff | mojo/core/data_pipe_producer_dispatcher.cc:153-154 | the 32-bit offset update equals addition modulo the capacity for every offset and count that a pipe with the given options can hold, if and only if the last offset plus the largest count of one call stays below 2^32 |
| DataPipe.ExactCapacities | mojo/core/core.cc:641-652 | that is so for every pipe of at most 2^31 bytes, and for one of whole elements exactly when twice the capacity less one element is below 2^32 |
| DataPipe.DrainReadsSums | mojo/core/data_pipe_producer_dispatcher.cc:515-557 | draining DATA_WAS_READ messages whose counts fit adds all of them and takes no error branch |
| DataPipe.DrainWritesSums | mojo/core/data_pipe_consumer_dispatcher.cc:569-611 | draining DATA_WAS_WRITTEN messages whose counts fit adds all of them and takes no error branch |
| DataPipe.DrainReadsStops | mojo/core/data_pipe_producer_dispatcher.cc:515-557 | the producer counts everything before a message it cannot take and nothing after it; it takes it for closure unless it is only a count that is too large |
| DataPipe.DrainWritesStops | mojo/core/data_pipe_consumer_dispatcher.cc:569-611 | the consumer counts everything before such a message and nothing after it, and always takes it for closure |
| DataPipe.SatisfiedIsSatisfiable | mojo/core/data_pipe_consumer_dispatcher.cc:497-528 | at both ends every satisfied signal is also satisfiable, in every state; DataPipeSignals says which they are |
| DataPipeDispatchers.ProducerDispatcher.CopyIn | mojo/core/data_pipe_producer_dispatcher.cc:141-149 | the two memcpy calls leave in the ring the data from the write offset on, around the end, and nothing else changed |
| DataPipeDispatchers.ProducerDispatcher.WriteData | mojo/core/data_pipe_producer_dispatcher.cc:101-162 | result, object, count and the whole ring are those of the specification of a write |
| DataPipeDispatchers.ProducerDispatcher.BeginWriteData | mojo/core/data_pipe_producer_dispatcher.cc:164-192 | refines the specification, and on success exposes a non-empty stretch inside the ring and the free capacity |
| DataPipeDispatchers.ProducerDispatcher.EndWriteData | mojo/core/data_pipe_producer_dispatcher.cc:194-227 | an accepted commit takes its count off the free capacity and a refused one changes no count; up to 2^31 bytes an open two-phase write is accepted exactly when whole, covered by the free capacity and within the ring |
| DataPipeDispatchers.ProducerDispatcher.DrainControlPort | mojo/core/data_pipe_producer_dispatcher.cc:515-557 | the do-while loop ends in the state of the recursive drain, including its stops at bad messages |
| DataPipeDispatchers.ProducerDispatcher.UpdateSignalsState | mojo/core/data_pipe_producer_dispatcher.cc:501-557 | refines the specification of a look at the control port |
| DataPipeDispatchers.ProducerDispatcher.BeginTransit | mojo/core/data_pipe_producer_dispatcher.cc:297-303 | succeeds if and only if the end is neither in transit nor in a two-phase write, and changes nothing but the mark |
| DataPipeDispatchers.ProducerDispatcher.EndSerialize | mojo/core/data_pipe_producer_dispatcher.cc:262-295 | fails exactly without a region; what it writes out is accepted by Deserialize and makes the end it was, open and at rest; only the region is gone |
| DataPipeDispatchers.ProducerDispatcher.Deserialize | mojo/core/data_pipe_producer_dispatcher.cc:326-399 | yields nothing exactly when the state is out of range, else the end carried on with one look at its port |
| DataPipeDispatchers.ConsumerDispatcher.CopyOut | mojo/core/data_pipe_consumer_dispatcher.cc:167-177 | the two memcpy calls deliver the bytes from the read offset on, around the end of the ring |
| DataPipeDispatchers.ConsumerDispatcher.ReadData | mojo/core/data_pipe_consumer_dispatcher.cc:102-195 | read, peek, discard and query refine one specification of result, data, count and new state |
| DataPipeDispatchers.ConsumerDispatcher.BeginReadData | mojo/core/data_pipe_consumer_dispatcher.cc:197-234 | refines the specification, and on success exposes a non-empty stretch inside the ring and the available bytes |
| DataPipeDispatchers.ConsumerDispatcher.EndReadData | mojo/core/data_pipe_consumer_dispatcher.cc:236-268 | accepts also a call that overlaps another, with the wrapped subtraction; says exactly when the count leaves its range, when it is reduced by the bytes taken, and when the CHECK fails |
| DataPipeDispatchers.ConsumerDispatcher.DrainControlPort | mojo/core/data_pipe_consumer_dispatcher.cc:569-611 | the do-while loop ends in the state of the recursive drain; too large a count counts as closure here |
| DataPipeDispatchers.ConsumerDispatcher.UpdateSignalsState | mojo/core/data_pipe_consumer_dispatcher.cc:555-615 | refines the specification of a look at the control port, with the new-data flag |
| DataPipeDispatchers.ConsumerDispatcher.BeginTransit | mojo/core/data_pipe_consumer_dispatcher.cc:338-344 | succeeds if and only if the end is neither in transit nor in a two-phase read, and changes nothing but the mark |
| DataPipeDispatchers.ConsumerDispatcher.EndSerialize | mojo/core/data_pipe_consumer_dispatcher.cc:303-336 | fails exactly without a region; what it writes out is accepted by Deserialize and makes the end it was, open and at rest; only the region is gone |
| DataPipeDispatchers.ConsumerDispatcher.Deserialize | mojo/core/data_pipe_consumer_dispatcher.cc:365-439 | yields nothing exactly when the state is out of range, else the end carried on with one look at its port |
| DataPipeProof.InvInRange | mojo/core/data_pipe_producer_dispatcher.cc:127-141 | the ranges of offsets and counts that the calls check in debug builds follow from the invariant |
| DataPipeProof.EndReadCheckIff | mojo/core/data_pipe_consumer_dispatcher.cc:244-256 | the CHECK of EndReadData fails exactly for an end that was closed in the middle of a two-phase read, and its DCHECK holds for the only such call under way |
| DataPipeFailures.EndAfterCloseFails | mojo/core/data_pipe_consumer_dispatcher.cc:236-256 | every pipe has a run from creation, with no overlapping End calls, in which that CHECK fails |
| DataPipeProof.WriteKeepsCore | mojo/core/data_pipe_producer_dispatcher.cc:101-162 | a plain write of any size keeps the stream, conservation and endpoint invariants across the wrap-around |
| DataPipeProof.EndWriteKeepsCore | mojo/core/data_pipe_producer_dispatcher.cc:194-227 | committing a two-phase write, when no other call is ending one, keeps the invariants: what user code stored becomes the next stretch of the stream |
| DataPipeProof.PokeKeepsCore | mojo/core/data_pipe_producer_dispatcher.cc:182-191 | user code storing a byte in the exposed buffer, at any moment, disturbs no unread byte |
| DataPipeProof.ReadKeepsCore | mojo/core/data_pipe_consumer_dispatcher.cc:102-195 | a read, peek, discard or query keeps the invariants |
| DataPipeProof.EndReadKeepsCore | mojo/core/data_pipe_consumer_dispatcher.cc:236-268 | ending a two-phase read, when no other call is ending one, keeps the invariants |
| DataPipeProof.SendWriteKeepsCore | mojo/core/data_pipe_producer_dispatcher.cc:476-483 | sending any one of the owed DATA_WAS_WRITTEN counts, in any order, keeps the invariants |
| DataPipeProof.SendReadKeepsCore | mojo/core/data_pipe_consumer_dispatcher.cc:530-537 | sending any one of the owed DATA_WAS_READ counts, in any order, keeps the invariants |
| DataPipeProof.UpdateProducerKeepsCore | mojo/core/data_pipe_producer_dispatcher.cc:485-564 | taking any number of arrived counts, learning of closure, or being called back after its own close, keeps the invariants |
| DataPipeProof.UpdateConsumerKeepsCore | mojo/core/data_pipe_consumer_dispatcher.cc:539-621 | taking any number of arrived counts, learning of closure, or being called back after its own close, keeps the invariants |
| DataPipeProof.ProducerAfterUpdate | mojo/core/data_pipe_producer_dispatcher.cc:485-564 | a look at the port adds exactly the counts that arrived, unless in transit or closed, learns of closure exactly when nothing more can come, and touches no other field |
| DataPipeProof.ConsumerAfterUpdate | mojo/core/data_pipe_consumer_dispatcher.cc:539-621 | the same for the consumer, with the new-data flag raised exactly by an arrival |
| DataPipeProof.ProducerTransitKeepsCore | mojo/core/data_pipe_producer_dispatcher.cc:262-399 | each stage of a transfer of the producer keeps the invariants, also when it completes with counts owed |
| DataPipeProof.ConsumerTransitKeepsCore | mojo/core/data_pipe_consumer_dispatcher.cc:303-439 | each stage of a transfer of the consumer keeps the invariants, also when it completes with counts owed |
| DataPipeProof.StepKeepsGrain | mojo/core/data_pipe_producer_dispatcher.cc:115-154 | every step keeps all counts and stream lengths multiples of the greatest common divisor of capacity and element size |
| DataPipeProof.StepKeepsInv | mojo/core/data_pipe_producer_dispatcher.cc:101-564 | every step of the two-party protocol keeps the whole invariant, unless it ends a two-phase operation while another such call is under way at that end |
| DataPipeTheorems.RunKeepsInv | mojo/core/core.cc:634-710 | the invariant holds in every state of every run of a pipe with exact sums whose End calls do not overlap |
| DataPipeTheorems.RunGrowsStreams | mojo/core/data_pipe_producer_dispatcher.cc:101-227 | what was committed or consumed is never taken back |
| DataPipeTheorems.StreamSafety | mojo/core/data_pipe_consumer_dispatcher.cc:102-268 | in every such run the bytes consumed are a prefix of the bytes committed, over any number of wrap-arounds; StreamSafeIff says that there are no other pipes and callers of which this is true |
| DataPipeTheorems.ReadReturnsStream | mojo/core/data_pipe_consumer_dispatcher.cc:162-179 | what a read or peek hands out is the next stretch of the committed stream, and not empty on success |
| DataPipeTheorems.TwoPhaseReadSeesStream | mojo/core/data_pipe_consumer_dispatcher.cc:197-234 | the buffer a two-phase read exposes is the next stretch of the committed stream |
| DataPipeTheorems.Accounting | mojo/core/data_pipe_consumer_dispatcher.cc:555-621 | free capacity, counts on their way, available bytes and lost counts always add up to the capacity, and the write offset is the read offset plus the unread bytes modulo the capacity |
| DataPipeTheorems.OnlyTransfersLose | mojo/core/data_pipe_producer_dispatcher.cc:305-313 | ports stay closed, and while both are open a step loses exactly the counts that an end owes when its transfer completes |
| DataPipeTheorems.ConservationIff | mojo/core/data_pipe_producer_dispatcher.cc:305-313 | while both ends are open, free capacity, counts on their way and available bytes add up to the capacity if and only if no end was transferred while it owed a count |
| DataPipeFailures.TransferCanLoseCount | mojo/core/data_pipe_producer_dispatcher.cc:305-313 | every pipe has a run from creation, with no overlapping End calls, after which both ends are open and the sum is below the capacity |
| DataPipeTheorems.DrainsNeverFail | mojo/core/data_pipe_producer_dispatcher.cc:541-547 | between peers that follow the code the "too many bytes" branches are never taken, however the counts arrive |
| DataPipeTheorems.SettledWriteFills | mojo/core/data_pipe_producer_dispatcher.cc:101-162 | once the counts have settled, a write accepts exactly what a bounded queue of the unread bytes leaves room for, with the right error otherwise |
| DataPipeTheorems.SettledReadTakes | mojo/core/data_pipe_consumer_dispatcher.cc:102-195 | once the counts have settled, a read returns exactly the oldest unread bytes asked for, with the right error otherwise |
| DataPipeCalls.ReadResults | mojo/core/data_pipe_consumer_dispatcher.cc:102-195 | when each result of ReadData is given, also with a closed peer; a read without success moves nothing |
| DataPipeCalls.PeekTakesNothing | mojo/core/data_pipe_consumer_dispatcher.cc:180-188 | a peek and a query leave the pipe as it was, but for the new-data flag |
| DataPipeCalls.QueryReports | mojo/core/data_pipe_consumer_dispatcher.cc:119-131 | a query reports the bytes available, which once counts have settled are all that is unread |
| DataPipeCalls.PeekForetells | mojo/core/data_pipe_consumer_dispatcher.cc:161-188 | a second peek shows the same bytes, and a read after a peek returns and consumes exactly what was shown |
| DataPipeCalls.PeekForetellsInRun | mojo/core/data_pipe_consumer_dispatcher.cc:161-188 | in every run what two reads or peeks return agrees as far as both go, if nothing was consumed between them, whatever arrived or was transferred |
| DataPipeCalls.ReadTakesWhatItShows | mojo/core/data_pipe_consumer_dispatcher.cc:133-188 | a read consumes exactly the bytes it returns and owes their count; a discard does the same to the pipe and returns nothing |
| DataPipeCalls.BeginReadResults | mojo/core/data_pipe_consumer_dispatcher.cc:197-234 | when each result is given; success exposes all that is available, or all up to the end of the ring |
| DataPipeCalls.EndReadResults | mojo/core/data_pipe_consumer_dispatcher.cc:236-268 | when each result is given; success consumes the first bytes of what was exposed, refusal ends the operation and consumes nothing |
| DataPipeCalls.WriteResults | mojo/core/data_pipe_producer_dispatcher.cc:101-162 | when each result of WriteData is given, also for no data at all; what is accepted is a prefix of the data as long as the room |
| DataPipeCalls.BeginWriteResults | mojo/core/data_pipe_producer_dispatcher.cc:164-192 | when each result is given; success exposes all the room, or all up to the end of the ring |
| DataPipeCalls.EndWriteResults | mojo/core/data_pipe_producer_dispatcher.cc:194-227 | when each result is given, with no wrap of the sum it compares |
| DataPipeCalls.EndWriteEffects | mojo/core/data_pipe_producer_dispatcher.cc:194-227 | success commits the first bytes of what was exposed, refusal ends the operation and commits nothing |
| DataPipeCalls.OnlyPokesChangeRing | mojo/core/data_pipe_producer_dispatcher.cc:182-191 | while a write is exposed no step of either end changes a byte of the ring but the stores of user code |
| DataPipeCalls.CommitsWhatWasStored | mojo/core/data_pipe_producer_dispatcher.cc:164-227 | in every run EndWriteData commits, at each position, what user code stored there last since BeginWriteData |
| DataPipeCalls.ClosedRefuses | mojo/core/data_pipe_producer_dispatcher.cc:440-455 | a closed end refuses every call but the end of a two-phase read; closing twice or in transit does nothing |
| DataPipeCalls.ConsumerLearnsOfClosure | mojo/core/data_pipe_consumer_dispatcher.cc:539-621 | after its producer closes, a consumer that takes all counts sent has them all and reports PEER_CLOSED |
| DataPipeCalls.ProducerLearnsOfClosure | mojo/core/data_pipe_producer_dispatcher.cc:485-564 | and so does a producer after its consumer closes |
| DataPipePorts.CountsInOrder | mojo/core/data_pipe_producer_dispatcher.cc:476-483 | in every run the counts sent towards an end are those it has taken, through any transfer, followed by those still on the port, in order |
| DataPipeSignals.ReadableMeansRead | mojo/core/data_pipe_consumer_dispatcher.cc:497-528 | READABLE is satisfied, at an end not in transit, exactly when BeginReadData and every read, peek or discard of whole elements succeed |
| DataPipeSignals.WritableMeansWrite | mojo/core/data_pipe_producer_dispatcher.cc:457-474 | WRITABLE is satisfied, at an end not in transit, exactly when BeginWriteData and every write of whole elements succeed |
| DataPipeSignals.SatisfiableSignals | mojo/core/data_pipe_consumer_dispatcher.cc:497-528 | READABLE is satisfiable exactly at an end with its region that is not exhausted, WRITABLE until the peer closes; and so on for the other signals |
| DataPipeSignals.NewDataMeansArrival | mojo/core/data_pipe_consumer_dispatcher.cc:502-506 | in every run NEW_DATA_READABLE is reported exactly when bytes have become available since the last call that looked |
| DataPipeTheorems.UnreadBytesStable | mojo/core/data_pipe_producer_dispatcher.cc:141-152 | a ring byte that stays unread is never changed, by any step of either end |
| DataPipeTheorems.ExposureLastsInRun | mojo/core/data_pipe_consumer_dispatcher.cc:197-268 | a two-phase read keeps its offset and length until EndReadData, through any other steps |
| DataPipeTheorems.TwoPhaseReadStable | mojo/core/data_pipe_consumer_dispatcher.cc:197-268 | from BeginReadData until EndReadData no byte of the exposed buffer changes |
| DataPipeTheorems.WriteExposureDisjoint | mojo/core/data_pipe_producer_dispatcher.cc:164-187 | the buffer a two-phase write exposes holds no byte the consumer may still read |
| DataPipeTheorems.TransitExcludesTwoPhase | mojo/core/data_pipe_producer_dispatcher.cc:297-303 | no reachable end is both in transit and in a two-phase operation |
| DataPipeTransfers.DeserializeNeverRejects | mojo/core/data_pipe_producer_dispatcher.cc:339-344 | the range checks of Deserialize accept whatever an end serialized in such a run |
| DataPipeTransfers.MoveProducerInvisible | mojo/core/data_pipe_producer_dispatcher.cc:262-399 | a transferred producer is the producer it was after one look at its port, having lost the counts it owed; the pipe is otherwise the same |
| DataPipeTransfers.MoveConsumerInvisible | mojo/core/data_pipe_consumer_dispatcher.cc:303-439 | the same for the consumer, which also reports its unread bytes as new |
| DataPipeTransfers.CancelRestoresIff | mojo/core/data_pipe_producer_dispatcher.cc:297-322 | a producer whose transit is cancelled, whatever happened since it began, is as it was but for what it learned of its peer, and has its region if and only if it was not serialized in between |
| DataPipeTransfers.CancelConsumerRestoresIff | mojo/core/data_pipe_consumer_dispatcher.cc:338-361 | the same for the consumer, whose cancel ends with a look at the port |
| DataPipeTransfers.StrippedForever | mojo/core/data_pipe_producer_dispatcher.cc:262-295 | an end without a region that is not on its way anywhere stays so in every run |
| DataPipeTransfers.StrippedProducerRefuses | mojo/core/data_pipe_producer_dispatcher.cc:105-107 | a producer cancelled after it was serialized refuses every write from then on |
| DataPipeTransfers.StrippedConsumerRefuses | mojo/core/data_pipe_consumer_dispatcher.cc:105-110 | a consumer cancelled after it was serialized refuses every read from then on |
| DataPipeTheorems.ClosureSeenLast | mojo/core/data_pipe_consumer_dispatcher.cc:497-528 | an open consumer that knows of closure has counted every byte whose notification was sent before it |
| DataPipeTheorems.ClosureIsFinalInRun | mojo/core/data_pipe_consumer_dispatcher.cc:555-621 | knowledge of closure, and an exhausted consumer, stay so for the rest of the run |
| DataPipeTheorems.UnsatisfiableForever | mojo/core/data_pipe_producer_dispatcher.cc:457-474 | once WRITABLE stops being satisfiable it never becomes so again, through any transfer; so does READABLE at an end that has its region, and at one that gave its region away or was closed until a consumer arrives at the end of a transfer |
| DataPipeElements.RunKeepsElements | mojo/core/data_pipe_producer_dispatcher.cc:115-116 | if the capacity is a multiple of the element size, every count and stream length in every run is too |
| DataPipeElements.SplitElement | mojo/core/data_pipe_producer_dispatcher.cc:115-154 | otherwise one partial write splits an element: a concrete run |
| DataPipeElements.WholeElementsIff | mojo/core/core.cc:649-652 | every run moves only whole elements if and only if the capacity is a multiple of the element size |
| DataPipeLimits.ReaderStrays | mojo/core/data_pipe_consumer_dispatcher.cc:182-184 | if reading one element from a reachable offset wraps, a run reads the next byte from the wrong place |
| DataPipeLimits.WriterStrays | mojo/core/data_pipe_producer_dispatcher.cc:152-157 | if filling the pipe wraps and reading one element does not, a run stores bytes over unread ones |
| DataPipeLimits.HugeElementsStray | mojo/core/data_pipe_consumer_dispatcher.cc:182-184 | with elements of at least 2^31 bytes, short of the capacity, the second read strays |
| DataPipeLimits.InexactIsBroken | mojo/core/data_pipe_producer_dispatcher.cc:153-154 | every pipe whose last offset and largest count reach 2^32 has a run of careful callers that reads what was not written |
| DataPipeOverlap.OverlappingReadsBreak | mojo/core/data_pipe_consumer_dispatcher.cc:249-263 | on every pipe, two EndReadData calls that overlap consume an element twice |
| DataPipeOverlap.OverlappingWritesBreak | mojo/core/data_pipe_producer_dispatcher.cc:211-221 | on every pipe, the late return of one of two overlapping EndWriteData calls lets user code spoil bytes that were committed |
| DataPipeOverlap.StreamSafeIff | mojo/core/core.cc:641-652 | every run of a pipe, its callers keeping to a discipline, is stream-safe if and only if the last offset and the largest count stay below 2^32 and the discipline lets no two calls that end a write, or a read, overlap |
| SharedRing.BytesInUse | mojo/core/channel_linux.cc:559-568 | the bytes-in-use formula counts the stream positions between the ends, wrapped or not |
| SharedRing.WriteIndexIsSlot | mojo/core/channel_linux.cc:434-442 | the one or two copies of a write put each byte at its stream position modulo the length |
| SharedRing.ReadIndexIsSlot | mojo/core/channel_linux.cc:483-498 | the one or two copies of a read take each byte from its stream position modulo the length |
| SharedRingProof.StepKeepsInv | mojo/core/channel_linux.cc:397-519 | every atomic access, copied byte, lock operation and wake-up keeps the ring invariant, for any number of writers and callbacks |
| SharedRingTheorems.RunKeepsInv | mojo/core/channel_linux.cc:397-519 | the invariant holds in every state of every run |
| SharedRingTheorems.LinearizesToQueue | mojo/core/channel_linux.cc:397-519 | bytes come out in the order published, and each successful read returns a run of whole messages |
| SharedRingTheorems.NeverFull | mojo/core/channel_linux.cc:418-427 | the ring is never full, so equal positions mean empty, and the bytes-in-use count is exact |
| SharedRingTheorems.NeverCorrupt | mojo/core/channel_linux.cc:539-557 | no thread ever returns kControlCorruption, and none inside is stuck |
| SharedRingTheorems.MutualExclusion | mojo/core/channel_linux.cc:570-575 | at most one writer and one reader hold their locks |
| SharedRingTheorems.WriteRegionDisjoint | mojo/core/channel_linux.cc:423-442 | no byte a writer copies to is unread or being read |
| SharedRingTheorems.NoLostWakeup | mojo/core/channel_linux.cc:777-826 | if the ring is not empty and no callback holds the read lock, the eventfd is set or a writer that has published is about to set it |
| SharedRingTheorems.WriteAdmittedIff | mojo/core/channel_linux.cc:409-427 | a write under the lock goes through exactly when message and unread bytes leave a byte free, else it fails cleanly |
| SharedRingTheorems.DrainTakesEverything | mojo/core/channel_linux.cc:458-475 | the drain loop ends exactly when nothing published is unread, and otherwise takes all of it |
| SharedRingCalls.TryWriteAlone | mojo/core/channel_linux.cc:397-455 | from any ring that keeps the invariant, as every reachable one does, a whole TryWrite and Notify ends: with the message published and the eventfd set if the lock was free and message and unread bytes leave a byte, with the ring as it was otherwise |
| SharedRingCalls.WritePublishesIff | mojo/core/channel_linux.cc:397-455 | however such a write ends it has published its message exactly under that condition and changed nothing else |
| SharedRingCalls.CallbackAlone | mojo/core/channel_linux.cc:777-826 | a whole callback ends with everything published read out in one batch and the eventfd clear, or turned away by the read lock |
| SharedRingCalls.CallbackDelivers | mojo/core/channel_linux.cc:777-826 | that is the only way it can end |
| SharedRingCalls.WrittenIsDelivered | mojo/core/channel_linux.cc:397-455 | a message written to a ring with room and then read is delivered behind all the unread ones |
| SharedDelivery.DispatchBatch | mojo/core/channel_linux.cc:796-823 | on a batch of whole handle-free messages the dispatch loop succeeds, ends exactly at the end and dispatches those messages in order |
| SharedDelivery.WholeMessagesThroughSharedMemory | mojo/core/channel_linux.cc:777-826 | in every run each batch read is the encoding of whole handle-free messages in order, as the dispatch loop needs, and parses with nothing left over |
| Framing.TryDispatch | mojo/core/channel.cc:963-1082 | a dispatched message has 8 to all of the buffered bytes and the first of the incoming handles |
| Framing.VerdictStable | mojo/core/channel.cc:963-1082 | a verdict once reached is not changed by more data or handles |
| Framing.Verdicts | mojo/core/channel.cc:963-1082 | which sizes, handle counts and types give an error, ask for more data or for handles, and what exactly is dispatched otherwise |
| Framing.ParseSplit | mojo/core/channel.cc:926-961 | parsing a stream in two goes is parsing it in one, also when it is malformed |
| Framing.DispatchEncoded | mojo/core/channel.cc:511-587 | dispatch returns exactly the message that was encoded, whatever follows it |
| Framing.ParseEncoded | mojo/core/channel.cc:926-1082 | a stream of encoded messages parses back into them with nothing left over |
| Framing.PrefixDelivered | mojo/core/channel.cc:926-1082 | any prefix of the bytes and of the handles parses without error into a prefix of the messages |
| Framing.DispatchForIpcz | mojo/core/channel.cc:968-1001 | a channel for ipcz hands on exactly the payload behind the whole header, also one longer than it knows, with its handles |
| Framing.ParseForIpcz | mojo/core/channel.cc:926-1001 | a stream of ipcz messages parses back into them with nothing left over |
| Receive.ReadBuffer.Reserve | mojo/core/channel.cc:797-808 | growing keeps the occupied bytes and makes the room asked for |
| Receive.ReadBuffer.Claim | mojo/core/channel.cc:810-816 | the contents grow by exactly the bytes received |
| Receive.ReadBuffer.Discard | mojo/core/channel.cc:818-849 | the contents lose exactly the first bytes, through move and shrink, and the bounds on size and discarded bytes hold |
| Receive.ReadBuffer.Realign | mojo/core/channel.cc:851-861 | the contents stay and start at offset zero |
| Receive.ReceivingChannel.TryDispatchMessage | mojo/core/channel.cc:963-1082 | called only on an 8-byte aligned start; the verdict of the pure dispatch, with the message handed on and its handles taken in order |
| Receive.ReceivingChannel.DispatchFirst | mojo/core/channel.cc:937-951 | one turn of the loop: realigned if need be, the first message is dispatched and exactly its bytes and handles are gone |
| Receive.ReceivingChannel.DispatchBuffered | mojo/core/channel.cc:933-960 | the loop dispatches the one-shot parse of the buffer, ends, and gives the right size hint |
| Receive.ReceivingChannel.OnReadComplete | mojo/core/channel.cc:926-961 | after any read the messages dispatched are the parse of what was buffered and what arrived; the hint returned is what the message begun still lacks, else 0 or the default |
| Receive.ReceivingChannel.OnSocketReadable | mojo/core/channel_posix.cc:270-317 | one turn of the read loop refines the abstract receiver |
| Receive.ChunkingIndependence | mojo/core/channel.cc:926-1082 | however bytes and handles are split into reads, what has been dispatched after each is the one-shot parse of everything received |
| Receive.HintCompletesMessage | mojo/core/channel.cc:1011-1016 | the size hint returned is exact: that many bytes complete the message, fewer do not |
| WriteQueue.SendConserves | mojo/core/channel_posix.cc:334-424 | a short or full write of the first message, with or without its handles, keeps wire plus unsent tails equal to everything accepted, and every handle beside bytes of its own message |
| WriteQueue.WritevConserves | mojo/core/channel_posix.cc:489-550 | so does the advance after a partial writev |
| WriteQueue.AcceptConserves | mojo/core/channel_posix.cc:148-174 | accepting a message extends the total and the queue alike |
| PosixWrite.PosixChannel.Write | mojo/core/channel_posix.cc:148-174 | until something is dropped, wire plus queue is everything accepted in order with each handle sent once beside its own message; a queue waits only on a blocked socket and, once started, is waited for; writes are rejected only after an error; the wire stays a prefix unless the flush at the start failed |
| PosixWrite.PosixChannel.OnFileCanWrite | mojo/core/channel_posix.cc:319-330 | keeps the same, before and after an error, asks the socket at least once if anything is queued, and after a write error sends nothing |
| PosixWrite.PosixChannel.StartOnIOThread | mojo/core/channel_posix.cc:210-223 | keeps the same although it ignores the result of its flush; that fails only with something queued, and for any queue there are answers, given message by message, after which the queue is empty, something of it was dropped and the first missing byte is known |
| PosixWrite.StartAndUse | mojo/core/channel_posix.cc:210-223 | a channel started with nothing queued keeps to the stream of what it accepted, for all answers of the socket and all later calls; one started with anything queued leaves it for the answers and the call of Spoils, with either flush |
| PosixWrite.SpoilableIff | mojo/core/channel_posix.cc:210-223 | there are such answers and such a call for every queue but the empty one |
| PosixWrite.WriteBeforeStart | mojo/core/channel_posix.cc:148-223 | a new channel on a blocked socket gets there with one message written before the start and one after it |
| PosixWrite.PosixChannel.WriteNoLock | mojo/core/channel_posix.cc:334-424 | for every pattern of answers the message goes out in pieces, its unsent tail returns to the front of the queue, or it is dropped on a socket error, with exact outcomes for the first answer |
| PosixWrite.PosixChannel.FlushOutgoingMessages | mojo/core/channel_posix.cc:426-461 | either flush meets the one specification |
| PosixWrite.PosixChannel.FlushOneByOne | mojo/core/channel_posix.cc:426-461 | the plain flush conserves bytes, handles and order, with a requeued message ahead of those behind it |
| PosixWrite.PosixChannel.FlushWithWritev | mojo/core/channel_posix.cc:558-588 | the writev flush meets the same specification as the plain one |
| PosixWrite.PosixChannel.FlushMessagesAlone | mojo/core/channel_posix.cc:563-577 | messages with handles, and single ones, go out alone in order |
| PosixWrite.PosixChannel.Gather | mojo/core/channel_posix.cc:493-512 | the iov list holds the unsent tails of a run of queued messages without handles |
| PosixWrite.PosixChannel.PopWritten | mojo/core/channel_posix.cc:526-546 | the bytes written pop the completed messages and advance the one they cut |
| PosixWrite.PosixChannel.WritevOnce | mojo/core/channel_posix.cc:515-546 | one writev conserves bytes and order: a partial one leaves an iov list that matches the queue again, any other changes no queue |
| PosixWrite.PosixChannel.WriteOutgoingMessagesWithWritev | mojo/core/channel_posix.cc:489-550 | repeated writev calls conserve bytes and order |
| Delivery.ReceiverSeesPrefix | mojo/core/channel_posix.cc:148-174 | as long as the wire is a prefix of what was accepted, for any chunking of any part of it, the receiver has dispatched a prefix of the accepted messages, each with its own handles |
| Delivery.ChannelDelivers | mojo/core/channel_posix.cc:148-174 | that is so for every channel, errors or not, whose flush at the start did not fail |
| Delivery.ChannelDeliversComplete | mojo/core/channel_posix.cc:148-174 | and a channel that dropped nothing has a receiver of its wire that has dispatched exactly the complete messages |
| Delivery.HandlesArriveInTime | mojo/core/channel_posix.cc:194-208 | once the bytes of a message have arrived so have its handles |
| Delivery.ExactlyCompleteMessagesDelivered | mojo/core/channel.cc:926-1082 | a receiver of the first k bytes and the handles beside them has dispatched exactly the messages that lie within them |
| UpgradeProof.MoveKeepsInv | mojo/core/channel_linux.cc:651-775 | every step of either side of the handshake keeps the two-sided invariant |
| UpgradeTheorems.SharedWriterHasReader | mojo/core/channel_linux.cc:746-758 | in every run a side that writes to shared memory has a peer whose buffer and notifier are over the very memory and event descriptor it created |
| UpgradeTheorems.PublishedIsReadable | mojo/core/channel_linux.cc:578-649 | nothing lies in a ring, no write is under way, no accept is in flight and no event is raised unless the peer has that ring installed |
| UpgradeTheorems.OffersAtMostOnce | mojo/core/channel_linux.cc:651-659 | each side offers at most once and an offer is handled at most once, whichever threads offer |
| UpgradeTheorems.ReadReadyFindsItsBuffer | mojo/core/channel_linux.cc:777-779 | the CHECK at the head of SharedMemReadReady always holds |
| UpgradeTheorems.RejectedStaysOnSocket | mojo/core/channel_linux.cc:761-768 | from a reject on, every write is put on the socket at once and the ring, if any, only shrinks |
| UpgradeTheorems.ValidPagesAreClean | mojo/core/channel_linux.cc:661-775 | with at most 128 pages no unexpected message arrives, no missing buffer or notifier is used before shutdown, and a rejected side has no write under way |
| UpgradeTheorems.CrashedIff | mojo/core/channel_linux.cc:621-649 | in every run with at most 128 pages a side uses a missing buffer or notifier if and only if a write of it reached its Notify after it was shut down |
| UpgradeTheorems.ShutDownCanCrash | mojo/core/channel_linux.cc:833-839 | for every valid number of pages a run gets there: offered, accepted, written, shut down, notified |
| UpgradeTheorems.UnexpectedAcceptIff | mojo/core/channel_linux.cc:704-709 | an offer can bring its sender into the branch for an unexpected message if and only if it has more than 128 pages |
| UpgradeDelivery.MessagesConserved | mojo/core/channel_linux.cc:621-649 | in every run each message is as often on the socket, in the ring, with a writing thread, with the peer or lost as it was written |
| UpgradeDelivery.NothingLost | mojo/core/channel_linux.cc:621-649 | with at most 128 pages none is lost |
| UpgradeDelivery.RingsStayAwake | mojo/core/channel_linux.cc:648-648 | in every run, if a ring is not empty its event is set, or a thread is about to set it, or has crashed there |
| UpgradeAnswers.OfferIsMade | mojo/core/channel_linux.cc:845-910 | an offer goes out exactly if writes are not rejected and the kernel gave everything, and names its own empty memory |
| UpgradeAnswers.OfferIsAnswered | mojo/core/channel_linux.cc:661-735 | every offer taken is answered: accepted exactly if sealed and mapped, with the buffer installed and an offer in turn; else rejected; a bad number of pages adds a reject |
| UpgradeAnswers.ReplyTakesEffect | mojo/core/channel_linux.cc:746-768 | a reply switches shared writing on or off whichever way it came |
| UpgradeAnswers.EmptyRingClearsEvent | mojo/core/channel_linux.cc:777-826 | a callback that finds the ring empty only clears the event |
| UpgradeAnswers.WriteTakesItsPath | mojo/core/channel_linux.cc:621-649 | a write goes through the ring, with the event set, exactly if the side was accepted, it has no handles and it fits; else to the socket |
| UpgradeAnswers.ErrorStaysOnSocket | mojo/core/channel_linux.cc:828-839 | after a write error or a shutdown no write enters shared memory again |
| UpgradeAnswers.OffersOnlyIfEnabled | mojo/core/channel_linux.cc:651-659 | in every run only a channel with upgrades enabled that accepts handles offers |
| HandleTableSpec.CancelUndoesBegin | mojo/core/handle_table.cc:174-219 | cancelling what BeginTransit marked restores every busy flag and every dispatcher, wherever it stopped |
| HandleTableSpec.AcquireIsAtomic | mojo/core/core.cc:225-235 | a failed acquisition of any handles, unknown, busy or repeated, changes nothing (and cancels the vector it was given) |
| HandleTableSpec.AddEachCounts | mojo/core/handle_table.cc:120-150 | a batch that has room gets increasing valid handles, zero exactly for missing dispatchers; the counter does not wrap before the last |
| HandleTableSpec.AddEachRegisters | mojo/core/handle_table.cc:120-150 | each dispatcher of the batch gets an entry and no other entry changes |
| HandleTableRuns.AcquireSucceedsIff | mojo/core/handle_table.cc:174-197 | an acquisition succeeds exactly when the handles are different and each is known, idle and not that of a data pipe in a two-phase operation; it returns each with its dispatcher, in order, all busy |
| HandleTableRuns.AcquireStatus | mojo/core/handle_table.cc:174-197 | a failed acquisition says InvalidArgument or Busy by the first handle that is unknown, or is taken, pinned or repeated |
| HandleTableRuns.StepKeepsInv | mojo/core/handle_table.cc:108-219 | every operation keeps names, entries and ownership in order |
| HandleTableRuns.BusyIffInTransit | mojo/core/handle_table.cc:174-219 | in every reachable state a handle is busy exactly while its dispatcher is in transit, and nothing in transit is closed |
| HandleTableRuns.ReleaseFindsItsHandles | mojo/core/handle_table.cc:199-219 | the debug checks of both releases hold: what a message holds is present, busy and held once |
| HandleTableRuns.NeverReissued | mojo/core/handle_table.cc:108-150 | no handle is given out twice in a run, by single adds or within and across batches, whatever is closed in between |
| HandleTableLives.OpenIffRegistered | mojo/core/core.cc:264-275 | in every run a dispatcher is open exactly while a handle names it, but for those sent of the base class or added to a table out of handles |
| HandleTableLives.AcquiresAllOrNothing | mojo/core/core.cc:225-235 | a message acquires all of its handles, in order and busy, or nothing changes |
| HandleTableLives.ReleaseFreesHandles | mojo/core/handle_table.cc:199-219 | a message sent takes exactly its handles out of the table, one cancelled makes exactly them idle |
| HandleTableLives.ClosesIdleHandle | mojo/core/core.cc:264-275 | closing removes an idle handle and closes its dispatcher, and does nothing else |
| HandleTableLives.PinnedStays | mojo/core/data_pipe_producer_dispatcher.cc:297-303 | a data pipe in a two-phase operation cannot be acquired, and can be again when it ends |
| HandleTableLives.ProducersTravel | mojo/core/data_pipe_producer_dispatcher.cc:297-325 | the table and the producer agree on when it may travel and on what beginning and completing do |
| HandleTableLives.ConsumersTravel | mojo/core/data_pipe_consumer_dispatcher.cc:338-363 | and so do the table and the consumer |
| HandleTables.HandleTable.AddDispatcher | mojo/core/handle_table.cc:108-118 | the new table and handle are those of the map with fresh names; the emplace always inserts |
| HandleTables.HandleTable.AddDispatchersFromTransit | mojo/core/handle_table.cc:120-150 | all or nothing: succeeds exactly when the counter has not wrapped and leaves a handle for each place of the batch, and changes nothing otherwise |
| HandleTables.HandleTable.GetDispatcher | mojo/core/handle_table.cc:51-63 | the cached lookup equals a plain lookup in the map |
| HandleTables.HandleTable.Remove | mojo/core/handle_table.cc:71-93 | removes exactly under the condition asked for and drops a cached entry that goes |
| HandleTables.HandleTable.CloseHandle | mojo/core/core.cc:264-275 | closes the dispatcher of an idle handle and removes that handle alone; refuses a busy or unknown one, each with its status, without change |
| HandleTables.HandleTable.BeginTransit | mojo/core/handle_table.cc:174-197 | the loop meets its recursive specification: flags, dispatchers, vector and status |
| HandleTables.HandleTable.CancelTransit | mojo/core/handle_table.cc:211-219 | the loop meets its specification |
| HandleTables.HandleTable.CompleteTransitAndClose | mojo/core/handle_table.cc:199-209 | the loop meets its specification |
| HandleTables.HandleTable.AcquireDispatchersForTransit | mojo/core/core.cc:225-235 | on failure the table is as if the vector given had been cancelled, which from an empty one is no change |
| MachQueue.MachChannel.Write | mojo/core/channel_mac.cc:82-104 | every accepted message is sent, destroyed after a failure, in the send buffer or waiting, in that order; one send is tried once the handshake is done; writes are refused only after an error or shutdown |
| MachQueue.MachChannel.SendPendingMessages | mojo/core/channel_mac.cc:331-356 | keeps that order, enters SendMessage only with the buffer empty, and leaves messages waiting only behind an occupied buffer |
| MachQueue.MachChannel.SendMessage | mojo/core/channel_mac.cc:358-452 | requires an empty buffer; sends the message, keeps it in the buffer or destroys it after an error |
| MachQueue.MachChannel.MachMessageSend | mojo/core/channel_mac.cc:454-494 | after a time-out the message stays in the buffer with exactly one retry posted |
| MachQueue.MachChannel.RetrySendPendingMessages | mojo/core/channel_mac.cc:497-501 | consumes its retry, tries again and keeps the same |
| MachQueue.MachChannel.FinishHandshake | mojo/core/channel_mac.cc:285-328 | releases what was queued before the handshake, in order |
| MachQueue.MachChannel.RejectWrites | mojo/core/channel_mac.cc:690-694 | keeps all accepted messages accounted for |
| MachQueue.MachChannel.SentInOrder | mojo/core/channel_mac.cc:331-356 | the kernel has a prefix of the accepted messages; while the destination lives and nothing failed, sent, buffer and queue are all of them, and anything unsent has exactly one retry posted |
| MessageFormat.MessageBuffer.TryExtend | mojo/core/channel.cc:595-624 | either kind grows or shrinks its payload in place, keeping header and written bytes; refuses exactly when a trivial message is out of space |
| MessageFormat.Extend | mojo/core/channel.cc:437-453 | the upgrade to a complex message keeps type, size and every written byte |
| MessageFormat.Create | mojo/core/channel.cc:262-280 | gives a trivial message exactly when the flag is set and capacity and header fit |
| MessageFormat.Build | mojo/core/channel.cc:262-280 | with trivial messages on or off, any legal sequence of writes and extensions yields the same draft, and once the payload is written the same bytes |
| MessageFormat.CarriesAgree | mojo/core/channel.cc:689-735 | two messages that carry the same draft agree on the header and on every byte the caller wrote |
| MessageFormat.CarriesComplete | mojo/core/channel.cc:511-587 | a fully written message is the encoding of its type and payload |
| MessageFormat.ExtraHeaderRebuilt | mojo/core/channel.cc:354-377 | any extra header size accepted on the Windows, Fuchsia or Apple layout is rebuilt exactly |
| MessageFormat.RebuildIsExact | mojo/core/channel.cc:307-414 | on every layout the copying of Deserialize rebuilds an accepted message byte for byte but for header padding, which is cleared |
| MessageFormat.DeserializedOnWindows | mojo/core/channel.cc:415-433 | on Windows a pseudo-handle makes the message refused; otherwise it comes back but for the padding and the entries beyond its last handle, which are cleared |
| MessageFormat.DeserializedElsewhere | mojo/core/channel.cc:307-433 | on the other layouts, and without room for handles, nothing is changed after the copying |
| MessageFormat.EntriesRoundTrip | mojo/core/channel.cc:658-664 | handle entries read from the extra header and written back are the same bytes |
| MessageFormat.RebuildEncoded | mojo/core/channel.cc:307-433 | a message without handles survives on every layout with the same payload and bytes |
| MessageFormat.BuiltIsAcceptedIff | mojo/core/channel.cc:307-399 | a message built with handles and room for more is accepted exactly when handles are, where they have an extra header, and not on Apple with room for 63 or 64; it then has its own shape and is rebuilt byte for byte |

## Left out

- Ports, node controller, user messages and watchers: only the FIFO order of a port is used.
- Calls to watchers: they change no field of the model.
- The window between closing an end and closing its port, and a port that is gone before the transfer completes: each is one step.
- What a data pipe does once a count has left the range of the ring: the code then copies past the ring.
- Order between the socket and the shared-memory path of one channel: `Write` may use either, and nothing is promised.
- Malformed upgrade offers (version, number of handles, payload size): a peer that follows the code sends none.
- iOS HANDLES_SENT messages in `channel_posix.cc`: they put extra control messages into the queue.
- Duplication of handles from another process on Windows, and Mach port types in the extra header: `Deserialized` takes the handles' new values as given.
- `channel_win.cc` and `channel_fuchsia.cc`: their queues would only add easy members.
- ipcz transports beyond their header in `Framing.TryDispatch`: thin forwarding.
- Termination of the writev flush on a socket that blocks for ever: the loop at `mojo/core/channel_posix.cc:586` does not end either.
- Histograms, tracing, memory dumps, fuzzing entry points, option validation, brokers and invitations: no protocol of their own.
- Framing.TryDispatch: does not model the deferral of handles, which no POSIX channel uses.
