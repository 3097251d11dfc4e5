# Verification of the machinery under the media bridge

This project models hand-written parts of the Symphony Media Bridge in Dafny and proves what they
promise. `dafny verify dfyconfig.toml` checks all of it.

**Lock-free concurrency and scheduling**, as state machines over the single atomic steps of each
thread, with an inductive invariant over every interleaving and history variables for what was pushed,
claimed and returned:

- `MpmcQueue.dfy`: the ring of versioned cells with two compare-and-swap cursors. Every interleaving
  refines a bounded FIFO queue.
- `MpscQueue.dfy`: the variable-size ring allocator with padding entries and zeroed free memory, at
  the granularity of its 8-byte words.
- `WaitFreeStack.dfy`, `VersionedPointer.dfy`, `PoolAllocator.dfy`: the stack with push versions, the
  64-bit packing of pointer and version, and the allocator over eight stacks.
- `JobQueue.dfy`: serial execution on a thread pool, with failing posts and the recovery flag.

**Storage against something simple**

- `PoolBuffer.dfy`: chunks whose addresses are stored in the bytes of the first chunk, against a flat
  byte sequence.
- `SpscAudioBuffer.dfy`: the two-thread sample ring with replay memory, against an endless stream.
- `MpmcHashmap.dfy`: the hash index and the map over it, used by one thread, against a map keyed by the
  40-bit hash.
- `JitterBufferList.dfy`: the linked list over a fixed item store, against a stable sort.

**Media control**

- `RateController.dfy` and `RandomAccessBacklog.dfy`: marking of sent packets by receiver reports
  (section 6.4 of RFC 3550), the queue model, and the bounds of estimate, pacing and padding.
- `SendTimeDial.dfy`: the 24-bit fixed-point clock conversion.
- `RtcpNack.dfy`: the generic NACK writer and reader (section 6.2.1 of RFC 4585).

**Algorithms**

- `MatrixLU.dfy`: pivoted LU decomposition and its solver, over the reals.
- `Crc32.dfy`: the table-driven CRC, against bit-by-bit polynomial division.

`Arithmetic.dfy` and `Wrappers.dfy` hold shared helpers.

## Assumptions

- Atomics are sequentially consistent. Weak exchanges may fail at any time.
- Lap counters of `MpmcQueue`, push versions of `WaitFreeStack` and the true job count of `JobQueue`
  (below 2^31 in size) do not wrap.
- Sums of sizes in `MpscQueue`, `SpscAudioBuffer` and the backlog of `RateController` fit their 32-bit
  types. The queue model of `RateController` is exact: 16-bit sizes, 32-bit queue, 64-bit products.
- `Matrix` elements and the doubles of `RateController` are real numbers.
- Elements handed over by `PoolAllocator` in `PoolBuffer` may be refused at any moment.

## Where the code does not meet a promise

- `JobQueue`: a job that finishes on a later step than its first is never subtracted from the counter.
  The queue then reposts itself for ever. `RepostsWhenDrainedIff` is the exact condition, and
  `LateFinishHappens` a run that shows it. Mutual exclusion is not affected.
- `SpscAudioBuffer::appendSilence`: silence that is cut short and passes the end of the ring moves the
  write head too far. `HeadStaysRightIff` is the exact condition over runs, `FinishedHead` says where the
  head goes, and `CutSilenceLeavesRing` is a run that leaves it outside the ring.
- `SendTimeDial`: a timestamp before the reference moves the reference to another line, 9.7 s away.
  `StaysOnLineIff` is the exact condition for the reference and `ResultIsNearIff` for the converted time;
  `EarlyTimestampShiftsLine` says where the line goes, and `ClockStepsBack` is a run that shows it.
- `JitterBufferList`: a packet exactly half a cycle from the last one can find no place; its item is
  then counted but in no list. `NoPlaceIff` is the exact condition, `HalfCycleLosesItem` an example.
- `RtcpNackBuilder::build`: building twice gives a packet whose length field is too large. The contract
  of `Build` says exactly when, and `BuildTwice` shows it.
- `MpscQueue::allocate`: sizes above 2^32 - 8 round to zero (`AlignUpIsNextMultiple`).
- `RateController`, probe recognition: an item of 65536 bytes or more, such as merged padding, is queued
  modulo 65536 but compared in full, and a time that goes back empties the queue. `IsProbe` is exact for
  every backlog, `RegularIsExact` says for which trains that is the promised test, `OversizedPassesIff`
  and `StepBackFails` what happens to the others, `BigPaddingIsMissed` and `OneNanosecondBack` are inputs.
- `RateController`, choice of a probe: rates are compared by 32-bit products that wrap.
  `SeemsFasterIff` is the exact condition, `FasterProbeIsDropped` an input.
- `RateController`, reset of the probe interval: the function of that name sets the probe duration.
  `ResetRestoresIntervalIff` is the exact condition, `ResetLeavesDoubledInterval` an input.

## Model

| member | source | states |
|---|---|---|
| `MpmcQueue.IndexTransformSplits` | concurrency/MpmcQueue.h:65-77 | position q*lines + r is placed at entry q of cache line r, inside the ring, so neighbours in order are on different lines |
| `MpmcQueue.IndexTransformInjective` | concurrency/MpmcQueue.h:65-77 | two positions placed on the same cell are the same position |
| `MpmcQueue.LayoutIsPermutation` | concurrency/MpmcQueue.h:65-114 | for every entry count per cache line and every requested capacity, the rounded capacity is large enough and the placement is a permutation of the cells, also for the single null cell of capacity zero |
| `MpmcQueue.NextPositionIsNext` | concurrency/MpmcQueue.h:78-91 | nextPosition is the immediate successor in (version, position) order: what is before it is exactly what is at most the old index |
| `MpmcQueue.RefusalIsJustified` | concurrency/MpmcQueue.h:270-280 | whenever the writable test fails at the write cursor, the ring is full or a slow reader is in that cell; whenever the readable test fails at the read cursor, the ring is empty or a slow writer is in that cell |
| `MpmcQueue.StepKeepsInv` | concurrency/MpmcQueue.h:138-201 | every step of every thread (test, reload, successful or failed exchange, construct, take, destroy, state store) keeps the invariant tying cell versions, cursors, tickets and thread positions together |
| `MpmcQueue.RunKeepsInv` | concurrency/MpmcQueue.h:93-201 | the invariant holds in every state of every interleaving of any number of threads, for every capacity |
| `MpmcQueue.StepRefinesQueue` | concurrency/MpmcQueue.h:138-201 | a successful write exchange appends the object to the abstract FIFO queue and there was room; a successful read exchange removes the oldest object, which is the one the ticket was pushed with; every other step leaves the queue alone |
| `MpmcQueue.RunRefinesQueue` | concurrency/MpmcQueue.h:138-201 | first in, first out over every run: after any number of steps, the objects claimed for writing, in order, are those claimed for reading followed by what the queue holds, so the latter are a prefix of the former; the queue never holds more than its capacity |
| `MpmcQueue.SizeIsExact` | concurrency/MpmcQueue.h:236-251 | size() on a consistent pair of cursors is the exact number of queued objects and never exceeds the capacity |
| `MpmcQueue.ExclusiveAccess` | concurrency/MpmcQueue.h:154-201 | in every state of every run no two threads that may touch cell data are at the same cell, writers and readers alike |
| `MpmcQueue.TicketsAreClaimedOnce` | concurrency/MpmcQueue.h:154-201 | every ticket is claimed by one writer and one reader, and read only after it was claimed for writing |
| `MpmcQueue.PopReturnsWhatWasPushed` | concurrency/MpmcQueue.h:138-201 | every returned object is the one pushed under the same ticket; a claimed ticket is returned or still with its reader; a popper finds exactly that object in the cell |
| `MpmcQueue.RefusalsAreGenuine` | concurrency/MpmcQueue.h:141-152 | however a call ends, at any step of any run: by the store that publishes or frees its cell, or after a test of its own, with no later step of its thread, at a moment when the ring really was full (empty) or the cell was still in use |
| `MpmcQueue.CallsCompleteOnceOrAreRefused` | concurrency/MpmcQueue.h:138-201 | every call that returns has claimed exactly one cell, a push to put its own object and a pop to take the object it returns, or it has claimed none and was refused for a genuine reason |
| `MpmcQueue.NoThreadIsStuck` | concurrency/MpmcQueue.h:138-201 | in every state of every run each thread can take its next step, and an exchange against an unchanged cursor can succeed |
| `WaitFreeStack.CasPushKeepsList` | concurrency/WaitFreeStack.cpp:13-32 | a successful push exchange leaves every list from its head acyclic, with distinct nodes and correctly versioned links |
| `WaitFreeStack.CasPopKeepsOwnList` | concurrency/WaitFreeStack.cpp:34-52 | a successful pop exchange found the node on top of the list and the next pointer loaded earlier is still its successor, so the list that remains is intact |
| `WaitFreeStack.StepKeepsInv` | concurrency/WaitFreeStack.cpp:13-52 | every step of every thread keeps the lists, the place of each node and the thread-local pointers consistent, across any number of stacks |
| `WaitFreeStack.StepRefinesStacks` | concurrency/WaitFreeStack.cpp:13-52 | freedom from ABA: a successful push puts the node on top of its stack, a successful pop removes the top node and installs its true successor, a pop that returns false saw an empty stack, all other steps change no stack |
| `WaitFreeStack.RunRefinesStacks` | concurrency/WaitFreeStack.cpp:13-52 | the pushes, pops and empty answers of every run, in the order of their exchanges, are what sequential stacks answer, and leave the same stacks |
| `WaitFreeStack.CallsTakeEffectOnce` | concurrency/WaitFreeStack.cpp:13-52 | every call that returns took effect exactly once between its begin and its end: a push as the push of its item to its stack, a pop as the pop of the item it returns or as finding its stack empty |
| `WaitFreeStack.NoThreadIsStuck` | concurrency/WaitFreeStack.cpp:13-52 | in every state of every run each thread can take its next step, and an exchange against an unchanged head can succeed |
| `WaitFreeStack.RunKeepsInv` | concurrency/WaitFreeStack.cpp:13-52 | the invariant holds in every state of every interleaving |
| `WaitFreeStack.OnePlacePerNode` | concurrency/WaitFreeStack.cpp:13-52 | each node is in exactly one stack, or with exactly one pushing or popping thread, or outside |
| `VersionedPointer.PackRoundTrip` | concurrency/VersionedPointer.h:50-80 | unpacking gives back the pointer and the version modulo 2^19 |
| `VersionedPointer.PackTruncates` | concurrency/VersionedPointer.h:50-57 | only the version modulo 2^19 is stored |
| `VersionedPointer.PackedEquality` | concurrency/VersionedPointer.h:50-82 | packed words are equal exactly when the pointers are equal and the versions agree modulo 2^19 |
| `PoolAllocator.StepKeepsInv` | memory/PoolAllocator.h:117-166 | allocate and free by any thread keep the eight stacks consistent and the number of blocks the same |
| `PoolAllocator.RunKeepsInv` | memory/PoolAllocator.h:54-166 | the stacks are consistent in every state of every run from the constructed pool |
| `PoolAllocator.OutUntilFreed` | memory/PoolAllocator.h:117-166 | a block that is with a client stays with it through every step that does not free it |
| `PoolAllocator.OutUntilFreedInRun` | memory/PoolAllocator.h:117-166 | the same over any stretch of a run that does not free the block |
| `PoolAllocator.NeverHandedOutTwice` | memory/PoolAllocator.h:117-166 | in every run, a block handed out at two moments was freed at some moment between them |
| `PoolAllocator.FreeBlocksCount` | memory/PoolAllocator.h:117-166 | the blocks in the first stacks, taken together, are as many as the list lengths add up to |
| `PoolAllocator.BlocksAreConserved` | memory/PoolAllocator.h:54-166 | in every state no block is lost or duplicated: the free lists count exactly the blocks that are in a stack |
| `PoolAllocator.CountersGoRound` | memory/PoolAllocator.h:117-161 | the wrapping counters are the numbers of allocations and frees modulo 2^32, and visit the eight stacks in turn for ever |
| `PoolAllocator.PoolRunIsStackRun` | memory/PoolAllocator.h:54-166 | every run of the pool is a run of its stacks, so what is proved of those holds of the pool |
| `PoolAllocator.CallsVisitStacksInTurn` | memory/PoolAllocator.h:72-166 | every call that returns took effect exactly once: the n-th allocation hands out the block it took off stack n mod 8, or hands out nothing because that stack was empty at that moment; the n-th free put its block on stack n mod 8 |
| `JobQueue.WordIsFaithful` | jobmanager/JobQueue.h:57-60 | the wrapping 32-bit job counter answers the questions the code asks of it although the true count may be below zero |
| `JobQueue.OnlyRunner` | jobmanager/JobQueue.h:100-166 | while a RunJob is alive, no other RunJob is alive, no adder is about to start one and the recovery flag is set |
| `JobQueue.StepKeepsInv` | jobmanager/JobQueue.h:30-166 | every step of adders and RunJobs, including failed posts and recovery, keeps the token, counting, order and batch invariants |
| `JobQueue.RunKeepsInv` | jobmanager/JobQueue.h:30-166 | the invariants hold in every state of every run: queue length + popped but not subtracted = count + pushed but not counted, corrected by late finishes |
| `JobQueue.OneTokenAtMost` | jobmanager/JobQueue.h:30-166 | the count is positive exactly when exactly one of live RunJob, start in progress and cleared recovery flag exists, and otherwise none does; so no two RunJobs are ever alive together |
| `JobQueue.JobsRunSeriallyInOrder` | jobmanager/JobQueue.h:122-157 | jobs start in push order, each only after the previous one has finished |
| `JobQueue.NoJobIsLost` | jobmanager/JobQueue.h:30-166 | when no adder, RunJob or recovery is pending, the queue is empty and every pushed job has finished |
| `JobQueue.FlagIsTaken` | jobmanager/JobQueue.h:34-61 | if the recovery flag is cleared and a call of addJob, accepted or refused, begins afterwards and ends, some call has taken the flag in the meantime in order to post a RunJob |
| `JobQueue.StartingPosts` | jobmanager/JobQueue.h:90-96 | a call about to post does nothing else: once it has moved on it has posted, which added a live RunJob or cleared the flag again |
| `JobQueue.RecoveryIsPosted` | jobmanager/JobQueue.h:34-96 | when all calls have ended, the call that took the flag has also posted |
| `JobQueue.CallGetsQueueGoing` | jobmanager/JobQueue.h:30-98 | whatever failed before, after a call during which no post fails the flag is set, and a RunJob is alive or about to be posted unless the counter is down to zero |
| `JobQueue.CallIsNeverStuck` | jobmanager/JobQueue.h:30-62 | every call can take its next step, with every answer the queue, the pool and the job manager may give |
| `JobQueue.RunnerIsNeverStuck` | jobmanager/JobQueue.h:112-166 | every live RunJob can take its next step, and takes the next job as long as there is one and fewer than ten are done |
| `JobQueue.LateFinishKeepsQueueBusy` | jobmanager/JobQueue.h:122-165 | after a job has finished on a later step than its first, the queue never comes to rest again |
| `JobQueue.RepostsWhenDrainedIff` | jobmanager/JobQueue.h:159-163 | with an empty queue and no adder counting, a RunJob posts a successor if and only if some job finished on a later step |
| `JobQueue.LateFinishHappens` | jobmanager/JobQueue.h:122-165 | a concrete run in which one two-step job leaves the counter above zero with nothing left to do |
| `MpscQueue.AlignUpIsNextMultiple` | concurrency/MpscQueue.cpp:89-93 | the rounded size is the next multiple of eight, exactly for sizes up to 2^32 - 8; larger ones become zero |
| `MpscQueue.FreeSpaceIsFree` | concurrency/MpscQueue.cpp:97-126 | free space at the write cursor is disjoint from every reserved entry |
| `MpscQueue.PaddingFits` | concurrency/MpscQueue.cpp:151-191 | when padding is due, the rest of the ring up to its end is free |
| `MpscQueue.FrontIsReadyIff` | concurrency/MpscQueue.cpp:140-149 | the state word at the read cursor is above allocated exactly when a finished entry is at the front |
| `MpscQueue.StepKeepsInv` | concurrency/MpscQueue.cpp:48-216 | every step of any producer and of the consumer keeps tiling, zeroed free memory, entry contents and history |
| `MpscQueue.RunKeepsInv` | concurrency/MpscQueue.cpp:35-216 | the invariant holds in every state of every interleaving of producers with one consumer |
| `MpscQueue.ReservationsTileTheRing` | concurrency/MpscQueue.cpp:97-191 | reservations are disjoint, none crosses the end, they follow each other from read to write cursor, their total never exceeds the capacity, a padding header always fits before the end, and every byte outside them is zero |
| `MpscQueue.ReservedSpaceIsClean` | concurrency/MpscQueue.cpp:105-181 | memory is all zero when it is reserved, for entries and for padding |
| `MpscQueue.BlocksArriveIntactInOrder` | concurrency/MpscQueue.cpp:48-63 | the consumer has received exactly the first blocks in allocation order, each with the contents that were committed, all of them when no entry is left, and the block at the front is intact in memory |
| `MpscQueue.RefusedForLackOfRoom` | concurrency/MpscQueue.cpp:97-130 | allocate returns null only if, in some state since the call began, the live entries, the words cleared and not yet given back, the request and the overhead together exceeded the capacity |
| `MpscQueue.BlockOf` | concurrency/MpscQueue.cpp:87-128 | a producer at work on a block asked for exactly its size, and every word of it holds what that producer wrote there last, or zero |
| `MpscQueue.CommittedAsWritten` | concurrency/MpscQueue.cpp:87-139 | what is committed has the size asked for and is, word by word, what the producer wrote since its reservation |
| `MpscQueue.FrontIsFound` | concurrency/MpscQueue.cpp:140-149 | the consumer gets a front entry exactly when a finished one is there |
| `MpscQueue.ProducerIsNeverStuck` | concurrency/MpscQueue.cpp:87-192 | in every state of every run each producer can go on; with an up-to-date cursor it reserves or pads if the request fits beside everything reserved, and gives up if it does not |
| `MpscQueue.ConsumerIsNeverStuck` | concurrency/MpscQueue.cpp:48-216 | in every state of every run the consumer can look, pop what it found, clear every word of it and give the words back |
| `MpscQueue.AccessesAreInRange` | concurrency/MpscQueue.cpp:87-216 | every memory access of a producer that owns an entry, and of the consumer at the front, while clearing and while releasing, is inside the ring, the cursor seen by a producer about to reserve is inside the ring, and the source's assertions on sizes hold |
| `MatrixLU.SwapRowsInPlace` | math/Matrix.h:177-183 | exchanges two rows of the matrix and nothing else |
| `MatrixLU.Pivot` | math/Matrix.h:186-214 | moves the largest element of the column, from the diagonal down, to the diagonal by one row exchange |
| `MatrixLU.Multiply` | math/Matrix.h:223-240 | computes the matrix product |
| `MatrixLU.ProductApplies` | math/Matrix.h:223-240 | (A*B)*x = A*(B*x) for all sizes |
| `MatrixLU.SwapKeepsFactored` | math/Matrix.h:745-749 | exchanging rows below the finished part in both the original and the working matrix keeps the partial factorisation |
| `MatrixLU.EliminationKeepsFactored` | math/Matrix.h:757-772 | eliminating a column extends the factorisation by one term, also for a zero pivot when the column below it is zero |
| `MatrixLU.NewTerm` | math/Matrix.h:757-772 | what elimination takes out of each remaining element is the new term of the product |
| `MatrixLU.PassKeepsFactored` | math/Matrix.h:743-773 | one pass of the outer loop keeps P a permutation and the permuted matrix partially factored, and leaves finished rows alone |
| `MatrixLU.FactoredMeansProduct` | math/Matrix.h:732-775 | a matrix factored in all columns is the product of unit lower and upper triangular factors |
| `MatrixLU.DecomposePLU` | math/Matrix.h:732-775 | for every size and tolerance: P is a permutation matrix and, unless a pivot is below the tolerance, P*A = L*U with all pivots at least the tolerance; otherwise the zero matrix is returned, and some pass had left of the permuted A a matrix whose column holds nothing from the diagonal down that reaches the tolerance; the number of row exchanges is odd exactly when the permutation is |
| `MatrixLU.SwapFlipsParity` | math/Matrix.h:741-749 | every exchange of two rows turns an even permutation (by its number of inversions) into an odd one and back |
| `MatrixLU.SplitPLU` | math/Matrix.h:784-803 | unpacks L unit lower and U upper triangular |
| `MatrixLU.PermutationMatrixPermutes` | math/Matrix.h:732-775 | multiplying by the permutation matrix reorders the rows |
| `MatrixLU.ForwardStep` | math/Matrix.h:886-913 | one row of forward substitution solves one more equation of the lower factor |
| `MatrixLU.BackStep` | math/Matrix.h:886-913 | one row of back substitution solves one more equation of the upper factor |
| `MatrixLU.SolveLU` | math/Matrix.h:886-913 | returns x with L*(U*x) = P*b whenever the diagonal has no zero |
| `MatrixLU.SolutionSolves` | math/Matrix.h:886-913 | with the factors of decomposePLU such an x solves A*x = b |
| `MatrixLU.SolveSystem` | math/Matrix.h:732-913 | decompose, split and solve together: unless a pivot is below the tolerance, P*A = L*U and the result solves A*x = b; if it is, a column of the partly factored matrix had no element that reaches the tolerance |
| `Crc32.ReversePolynomial` | crypto/SslHelper.cpp:13-19 | the byte-wise reversal loop computes the 32-bit mirror image |
| `Crc32.Crc32Polynomial.constructor` | crypto/SslHelper.cpp:179-205 | the table holds, for each byte value, eight shifts of it, for every polynomial |
| `Crc32.ShiftIsLinear` | crypto/SslHelper.cpp:192-202 | one shift distributes over exclusive or |
| `Crc32.ShiftsAreLinear` | crypto/SslHelper.cpp:192-202 | any number of shifts does |
| `Crc32.LookupIsEightShifts` | crypto/SslHelper.cpp:218-221 | one table lookup equals eight bitwise steps, for every polynomial, register and byte |
| `Crc32.AddingInPieces` | crypto/SslHelper.cpp:214-222 | adding data in pieces equals adding the concatenation |
| `Crc32.AddByteIsDivision` | crypto/SslHelper.cpp:214-222 | adding a byte to the reflected register is eight steps of most-significant-first polynomial division, mirrored |
| `Crc32.AddBytesIsDivision` | crypto/SslHelper.cpp:214-222 | the same for every byte string |
| `Crc32.FeedDivides` | crypto/SslHelper.cpp:192-202 | one step of the register is one step of long division of polynomials with coefficients 0 and 1 |
| `Crc32.FeedBytesIsRemainder` | crypto/SslHelper.cpp:214-222 | the register after any byte string is the remainder, of degree below 32, of dividing the message polynomial by the generator |
| `Crc32.ChecksumIsDivision` | crypto/SslHelper.cpp:207-227 | the register after a message, however split, is the mirrored remainder of dividing the message by the polynomial |
| `Crc32.Crc32.Add` | crypto/SslHelper.cpp:214-222 | the loop over the table extends what was added by the data, for every byte string |
| `Crc32.Crc32.Reset` | crypto/SslHelper.cpp:209-212 | afterwards the register stands for no data |
| `Crc32.Crc32.Compute` | crypto/SslHelper.cpp:224-227 | after any resets and adds, the complement of the mirrored remainder of dividing everything added since the last reset by the polynomial |
| `RtcpNack.AddedRequests` | rtp/RtcpNackBuilder.cpp:27-58 | an accepted number becomes requested and no other number changes |
| `RtcpNack.AddedKeepsFirstFit` | rtp/RtcpNackBuilder.cpp:27-58 | every number stays requested by the first item whose range holds it, and no mask bit reaches past 65535 |
| `RtcpNack.AddedTotal` | rtp/RtcpNackBuilder.cpp:27-58 | a reader's count grows by one for a new number and not at all for a repeated one |
| `RtcpNack.RunIsExact` | rtp/RtcpNackBuilder.cpp:27-58 | for every list of appended numbers: the items request exactly the accepted numbers and a reader counts each once |
| `RtcpNack.RefusedIff` | rtp/RtcpNackBuilder.cpp:48-51 | a number is refused exactly when sixteen items exist and none of their ranges holds it |
| `RtcpNack.RtcpNackBuilder.constructor` | rtp/RtcpNackBuilder.cpp:8-25 | an empty builder with length field 2 and both stream ids in network byte order |
| `RtcpNack.RtcpNackBuilder.AppendSequenceNumber` | rtp/RtcpNackBuilder.cpp:27-58 | accepts unless full, and the items become those of the specification for the longer list |
| `RtcpNack.RtcpNackBuilder.Build` | rtp/RtcpNackBuilder.cpp:60-83 | the first packet built decodes to the items held; a later packet is malformed, exactly when the length field was no longer 2 |
| `RtcpNack.GetNackPacketCount` | rtp/RtcpFeedback.cpp:53-74 | counts one for each packet id and one for each mask bit, for every packet |
| `RtcpNack.RoundTrip` | rtp/RtcpFeedback.cpp:29-74 | a packet that decodes to a builder's items requests exactly the accepted numbers, each by one item, and the count is the number of distinct accepted numbers |
| `RtcpNack.RequestAndRead` | rtp/RtcpNackBuilder.cpp:8-83 | append, build and read together: for every list the packet requests exactly the accepted numbers, each by one item, and the count is how many different ones there were |
| `RtcpNack.BuildTwice` | rtp/RtcpNackBuilder.cpp:60-83 | a builder with one number that builds twice: the first packet is well formed, the second is not |
| `SendTimeDial.StartsOnLine` | rtp/SendTimeDial.cpp:15-21 | the first reference is a point of the line through it, at most a second before the first local time |
| `SendTimeDial.MoveStaysOnLine` | rtp/SendTimeDial.cpp:23-29 | moving the reference keeps it on the line, across wraps of both clocks, and within a second of the local time |
| `SendTimeDial.AdvanceIsTrue` | rtp/SendTimeDial.cpp:31-39 | within half a cycle the wrapped difference is the true distance |
| `SendTimeDial.ConvertedIsNear` | rtp/SendTimeDial.cpp:41-41 | the result is less than a nanosecond from the line |
| `SendTimeDial.StaysOnLineIff` | rtp/SendTimeDial.cpp:23-29 | the reference is still on the line after a call if and only if the timestamp is not before the reference |
| `SendTimeDial.EarlyTimestampLeavesLine` | rtp/SendTimeDial.cpp:23-29 | any timestamp before the reference moves it off the line, to a point that is no whole number of ticks from the first one |
| `SendTimeDial.EarlyTimestampShiftsLine` | rtp/SendTimeDial.cpp:23-29 | every timestamp before the reference, however small the step back, moves the reference to the same other line, 9.709551616 s before the first one: 2^64 ns modulo the 64 s cycle of the send time |
| `SendTimeDial.ResultIsNearIff` | rtp/SendTimeDial.cpp:23-41 | for every packet whose line time is within 20 s of the timestamp, the converted time is less than a nanosecond from the line if and only if the timestamp is not before the reference |
| `SendTimeDial.ClockStepsBack` | rtp/SendTimeDial.cpp:10-42 | a run of two calls whose clock steps back 10 ms: the second result is 286_542_134 ns, 9.7 s from the line, and no time next to the line has that value |
| `SendTimeDial.NeverDrifts` | rtp/SendTimeDial.cpp:10-42 | for every sequence of calls with non-decreasing local times, each packet whose line time is within 31 s of its local time is converted to within a nanosecond of the line through the first packet |
| `SendTimeDial.SendTimeDial.ToAbsoluteTime` | rtp/SendTimeDial.cpp:10-42 | computes the specified reference and result |
| `JitterBufferList.NoPlaceIff` | rtp/JitterBufferList.cpp:47-76 | the scan ends without a place exactly for a packet half a cycle from the last one with nothing newer in the list |
| `JitterBufferList.HalfCycleLosesItem` | rtp/JitterBufferList.cpp:47-76 | the list that gets 0 and then 0x8000 holds one packet and has lost one item |
| `JitterBufferList.InsertedIsStable` | rtp/JitterBufferList.cpp:47-76 | in a window below 2^15 a packet always finds a place, the list stays sorted and equal numbers keep their order |
| `JitterBufferList.RunIsStableSort` | rtp/JitterBufferList.cpp:30-97 | after every sequence of adds and pops within windows the list is the stable sort of the packets added and not popped, across the wrap, and no item of the store is lost |
| `JitterBufferList.PopKeepsStableSort` | rtp/JitterBufferList.cpp:79-97 | popping removes the first arrival among the lowest numbers |
| `JitterBufferList.PopReturnsOldest` | rtp/JitterBufferList.cpp:79-97 | the next packet popped is the first to have arrived among the oldest waiting |
| `JitterBufferList.ChainInsert` | rtp/JitterBufferList.cpp:64-74 | linking before a place yields the list with the item at that place |
| `JitterBufferList.JitterBufferList.constructor` | rtp/JitterBufferList.cpp:8-15 | all 300 items are on the free list |
| `JitterBufferList.JitterBufferList.AllocItem` | rtp/JitterBufferList.cpp:17-28 | takes the first free item and leaves both lists intact, or reports that none is free |
| `JitterBufferList.JitterBufferList.Scan` | rtp/JitterBufferList.cpp:64-74 | finds the first newer packet and the item before it |
| `JitterBufferList.JitterBufferList.Add` | rtp/JitterBufferList.cpp:30-77 | the linked list becomes the specified contents; corrupt packets and a full store change nothing; tail, count and the partition of the 300 items stay right |
| `JitterBufferList.JitterBufferList.Pop` | rtp/JitterBufferList.cpp:79-97 | returns the head packet, frees its item and keeps tail, count and the partition right |
| `SpscAudioBuffer.PlaceIsCell` | codec/SpscAudioBuffer.h:94-105 | the two-part copy touches, sample by sample, the places of consecutive stream positions |
| `SpscAudioBuffer.NextHeadAtIff` | codec/SpscAudioBuffer.h:94-134 | a head stays at its stream position exactly when it is moved by the number of samples copied, or the copy does not pass the end |
| `SpscAudioBuffer.StepIsInRange` | codec/SpscAudioBuffer.h:44-182 | every place, head and length used by a step is in range |
| `SpscAudioBuffer.StepKeepsInv` | codec/SpscAudioBuffer.h:44-182 | every step of producer and consumer keeps heads, length, held samples and copies in progress consistent; only the end of a silence that was cut short at the end of the ring does not |
| `SpscAudioBuffer.RunKeepsInv` | codec/SpscAudioBuffer.h:44-182 | so does every interleaving, from any initial buffer contents, up to the first silence that is not whole |
| `SpscAudioBuffer.FetchedIsPrefix` | codec/SpscAudioBuffer.h:81-182 | what the fetches returned is always a prefix of what the callers appended, both defined from the calls alone (the samples of each accepted append and the zeros of each silence, once written), and the shared length is the difference |
| `SpscAudioBuffer.HistoriesAreStreams` | codec/SpscAudioBuffer.h:81-182 | the model's two history variables are those streams, and the samples being written are those of the call under way |
| `SpscAudioBuffer.FetchReturnsNext` | codec/SpscAudioBuffer.h:143-182 | a fetch returns the next samples of the appended stream, as many as waited when it began or as were asked for if those are fewer |
| `SpscAudioBuffer.StartsIff` | codec/SpscAudioBuffer.h:44-156 | a fetch copies exactly when samples wait, and a replay exactly when it is within the replay memory |
| `SpscAudioBuffer.OperationIsNeverStuck` | codec/SpscAudioBuffer.h:44-182 | every operation under way can go on |
| `SpscAudioBuffer.ReplayIsExact` | codec/SpscAudioBuffer.h:44-76 | a replay that began with a request for n samples returns n samples, which are exactly the last n delivered if that many were |
| `SpscAudioBuffer.WritesTouchNothingReadable` | codec/SpscAudioBuffer.h:81-182 | a place about to be written holds nothing that may still be fetched or replayed, and is not the place being read |
| `SpscAudioBuffer.AppendRefusedIff` | codec/SpscAudioBuffer.h:86-92 | append is refused exactly when the samples and the replay memory do not fit beside what waits |
| `SpscAudioBuffer.FinishedHead` | codec/SpscAudioBuffer.h:123-136 | where the head goes when a write ends: at the end of the stream exactly if the write was whole, still in the ring exactly if the write was whole or the old head plus the requested count is at most twice the size |
| `SpscAudioBuffer.HeadStaysRightIff` | codec/SpscAudioBuffer.h:114-137 | over every run: up to a moment when the producer rests, the write head was always at the end of the stream if and only if every silence was whole when it began |
| `SpscAudioBuffer.CutSilenceLeavesRing` | codec/SpscAudioBuffer.h:114-137 | a run in which five samples of silence, of which two fit, leave the head at 5 in a ring of 2 |
| `PoolBuffer.AdditionalChunksIsLeast` | memory/PoolBuffer.h:108-122 | the number of additional chunks is the least whose capacity holds the size |
| `PoolBuffer.CanFitIff` | memory/PoolBuffer.h:108-131 | a size is refused before any chunk is taken exactly when no number of chunks could hold it |
| `PoolBuffer.StorePointer` | memory/PoolBuffer.h:142-144 | a stored address is read back and the other stored addresses do not change |
| `PoolBuffer.BlockKeepsList` | memory/PoolBuffer.h:282-300 | writing any bytes in a data block leaves the addresses in the master chunk unchanged |
| `PoolBuffer.BlockIsOverwrite` | memory/PoolBuffer.h:282-300 | a block write changes exactly its range of the flat byte sequence |
| `PoolBuffer.BlockIsSlice` | memory/PoolBuffer.h:282-300 | a block read is a slice of the flat byte sequence |
| `PoolBuffer.PoolBuffer.Allocate` | memory/PoolBuffer.h:92-157 | succeeds exactly when the capacity sufficed, or the size can fit and the pool refuses no chunk; then the size is set, with the least number of chunks, and old contents are kept when the capacity sufficed; on failure the buffer is empty and every chunk is back in the pool; chunks are conserved and foreign memory untouched |
| `PoolBuffer.PoolBuffer.Grow` | memory/PoolBuffer.h:97-153 | takes the needed chunks or gives back the ones taken |
| `PoolBuffer.PoolBuffer.Free` | memory/PoolBuffer.h:251-266 | gives back the master chunk and all chunks taken so far, skipping null pointers |
| `PoolBuffer.PoolBuffer.CopyTo` | memory/PoolBuffer.h:227-243 | returns the requested slice of the flat contents, cut at the size |
| `PoolBuffer.PoolBuffer.CopyFrom` | memory/PoolBuffer.h:211-225 | overwrites exactly the range of the flat contents, cut at the size, and no other buffer's chunks |
| `PoolBuffer.PoolBuffer.CopyFromBuffer` | memory/PoolBuffer.h:173-205 | copies a slice of another buffer's flat contents, for any two chunk sizes, leaving the source unchanged, or of the same buffer when the ranges do not overlap |
| `PoolBuffer.PoolBuffer.KeptBy` | memory/PoolBuffer.h:269-301 | a buffer's contents do not change when only another buffer's chunks are written |
| `MpmcHashmap.ProbeReaches` | concurrency/MpmcHashmap.h:38-38 | probing from the home slot reaches every slot, at its distance |
| `MpmcHashmap.CountEntries` | concurrency/MpmcHashmap.cpp:38-53 | an index has at most as many entries as slots, and as many exactly when every slot is used |
| `MpmcHashmap.MurmurHashIndex.constructor` | concurrency/MpmcHashmap.cpp:5-12 | an empty index |
| `MpmcHashmap.MurmurHashIndex.Get` | concurrency/MpmcHashmap.cpp:122-139 | probing no further than the spread finds a key exactly when the map has it, with its value |
| `MpmcHashmap.MurmurHashIndex.Add` | concurrency/MpmcHashmap.cpp:20-54 | adds the entry to the map; fails exactly for a present key or a full index; every key stays within the spread of its home slot |
| `MpmcHashmap.MurmurHashIndex.UpdateSpread` | concurrency/MpmcHashmap.cpp:56-71 | the spread covers the probed slot and never shrinks |
| `MpmcHashmap.MurmurHashIndex.Remove` | concurrency/MpmcHashmap.cpp:74-96 | removes the entry from the map; the hole it leaves hides no other key |
| `MpmcHashmap.MurmurHashIndex.RemoveNext` | concurrency/MpmcHashmap.cpp:100-120 | removes the first entry at or after a slot, whatever is before it, reports its value and changes no other slot; zero when there is none |
| `MpmcHashmap.MpmcHashmap32.constructor` | concurrency/MpmcHashmap.h:181-199 | an empty map with all slots fresh and free in index order |
| `MpmcHashmap.MpmcHashmap32.Find` | concurrency/MpmcHashmap.h:287-303 | finds the committed element exactly when the map has the key's 40-bit hash |
| `MpmcHashmap.MpmcHashmap32.Emplace` | concurrency/MpmcHashmap.h:217-262 | adds the element exactly when its hash is absent and the store is not full, and otherwise changes nothing; the index add never fails after a failed find |
| `MpmcHashmap.MpmcHashmap32.Erase` | concurrency/MpmcHashmap.h:264-283 | removes the hash from the map, exactly when present |
| `MpmcHashmap.MpmcHashmap32.Clear` | concurrency/MpmcHashmap.h:313-326 | empties the map and frees every slot |
| `MpmcHashmap.MpmcHashmap32.Visit` | concurrency/MpmcHashmap.h:354-387 | begin-to-end iteration visits every entry of the map and none twice |
| `MpmcHashmap.CommitKeepsStore` | concurrency/MpmcHashmap.h:228-250 | first in, first out keeps fresh slots in index order before all tombstones, so the end marker stays behind every used slot |
| `RandomAccessBacklog.CellShift` | memory/RandomAccessBacklog.h:79-90 | moving the head back shifts every item by one place in the order, also when the 32-bit head wraps |
| `RandomAccessBacklog.CellsDiffer` | memory/RandomAccessBacklog.h:53-57 | different items are in different cells |
| `RandomAccessBacklog.RandomAccessBacklog.EmplaceFront` | memory/RandomAccessBacklog.h:79-90 | the new item comes first; the oldest is dropped when the ring is full |
| `RandomAccessBacklog.RandomAccessBacklog.Set` | memory/RandomAccessBacklog.h:53-57 | changes exactly one item |
| `RateController.MarkedIsLocal` | bwe/RateController.cpp:248-283 | a report block changes only unreceived RTP items of its stream, and only by marking them |
| `RateController.MarkedOlder` | bwe/RateController.cpp:248-283 | below the confirmed packet every RTP item of the stream ends up received |
| `RateController.MarkedKeepsBacklog` | bwe/RateController.cpp:248-283 | only RTP items are received and everything older than a received item of its stream is received, after every report block |
| `RateController.MarkedIs` | bwe/RateController.cpp:248-283 | what a report block does to each item, without the walk: the unreceived packet it names gets its data, unreceived packets of the stream behind it are marked, nothing else changes |
| `RateController.ReceivedAfterIff` | bwe/RateController.cpp:248-283 | an item is received afterwards if and only if it was before, or it is an RTP item of the stream at or behind an unreceived one with the reported number |
| `RateController.PushKeepsBacklog` | bwe/RateController.cpp:145-173 | the same after every sent packet, whichever item the ring drops |
| `RateController.RateController.OnReportBlockReceived` | bwe/RateController.cpp:216-295 | updates the stream's cumulative loss, and the in-place walk with its early stop marks exactly what the specification says, with the new losses |
| `RateController.RateController.TakeLosses` | bwe/RateController.cpp:227-243 | the losses a report adds to what its stream reported last, in the ring of 32 streams |
| `RateController.SamplesAfterReport` | bwe/RateController.cpp:227-243 | a report replaces the sample of its stream and of no other, unless the ring is full of other streams |
| `RateController.LossesAddUp` | bwe/RateController.cpp:242-243 | new losses add up to the last cumulative count, whatever other known streams report in between |
| `RateController.ReceivedWithinSent` | bwe/RateController.cpp:404-417 | packets and bytes counted as received never exceed those counted as sent |
| `RateController.AnalyzeProbe` | bwe/RateController.cpp:362-422 | stops at the first matching sender report with the exact sums of bytes, packets and losses in between |
| `RateController.AnalysisIsSound` | bwe/RateController.cpp:362-422 | packetsReceived <= packetsSent; bytes received are at most the end packet plus sentAfterSR; probing implies a link that was never idle for ordered times and gaps worth less than 2^32 bytes each, and is equivalent to it for regular trains |
| `RateController.AnalyzeBacklog` | bwe/RateController.cpp:430-492 | walks the backlog to the report the specification chooses, with the bytes sent after the newest received packet |
| `RateController.ChosenIsGoodOrLossy` | bwe/RateController.cpp:430-492 | the analysis used is empty, good, or the first one with losses before any good one |
| `RateController.ChosenIsFastest` | bwe/RateController.cpp:430-492 | among all probes the walk reaches, the chosen one is good if any is and none was received faster, as long as the 32-bit products compare rightly, unless the walk stopped at a loss before it found a good one |
| `RateController.BitrateIsRate` | bwe/RateController.cpp:107-120 | for delays below 524 s the bit rate is the received bytes by the delay in whole kbit/s, cut at 2^31 - 1 |
| `RateController.GoodProbeIff` | bwe/RateController.cpp:44-79 | for a regular train, a probe is good if and only if its sender report was found, it lasted more than a tenth of a second, more than nine tenths of the bytes are confirmed, and the link was never idle or carried more than the estimate for a fifth of a second |
| `RateController.GoodIsValid` | bwe/RateController.cpp:596-597 | a good probe is always valid, and a valid one has received bytes after a sender report |
| `RateController.SameProbeIsTheSame` | bwe/RateController.cpp:638-640 | a report counts as the one used last exactly when sender report, delay and packets received agree |
| `RateController.EndsWalkIff` | bwe/RateController.cpp:483-486 | the walk over the backlog ends at the first sender report older than the limit, on a clock that wraps |
| `RateController.OldestIsOldest` | bwe/RateController.cpp:576-588 | for reports within half a cycle of some time, and a first block that names one, the limit is one of the reports named and none is older |
| `RateController.SeemsFasterIff` | bwe/RateController.cpp:346-352 | two probes are compared rightly by 32-bit products exactly when the products wrapped equally often, or their rests are ordered as their laps; in particular whenever both are below 2^32 |
| `RateController.BestIsNotSlower` | bwe/RateController.cpp:340-355 | where the products compare rightly, the slower of two good probes is never chosen |
| `RateController.FasterProbeIsDropped` | bwe/RateController.cpp:340-355 | 65536 bytes in one second lose against 60000 bytes in one second |
| `RateController.IsProbe` | bwe/RateController.cpp:303-331 | for every backlog: true if and only if at every packet the bytes queued, as 16-bit sizes, exceed the 64-bit unsigned drain by more than the packet's size loses in 16 bits; for trains with ordered times, gaps worth less than 2^32 bytes each and 16-bit sizes that is: true if and only if the link was never idle |
| `RateController.RegularIsExact` | bwe/RateController.cpp:303-331 | for ordered times, gaps worth less than 2^32 bytes each and 16-bit sizes the code's arithmetic is the fluid condition with whole bytes per gap |
| `RateController.ProbeIsSound` | bwe/RateController.cpp:303-331 | with ordered times and gaps worth less than 2^32 bytes each, a train that passes was never idle, whatever the sizes |
| `RateController.OversizedPassesIff` | bwe/RateController.cpp:318-319 | the first item of 65536 bytes or more passes if and only if the multiple of 65536 it loses as a parameter is still waiting |
| `RateController.BigPaddingIsMissed` | bwe/RateController.cpp:751-759 | a train that ends in a confirmed packet, with padding merged to 70000 bytes behind its sender report: the link was never idle, and the analysis does not call it a probe |
| `RateController.StepBackFails` | bwe/NetworkQueue.h:20-28 | a time that goes back, by less than 3.6 GB at the bandwidth, drains every queue a backlog of 2048 packets can fill, so no such train is recognised |
| `RateController.OneNanosecondBack` | bwe/NetworkQueue.h:20-28 | a packet confirmed 1 ns before its sender report at 100 kbit/s: the link was never idle, and the analysis does not call it a probe |
| `RateController.DrainIsNearlyExact` | bwe/NetworkQueue.h:20-28 | the accumulated drain is below the exact fluid drain by less than one byte per packet |
| `RateController.FluidImpliesBusy` | bwe/RateController.cpp:303-331 | a link that is never idle in the exact fluid model passes |
| `RateController.BusyImpliesNearlyFluid` | bwe/RateController.cpp:303-331 | in a train that passes, the exact link is ahead of the sender by less than a byte per packet |
| `RateController.MovedIsBounded` | bwe/RateController.cpp:672-712 | one report lowers an estimate in range by at most 10% rounded down, raises it by at most max(1000, 2%), and leaves it in range; which way it moves, and when, is stated by EstimateRisesIff and EstimateFallsIff |
| `RateController.EstimateRisesIff` | bwe/RateController.cpp:672-692 | the estimate rises if and only if a good probe with few losses was received faster than it, or found the network queue more than an MTU shorter than the model, below the ceiling; in the first case to the bitrate, the old estimate plus 1000 or the ceiling and never above the bitrate, in the second by at most a fiftieth |
| `RateController.EstimateFallsIff` | bwe/RateController.cpp:672-712 | the estimate falls if and only if it is above the floor and a good probe of more than four packets was received slower without a shorter queue, or losses were heavy without a recent back-off; by a tenth of the gap and never below the measured rate, or by a twentieth, each rounded to a whole kbit/s |
| `RateController.ReportSettles` | bwe/RateController.cpp:695-739 | after a report the queue model is the smaller of itself and the network queue; a back-off is recent exactly if one was before or losses were heavy; a probe goes on exactly while nothing was lost and its time is not up |
| `RateController.AfterReportIsBounded` | bwe/RateController.cpp:672-739 | the whole model stays in bounds after every report |
| `RateController.ProbeTargetIsBounded` | bwe/RateController.cpp:175-204 | the queue a probe aims for is at most twice the longest target queue, and the probe interval never exceeds its maximum |
| `RateController.ProbeStartsWhenDue` | bwe/RateController.cpp:175-199 | a probe starts only below the target queue and then has bytes to spend; beyond the first five, starts are an interval apart and never soon after a loss back-off; one that is due is not left out |
| `RateController.RunningProbeAimsHigher` | bwe/RateController.cpp:200-204 | a running probe aims for a queue that only grows, up to twice the target |
| `RateController.ReportsKeepInterval` | bwe/RateController.cpp:605-632 | no report changes the probe interval; a reset sets the duration instead |
| `RateController.GoodProbeIsRemembered` | bwe/RateController.cpp:590-632 | the time of the last good probe moves only with a good probe or with the first report, and the probe duration only by a reset |
| `RateController.ResetRestoresIntervalIff` | bwe/RateController.h:198-202 | after a reset the interval is the initial one if and only if it was before |
| `RateController.ResetLeavesDoubledInterval` | bwe/RateController.h:198-202 | an interval doubled by the tenth probe is still doubled after a reset half a minute later |
| `RateController.RateController.SetRtpProbingEnabled` | bwe/RateController.cpp:810-823 | enabling resets probing, which leaves the interval alone |
| `RateController.TargetQueueIsBounded` | bwe/RateController.cpp:36-42 | the target queue is at most the configured maximum, and at least four packets if the maximum allows that |
| `RateController.TargetBitsAre` | bwe/RateController.cpp:36-42 | before clamping the target queue is what the estimate carries in 40 ms and an eighth of the round-trip time, plus 51000 bits but at most 255 ms worth |
| `RateController.TargetQueueGrows` | bwe/RateController.cpp:36-42 | a higher estimate never shortens the target queue |
| `RateController.RateController.OnSenderReportSent` | bwe/RateController.cpp:161-205 | records the report, starts or extends a probe as specified and keeps the bounds |
| `RateController.RateController.OnRtpSent` | bwe/RateController.cpp:145-159 | records the packet in queue model and backlog and keeps the invariants |
| `RateController.RateController.OnRtcpPaddingSent` | bwe/RateController.cpp:742-762 | records padding, merging what is sent at one time, and keeps the invariants |
| `RateController.RateController.OnReportReceived` | bwe/RateController.cpp:548-740 | finds the oldest sender report of the blocks, analyses the backlog, and applies the outcome if it is valid and not the one used last; the estimate stays within its bounds and steps |
| `RateController.RateController.GetPacingBudget` | bwe/RateController.cpp:843-849 | the budget is the specified one and at most twice the longest target queue |
| `RateController.BudgetFillsQueue` | bwe/RateController.cpp:843-849 | spending the budget fills the queue model to the target, and there is none to spend beyond it |
| `RateController.PaddingFits` | bwe/RateController.cpp:795-806 | the padding pieces with the packet use up the budget to within a byte a piece, each piece is below the maximum size, and no smaller number of such pieces would do |
| `RateController.RateController.GetPadding` | bwe/RateController.cpp:775-808 | while probing, padding is sent exactly when the packet fits the budget and the pieces are not below the minimum size, and then uses up the budget with the fewest pieces; otherwise one small packet is sent exactly when padding is allowed and the last one is long enough ago |

## Left out

- Mixer, API, HTTP, JSON, codecs, transports and configuration: plumbing over unseen libraries.
- Bandwidth estimator and Cholesky decomposition: a floating-point filter with heuristics and no crisp statement.
- Memory orders weaker than sequential consistency.
- `MpmcPublish`, `RingAllocator`, `LockFreeList` under concurrency and concurrent use of the hash map. The free list of the map is its sequential behaviour, first in, first out.
- Destructors, `clear()` under concurrency, `MpscQueue::frontSize` and the stop path of `JobQueue`.
- `MpmcQueue::size()` read while other threads move the cursors between its two loads.
- `JobQueue`: the pool of job objects and the inner queue are modelled as an unbounded queue whose push and pop may fail.
- MpmcHashmap.MurmurHashIndex.Add: the branch for meeting the same key in the second loop is left out, because one thread cannot reach it; so is the failure branch of the index add in MpmcHashmap.MpmcHashmap32.Emplace.
- `MpmcHashmap32::reInitialize`, backwards iteration and the delayed destruction of elements.
- PoolBuffer.PoolBuffer.Allocate: the branch for size zero inside the growth branch cannot be reached and is left out.
- PoolBuffer.PoolBuffer.CopyTo: returns the bytes instead of filling a destination, so the null destination is left out.
- PoolBuffer.PoolBuffer.CopyFromBuffer: copying a buffer onto an overlapping part of itself is left out, because the source would copy overlapping memory, which its copy primitive does not define.
- RateController.RateController.OnReportReceived: counters and texts for logging are left out.
- `RateController::calculateSendRate`, which nothing calls.
- RandomAccessBacklog.RandomAccessBacklog.EmplaceFront: `pop_back`, `fetchBack` and `clear` of the same class are left out as easy members.
- SendTimeDial.NeverDrifts: local times are below 2^63 ns, here and in SendTimeDial.ResultIsNearIff.
- SpscAudioBuffer.StepKeepsInv: one sample is copied per step, and publishing head and length is one step, because the head is private to its thread.
- SpscAudioBuffer.RunKeepsInv: stops at the first silence that is not whole, because the claim fails for exactly those runs (SpscAudioBuffer.HeadStaysRightIff).
- MpscQueue.StepKeepsInv: memory is copied word by word, and the guard words are present or absent as parameters of the model.
- VersionedPointer.PackRoundTrip: the 32-bit variant, which stores pointer and version side by side, is left out.
- The jitter buffer's delay queries and the REMB fields of RTCP feedback.
