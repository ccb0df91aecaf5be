# A verified model of the hermit demo kernels and the hermit-sys network runtime

This project models four parts of the repository in Dafny and proves what they are for.

1. **Z-order matrix multiplication** (`examples/demo/src/tests/matmul.rs`): the splayed-bit
   counter, the leaf multiply with unchecked reads, the eight-way recursive multiply, Strassen's
   seven-way recursion with scratch buffers, the row-major multiply, and the parallel fork-join of
   the eight subtasks.
2. **The blocking executor and the network runtime** (`hermit-sys/src/net/executor.rs`,
   `waker.rs`, `mod.rs`): threads in `block_on` and `poll_on`, wakers, the run queue, the single
   waker slot of the network interface, the background network task, and the socket futures.
3. **The Jacobi solver** (`examples/demo/src/tests/laplace.rs`, `matrix_setup` and `laplace` in
   `mod.rs`): two swapped buffers, chunked iteration, the residual, and the check that the demo
   makes on it.
4. **The latency benchmark** (`benches/netbench`): the send and receive loops, and client and
   server as a two-party protocol over bounded channels.

## How the model is built

**Files.** `Bits` (masks, spread numbers, Z-order positions), `SplayedCounter`, `ZMatrix`
(products, quadrants, block product), `Rounded` and `Agreement` (what the routines compute under
rounding, and when that is the exact product), `MatMul` and `RowMajor` (the routines themselves on
slices of arrays), `Multiply` (their callers), `ForkJoin`, `ParallelMatMul` and `ParallelStrassen`
(interleavings), `WakerSlot`, `Runtime`, `Calls` (how calls of `block_on` and `poll_on` end),
`AsyncSockets`, `SocketWakers` (who hears of a socket's change), `Jacobi`, `Decay`, `Residuals`, `Laplace`, `Connection`, `Echo`, and the small shared
`Arithmetic`, `Bytes` and `Options`.

**Elements and rounding.** Matrix elements are integers, and every addition, subtraction and
multiplication passes through a rounding function `fl` from integers to integers. Methods are
proved to compute exactly what the rounded recursion computes, for any `fl`; separate lemmas say
that this is the exact product when `fl` is the identity, and when the data are small enough for
`fl` to be exact on every intermediate value (for single precision, integers up to 2^24). Solver
fields are over the reals.

**Slices and scratch.** A slice is an array with an offset and a length. `Apart` states what a
mutable borrow guarantees; `OnlyChanged` says that nothing outside the destination changed.
Scratch buffers are allocated with arbitrary contents.

**The counter and the 32-bit masks.** The masks have 32 bits although `usize` has 64. The counter
therefore ends if and only if its limit is at most `0x5555_5555`, and `seq_matmulz` is specified
for lengths 4^m with m at most 15. For the same limits, and no others, the addition in `next` never
leaves 64 bits (it stays within 32); above them call 2^48 overflows. The model wraps there, as a
release build does; a build that checks overflow panics. The recursive routines have no such limit: their leaves have
length at most 1024.

**Kernel contract.** A waker sets the thread's flag and then, if the flag was clear, calls
`sys_wakeup_task`; the thread clears the flag and then blocks. `Runtime.Kernel` has two switches:
the kernel latches a wakeup that arrives before the block call, or nothing can happen between flag
swap and block call. No wakeup is lost if and only if one of them is on. With both off, the model
holds a nine-step run after which a thread sleeps with its flag set, and it stays asleep in every
continuation because later wakers see the flag and skip the kernel call.

**What a run shows.** Results about whole runs are stated on what an outsider notes of the run and
not on the model's own bookkeeping: `Calls` reads the start, the timeout, the answers of polls, the
clock at time checks and the delays found off the steps of a run; `AsyncSockets` reads the bytes that
polls reported, that arrived and that were acknowledged off its actions.

**End of stream.** An empty result of a read means the end of the stream exactly when the handshake is
over. A read on a handle that still shakes hands also returns nothing at once, and data may follow
(`AsyncSockets.EndOfStreamIff`); `connect` and `accept` hand out a handle only later, but `accept`
does so as soon as the peer's SYN has arrived.

**TCP contract.** The TCP library's socket follows the state machine of section 3.3.2 of RFC 9293.
A handle is opened at most once. Every poll of a socket future holds the interface lock, so it is
one step, and network steps happen in between. `close` accepts a send queue that is empty; a reset
may drop the queue, which is the one way for accepted bytes to stay unacknowledged.

**Waking contract.** The TCP library keeps one waker per side of a socket, registered as in
`hermit-sys/src/net/waker.rs`, which is derived from it. A change of state wakes both sides, an
acknowledgement of data the send side, and new data the receive side. From this `SocketWakers`
derives what `Runtime` uses of a socket: the waker of a future that `block_on` runs (connect,
accept, close) is taken out before a poll of the future would answer. The same holds for reads. It
fails for writes in exactly one situation: another caller's read drains the receive queue of a
connection that receives no more, and a pending write would now answer 0. Writes and reads are run
by `poll_on` (`hermit-sys/src/net/mod.rs:426` and `433`), which never sleeps, so no thread is left
asleep by it.

**Tasks.** A spawned task is idle, queued or running; waking an idle one queues it, waking a running
one makes it queue itself when it ends, and waking a queued one does nothing. This is the contract
assumed of `async_task`.

**Solver shapes.** `iteration` cuts the next buffer into chunks of `size_y` elements and treats
chunk `c` as row `c`. That is the Jacobi step on square grids and on grids without an interior, and
on no others; `Laplace.IterationIsJacobiIff` states this with both failing families.

**Netbench.** A read or write moves any number of bytes that the buffers and the channel allow;
moving none also stands for `WouldBlock`. Messages may differ from round to round (the client sends
the same one every time), and have the length of the buffers, as in client and server.

## Model

| member | source | states |
|---|---|---|
| Bits.MasksAre32Bit | examples/demo/src/tests/matmul.rs:51-54 | the two mask constants are 16 repetitions of 01 and of 10 in binary, so they end at bit 31 |
| Bits.SpreadMonotone | examples/demo/src/tests/matmul.rs:33-34 | spreading bits apart is strictly increasing, so the counter's values come in order |
| Bits.SpreadRoundTrip | examples/demo/src/tests/matmul.rs:33-34 | a spread number gives back the number it came from, and has no bits in the other positions |
| Bits.ZOfRowCol | examples/demo/src/tests/matmul.rs:89-91 | an index rebuilt from its own row and column is the same index |
| Bits.RowColOfZ | examples/demo/src/tests/matmul.rs:89-91 | every row and column is found again from the index; with the previous row a bijection |
| Bits.MaskedIndex | examples/demo/src/tests/matmul.rs:90-91 | masking an output index leaves the spread row (shifted by one) and the spread column |
| Bits.UncheckedReads | examples/demo/src/tests/matmul.rs:88-99 | for every output index below 4^m and every counter value, both unchecked indices are below 4^m and are the positions of (row, k) and (k, column) |
| Bits.LengthGuard | examples/demo/src/tests/matmul.rs:79-80 | the asserted length test accepts exactly the powers of four |
| SplayedCounter.AdvanceCounts | examples/demo/src/tests/matmul.rs:53-56 | setting the other bits and adding one, with wrap-around at 64 bits, adds exactly one to the number in the masked bits, modulo 2^16, whatever garbage the other bits hold |
| SplayedCounter.AdvanceCarries | examples/demo/src/tests/matmul.rs:53-56 | what lies above the low 32 bits goes up by one exactly when the number in the masked bits wraps, and the addition leaves 64 bits exactly when both are at their maximum |
| SplayedCounter.FirstOverflow | examples/demo/src/tests/matmul.rs:53-56 | the addition leaves 64 bits for the first time in the 2^48-th advance |
| SplayedCounter.OverflowIff | examples/demo/src/tests/matmul.rs:49-61 | some call of next that is reached overflows if and only if the limit is above 0x5555_5555 |
| SplayedCounter.SplayedBitsCounter.constructor | examples/demo/src/tests/matmul.rs:41-43 | a new counter has offered nothing and keeps its limit |
| SplayedCounter.SplayedBitsCounter.Next | examples/demo/src/tests/matmul.rs:49-61 | the n-th call offers the n-th spread number while it is below the limit; otherwise None with the counter unchanged, so None forever; for limits up to 0x5555_5555 the addition stays within 32 bits |
| SplayedCounter.Collect | examples/demo/src/tests/matmul.rs:64-71 | collecting gives the spread numbers below the limit in increasing order: exactly the numbers that the mask leaves alone |
| SplayedCounter.ItemCount | examples/demo/src/tests/matmul.rs:93-93 | for limit 4^m, m at most 15, exactly 2^m values are offered |
| SplayedCounter.TerminatesIff | examples/demo/src/tests/matmul.rs:49-61 | the counter ever ends if and only if its limit is at most 0x5555_5555 |
| ZMatrix.ProductElement | examples/demo/src/tests/matmul.rs:86-94 | entry (r, c) of the product is the sum over k of A[r,k] B[k,c] |
| ZMatrix.ProductUnique | examples/demo/src/tests/matmul.rs:86-94 | a sequence whose entries are those sums is the product |
| ZMatrix.QuarterChunksSplit | examples/demo/src/tests/matmul.rs:108-115 | splitting in halves and halves again gives the four quarters, whose concatenation is the whole |
| ZMatrix.QuadrantElem | examples/demo/src/tests/matmul.rs:108-115 | quarter 2i + j, read in Z-order, is the matrix quadrant with row bit i and column bit j |
| ZMatrix.LinearLeft | examples/demo/src/tests/matmul.rs:248-274 | the product distributes over sums and differences on the left |
| ZMatrix.LinearRight | examples/demo/src/tests/matmul.rs:248-274 | and on the right |
| ZMatrix.BlockProduct | examples/demo/src/tests/matmul.rs:186-205 | the product of twice the side is the four block sums of quadrant products, in quarter order |
| MatMul.QuartersPartition | examples/demo/src/tests/matmul.rs:117-124 | the four mutable quarters are pairwise disjoint and together cover the slice |
| MatMul.Slice.QuarterWritten | examples/demo/src/tests/matmul.rs:189-202 | writing one quarter leaves the other three and everything outside the slice as they were |
| MatMul.LeafTerm | examples/demo/src/tests/matmul.rs:93-99 | both unchecked reads are in range and read A[row,k] and B[k,column] |
| MatMul.SeqMatMulZ | examples/demo/src/tests/matmul.rs:76-103 | the leaf loop leaves the rounded row-by-column sums in the destination, whatever it held, and changes nothing else |
| MatMul.ChunkDepth | examples/demo/src/tests/matmul.rs:105-105 | lengths 4^m up to the leaf size are those with m at most 5 |
| MatMul.RMatSum | examples/demo/src/tests/matmul.rs:303-307 | adds the source to the destination element by element over the common length |
| MatMul.RMatSub | examples/demo/src/tests/matmul.rs:309-313 | subtracts likewise |
| MatMul.RCopy | examples/demo/src/tests/matmul.rs:315-325 | the recursive copy makes the destination equal to the source |
| MatMul.RTmpSum | examples/demo/src/tests/matmul.rs:288-293 | a fresh buffer, uninitialised at first, ends as the rounded sum |
| MatMul.RTmpSub | examples/demo/src/tests/matmul.rs:295-300 | a fresh buffer, uninitialised at first, ends as the rounded difference |
| MatMul.StrassenSumSub | examples/demo/src/tests/matmul.rs:276-281 | leaves ((a + b) + c) - s in the destination, rounded at each step |
| MatMul.StrassenSum | examples/demo/src/tests/matmul.rs:283-286 | leaves a + b in the destination |
| MatMul.StrassenAdd2Mul | examples/demo/src/tests/matmul.rs:248-253 | product of two sums in a fresh buffer |
| MatMul.StrassenSubAddMul | examples/demo/src/tests/matmul.rs:255-260 | product of a difference and a sum in a fresh buffer |
| MatMul.StrassenAddMul | examples/demo/src/tests/matmul.rs:262-267 | product of a sum and a matrix in a fresh buffer |
| MatMul.StrassenSubMul | examples/demo/src/tests/matmul.rs:269-274 | product of a matrix and a difference in a fresh buffer |
| MatMul.MatMulZ | examples/demo/src/tests/matmul.rs:177-206 | for every 4^m, the eight-way recursion over the destination and an uninitialised scratch buffer computes the rounded block recursion and changes nothing else |
| MatMul.SevenProducts | examples/demo/src/tests/matmul.rs:215-228 | the seven products with their operands |
| MatMul.Combine | examples/demo/src/tests/matmul.rs:230-237 | the four quarters of the destination from the seven products |
| MatMul.MatMulStrassen | examples/demo/src/tests/matmul.rs:208-238 | for every 4^m, the seven-way recursion computes the rounded Strassen recursion, whatever destination and buffers held before, and changes nothing else |
| Rounded.StrassenIdentity | examples/demo/src/tests/matmul.rs:217-237 | the four combinations of the seven products are the four blocks of the product, element by element |
| Rounded.SeqMulZExact | examples/demo/src/tests/matmul.rs:92-101 | the rounded leaf sums are exact when side times the element bounds is within the exact range |
| Rounded.MatMulZExact | examples/demo/src/tests/matmul.rs:177-206 | so is the rounded eight-way recursion, under the same bound |
| Rounded.StrassenExact | examples/demo/src/tests/matmul.rs:208-238 | the rounded Strassen recursion is the exact product when 5 n 2^d A B is within the exact range, with n the side, d the depth of the deepest combining level, A and B the element bounds |
| Agreement.ExactArithmetic | examples/demo/src/tests/matmul.rs:76-238 | without rounding, all three routines compute the matrix product for every 4^m |
| Agreement.RoundedAgreement | examples/demo/src/tests/matmul.rs:343-359 | under rounding, all three agree with each other and with the product within the Strassen bound |
| Agreement.EqualityTestHolds | examples/demo/src/tests/matmul.rs:343-359 | the equality test's data meet the bound for single precision: both assertions of equal results hold |
| Agreement.DemoResult | examples/demo/src/tests/matmul.rs:387-405 | the demo's 512 by 512 product of ones and twos has 1024 everywhere |
| Multiply.MatMulZProduct | examples/demo/src/tests/matmul.rs:177-206 | calling the eight-way multiply leaves the matrix product in the destination when the leaf sums are within the exact range |
| Multiply.StrassenProduct | examples/demo/src/tests/matmul.rs:208-238 | calling Strassen leaves the matrix product when 5 n 2^d A B is within the exact range |
| Multiply.TestMatmul | examples/demo/src/tests/matmul.rs:343-359 | run as written on its data, both comparisons come out equal |
| Multiply.TestMatmulStrassen | examples/demo/src/tests/matmul.rs:389-405 | run as written, the demo's result is 1024 in every cell |
| RowMajor.LayoutRoundTrip | examples/demo/src/tests/matmul.rs:73-74 | converting between row-major and Z-order loses nothing in either direction |
| RowMajor.SeqMatMul | examples/demo/src/tests/matmul.rs:13-31 | the row-major loops leave the rounded row-by-column sums, which is the Z-order result carried back to row-major |
| RowMajor.ZOrderRefinesRowMajor | examples/demo/src/tests/matmul.rs:76-103 | a matrix is the row-major result if and only if it is the Z-order leaf result on the converted inputs, converted back |
| ForkJoin.Commute | examples/demo/src/tests/matmul.rs:141-174 | two stores that do not touch what the other reads or writes commute |
| ForkJoin.Deterministic | examples/demo/src/tests/matmul.rs:141-174 | every interleaving of a race-free fork-join task has the effect of running it serially |
| ForkJoin.SerialIsSchedule | examples/demo/src/tests/matmul.rs:141-174 | the serial order is one of the interleavings |
| ForkJoin.Join8RaceFree | examples/demo/src/tests/matmul.rs:141-174 | eight race-free subtasks with separately owned write sets are race-free together |
| ParallelMatMul.MulRaceFree | examples/demo/src/tests/matmul.rs:177-206 | the parallel multiply, with all its levels and scratch buffers, is race-free |
| ParallelMatMul.MulEffect | examples/demo/src/tests/matmul.rs:177-206 | run serially, it leaves the rounded product in the destination and touches only destination and scratch |
| ParallelMatMul.EverySchedule | examples/demo/src/tests/matmul.rs:177-206 | so does every interleaving of its stores, at every depth |
| ParallelStrassen.ChainEffect | examples/demo/src/tests/matmul.rs:276-300 | a copy followed by elementwise sums and differences leaves the rounded combination in the buffer and changes nothing else |
| ParallelStrassen.OperandEffect | examples/demo/src/tests/matmul.rs:248-274 | building an operand leaves its value where its product reads it |
| ParallelStrassen.StrassenRaceFree | examples/demo/src/tests/matmul.rs:208-238 | the seven products, the joins inside them and the four combinations are race-free at every level |
| ParallelStrassen.StrassenEffect | examples/demo/src/tests/matmul.rs:208-238 | run serially, they leave Strassen's rounded result in the destination and touch only destination and buffers |
| ParallelStrassen.EveryStrassenSchedule | examples/demo/src/tests/matmul.rs:208-238 | so does every interleaving of their stores, at every depth, whatever the buffers held before |
| WakerSlot.RegisterLosesNone | hermit-sys/src/net/waker.rs:16-38 | registering leaves the new waker in the slot, and the one it displaces is woken |
| WakerSlot.WakerRegistration.constructor | hermit-sys/src/net/waker.rs:11-13 | a new slot is empty |
| WakerSlot.WakerRegistration.Register | hermit-sys/src/net/waker.rs:16-38 | the slot afterwards and the waker woken, for both branches |
| WakerSlot.WakerRegistration.Wake | hermit-sys/src/net/waker.rs:41-45 | empties the slot and wakes what was in it |
| Runtime.ThreadsAlwaysOk | hermit-sys/src/net/executor.rs:75-83 | in every run: from poll to flag swap a wake implies a set flag, from the swap on a set flag has a kernel call pending or latched behind it, and no thread blocks past a completed wake |
| Runtime.NoLostWakeup | hermit-sys/src/net/executor.rs:137-166 | over all runs no wakeup is lost if and only if the kernel latches early wakeups or makes swap and block atomic |
| Runtime.LostWithoutContract | hermit-sys/src/net/executor.rs:150-160 | without that contract: a concrete run that ends with a thread asleep, its flag set and no call pending |
| Runtime.StuckForever | hermit-sys/src/net/executor.rs:75-83 | such a thread stays blocked in every continuation |
| Runtime.ReadyReachesThread | hermit-sys/src/net/executor.rs:137-166 | a thread blocked on a ready socket has a waker on its way to it |
| Runtime.PollingNeverBlocks | hermit-sys/src/net/executor.rs:90-124 | a thread in poll_on is never blocked or about to block |
| Calls.CallsEnd | hermit-sys/src/net/executor.rs:90-168 | in every run a call has returned a value exactly when its last poll answered, and timed out exactly when its last time check found start plus timeout reached, which it then is; nothing else ends a call, and both end its loop |
| Calls.NoneGoesOnLate | hermit-sys/src/net/executor.rs:112-119 | no thread is past its time check (network delay, flag swap, block call, asleep, queue) if the check found the time over |
| Calls.SleepsAreLimited | hermit-sys/src/net/executor.rs:148-157 | a thread swaps its flag, blocks or sleeps only for a network delay that is unknown or above 100 ms, and its sleep has a limit exactly when the delay is known |
| Calls.FlagDecides | hermit-sys/src/net/executor.rs:150-165 | a thread that finds its flag set is back at its poll; it blocks only after finding it clear; before running the queue block_on has looked at the flag exactly for a long delay, poll_on never |
| Calls.WakesAreUsedOnce | hermit-sys/src/net/executor.rs:75-83 | every wake that sets the flag is taken back by one swap or clear or still stands; the kernel is called once for each of them and for no other wake; every waker taken out of a socket sets the flag once; every latched wakeup ends one block call |
| Calls.LoopGoesRound | hermit-sys/src/net/executor.rs:137-167 | between two polls a call's next step is enabled and takes it nearer to its next poll or its end, unless it sleeps with no wakeup on its way or takes a task from the queue |
| Runtime.WakeupUnblocks | hermit-sys/src/net/executor.rs:75-83 | a blocked thread that was woken since its last poll has a kernel call enabled, and that call unblocks it |
| Runtime.RunnersAlwaysFound | hermit-sys/src/net/executor.rs:30-34 | in every run, every task that is marked running has a thread inside it |
| Runtime.NeverStranded | hermit-sys/src/net/mod.rs:366-375 | in every reachable state each spawned network task is queued exactly once; or run by exactly one thread, whose next step in it is enabled, with its poll ahead, a rerun due or its waker registered; or idle with its waker registered |
| Runtime.SocketWorkIsPolled | hermit-sys/src/net/mod.rs:161-164 | while sockets have been touched since the last network poll, every network task has a poll ahead: it is queued, or a thread is at work on it that still polls or queues it again |
| Runtime.AccessSchedulesTask | hermit-sys/src/net/mod.rs:185-194 | every access to a socket leaves every network task with a poll ahead in that sense |
| AsyncSockets.AsyncSocket.constructor | hermit-sys/src/net/mod.rs:174-183 | a new socket is closed, with empty queues |
| AsyncSockets.AsyncSocket.PollConnected | hermit-sys/src/net/mod.rs:208-218 | one poll of connect: both refusals, pending during the handshake, success in any state past it |
| AsyncSockets.AsyncSocket.PollAccepted | hermit-sys/src/net/mod.rs:225-242 | one poll of accept: success in every active state, refusal when closed, pending otherwise |
| AsyncSockets.AsyncSocket.PollRead | hermit-sys/src/net/mod.rs:254-276 | one poll of read: refusal, data, end of stream or pending, with the new socket state |
| AsyncSockets.AsyncSocket.PollWrite | hermit-sys/src/net/mod.rs:278-299 | one poll of write: refusal, zero, the accepted prefix or pending, with the new socket state |
| AsyncSockets.AsyncSocket.PollClose | hermit-sys/src/net/mod.rs:302-320 | first half of close: waits for an empty send queue before it closes |
| AsyncSockets.AsyncSocket.PollClosed | hermit-sys/src/net/mod.rs:322-336 | second half of close: waits for the connection to go down |
| AsyncSockets.FieldsAreTraces | hermit-sys/src/net/mod.rs:254-336 | the model's counts of bytes and closes are what the polls reported, what arrived and what was acknowledged in the run |
| AsyncSockets.BytesConserved | hermit-sys/src/net/mod.rs:254-299 | in every run, the bytes that writes reported as written are the bytes acknowledged followed by those queued, in order, until the connection is down; the bytes that arrived are the data that reads returned followed by those queued |
| AsyncSockets.TransfersAreFull | hermit-sys/src/net/mod.rs:263-290 | a write reports less than it was given only when it filled the queue or nothing more can arrive; a read leaves bytes behind only when its buffer is full |
| AsyncSockets.EndOfStreamIff | hermit-sys/src/net/mod.rs:265-266 | an empty result of a read with room comes only with an empty queue, and no continuation brings data exactly when the handshake is over |
| AsyncSockets.ReadWaitsForData | hermit-sys/src/net/mod.rs:262-270 | a read waits only while some continuation brings data; it returns the end of a stream that has ended, and returns bytes when there are some |
| AsyncSockets.WriteWaitsForRoom | hermit-sys/src/net/mod.rs:286-294 | after the handshake and before this side closes, a write waits only for room, and takes at least a byte when there is room, even when the peer has closed but left bytes to read |
| AsyncSockets.CloseNeverOvertakes | hermit-sys/src/net/mod.rs:301-320 | in every run, when a poll of close answers that it made the close call, and ever after, all that writes reported as written has been acknowledged |
| AsyncSockets.SuccessfulCloseDelivered | hermit-sys/src/net/mod.rs:301-336 | a close that returned success means that all that writes reported as written reached the peer |
| AsyncSockets.RefusedIff | hermit-sys/src/net/mod.rs:254-336 | reads, writes and closes are refused, and a waiting close returns success, exactly when the connection is gone or this side closed before the peer did |
| AsyncSockets.DownForever | hermit-sys/src/net/mod.rs:256-261 | the five refusing states are closed under everything that can still happen to an opened handle |
| AsyncSockets.ClosedForGood | hermit-sys/src/net/mod.rs:254-336 | after a close that returned success every read, write and close on the handle is refused, in every continuation |
| AsyncSockets.ConnectAnswers | hermit-sys/src/net/mod.rs:208-218 | over all runs, connect answers success exactly when the handshake took place in the run and the connection is not over, unaddressable exactly when it is over, illegal exactly when listening, and waits otherwise |
| AsyncSockets.AcceptAnswers | hermit-sys/src/net/mod.rs:225-242 | over all runs, accept answers success exactly when the handle is past listening and not over, which needs a connect call or a SYN and may be before the handshake ends |
| AsyncSockets.ResetIsRefused | hermit-sys/src/net/mod.rs:208-242 | a connection that was reset, before or after the handshake, is answered unaddressable by connect and illegal by accept and close from then on |
| AsyncSockets.UndisturbedAnswers | hermit-sys/src/net/mod.rs:200-237 | a handle that only listens makes connect answer illegal and accept wait; one that only called connect makes it wait |
| AsyncSockets.StatesFollow | hermit-sys/src/net/mod.rs:200-320 | every change of a connection's state is a move of the TCP state machine made by the side that may make it |
| SocketWakers.PendingRegisters | hermit-sys/src/net/mod.rs:208-335 | a poll without a result registers on the side named for its future and leaves the socket unchanged |
| SocketWakers.AnswerIsAnnounced | hermit-sys/src/net/mod.rs:208-335 | whatever makes a pending connect, accept, read or close answer wakes the side it registered on |
| SocketWakers.WriteAnswerMissedIff | hermit-sys/src/net/mod.rs:278-299 | a pending write becomes answerable without a wake of the send side if and only if another caller's read drains the receive queue outside ESTABLISHED, and then it answers 0 |
| SocketWakers.WriteAnswerMissed | hermit-sys/src/net/mod.rs:278-299 | an input on which that happens: the peer has closed, the send queue is full, one byte is unread |
| SocketWakers.NoAnswerMissed | hermit-sys/src/net/mod.rs:185-194 | over any run of any number of threads on one handle, a pending connect, accept, read or close that would answer has had its waker called since its last poll, also when wakers displace each other |
| SocketWakers.SocketStepsAreThreadSteps | hermit-sys/src/net/mod.rs:417-440 | every step of the others on the socket is, to a waiting thread, a run of enabled socket steps of the thread in the executor model |
| SocketWakers.OwnPollIsPolled | hermit-sys/src/net/executor.rs:137-140 | the thread's own poll of the socket is the end of a poll in the executor model |
| Jacobi.ResidualNeverGrows | examples/demo/src/tests/laplace.rs:4-24 | from any field on any rectangle, one more iteration does not increase the residual |
| Jacobi.MaximumPrinciple | examples/demo/src/tests/laplace.rs:26-42 | after any number of iterations edge cells are 1 and all cells lie in [0, 1] |
| Jacobi.IteratesRise | examples/demo/src/tests/laplace.rs:26-42 | no cell ever decreases |
| Jacobi.ConvergenceRate | examples/demo/src/tests/laplace.rs:45-61 | after t iterations the error at column x is at most (1 - 2/M^2)^t x(M - x)/(M - 1), with M = size_x - 1 |
| Residuals.Symmetric | examples/demo/src/tests/laplace.rs:33-37 | averaging over neighbours is symmetric for fields that vanish on the edge |
| Residuals.ResidualIsSecond | examples/demo/src/tests/laplace.rs:4-24 | the residual after t iterations is the second difference at 2t of the total error left in the grid |
| Residuals.ResidualConvex | examples/demo/src/tests/laplace.rs:4-24 | successive residuals form a convex sequence |
| Decay.SecondBound | examples/demo/src/tests/laplace.rs:45-61 | for every sequence with those properties, the t-th even second difference is at most the first term over k^2, for every k up to (3t + 1)/2 |
| Residuals.ResidualDecays | examples/demo/src/tests/laplace.rs:45-61 | after t iterations the residual is at most (size_x - 2)(size_y - 2)/k^2 for every k up to (3t + 1)/2 |
| Residuals.ResidualBound | examples/demo/src/tests/laplace.rs:45-61 | and at most (size_x - 2)(size_y - 2)/(t + 1) |
| Residuals.DemoConverges | examples/demo/src/tests/mod.rs:194-216 | 128 by 128 with 1000 iterations has a residual below 0.01 |
| Laplace.MatrixSetup | examples/demo/src/tests/mod.rs:218-246 | both buffers hold ones around the edge and zeros inside, for every size including the empty one |
| Laplace.GetResidual | examples/demo/src/tests/laplace.rs:4-24 | the loops compute the residual of the field that the buffer holds |
| Laplace.IterateChunk | examples/demo/src/tests/laplace.rs:26-42 | the closure over one chunk writes its inner positions from row `chunk` of the current buffer, and nothing else |
| Laplace.Iteration | examples/demo/src/tests/laplace.rs:26-42 | all chunks together, for every shape on which no chunk is indexed past its end |
| Laplace.AnyCellOrder | examples/demo/src/tests/laplace.rs:27-41 | the closures' stores may interleave cell by cell in any order: when every cell has been stored the buffer is the same |
| Laplace.InBoundsIff | examples/demo/src/tests/laplace.rs:33-34 | no chunk is indexed past its end if and only if size_x <= size_y + 1 or size_y <= 2 |
| Laplace.IterationIsJacobiIff | examples/demo/src/tests/laplace.rs:26-42 | the iteration is the Jacobi step for all buffers if and only if the grid is square or has at most two rows or columns |
| Laplace.TallGridFails | examples/demo/src/tests/laplace.rs:27-27 | with fewer columns than rows, all-zero input leaves cell (1, 1) unwritten |
| Laplace.WideGridFails | examples/demo/src/tests/laplace.rs:27-27 | with one column more than rows, an input on which cell (1, 1) gets another cell's mean |
| Laplace.RoundsRefineIterate | examples/demo/src/tests/laplace.rs:45-61 | any number of iterate-and-swap rounds refines as many Jacobi iterations |
| Laplace.Compute | examples/demo/src/tests/laplace.rs:45-61 | both buffers after any number of rounds, which of them is current, and the residual returned |
| Laplace.Demo | examples/demo/src/tests/mod.rs:194-216 | succeeds exactly when the residual of the 1000th iterate is below 0.01, and does succeed on every square grid up to 151 by 151 |
| Connection.SendMessage | benches/netbench/src/connection.rs:14-25 | the bytes on the wire are a prefix of wbuf in order and without gaps, as long as the replies carry it; WouldBlock is retried, the loop panics exactly when it meets an error, stops calling when n_bytes are sent, and completes whenever the replies before the first error move n_bytes |
| Connection.ReceiveMessage | benches/netbench/src/connection.rs:29-41 | the front of rbuf is what arrived, in order, as much as the replies carry, and the rest of rbuf is unchanged; WouldBlock, errors and completion as for sending, when n_bytes have arrived |
| Echo.RunInv | benches/netbench/src/connection.rs:14-41 | in every interleaving of both sides each message is split, in order, over the reader's buffer, the channel and the writer's rest |
| Echo.InFlight | benches/netbench/src/connection.rs:14-41 | at most n_bytes are in flight in both directions together |
| Echo.RoundEchoes | benches/netbench/src/rust-tcp-latency/client.rs:42-46 | when the client ends a round, rbuf equals the message it sent in that round |
| Echo.Progress | benches/netbench/src/rust-tcp-latency/server.rs:23-26 | in every reachable unfinished state some side can move a byte or leave a loop, for every channel capacity from 1 up |
| Echo.BusyStepsBounded | benches/netbench/src/rust-tcp-latency/server.rs:23-26 | no run makes more than 2 R (2 n_bytes + 2) such steps in R rounds, so both sides finish |

## Left out

- Values of `f32` and `f64` beyond exact integers: no statement about rounded fractions; the solver
  is over the reals, so `Residuals.DemoConverges` does not bound its floating-point error.
- The interleaving results place every scratch buffer of a call at its own fixed range of one memory;
  that fresh allocations do not overlap is the allocator's contract. A copied buffer is one store per
  element, in any order, which covers both halves of the recursive copy.
- Loads and stores below the level of one store statement, and weak memory: atomics are sequentially
  consistent, and one store with the loads of its right-hand side is one step.
- MatMul.SeqMatMulZ: requires m at most 15, because beyond that the 32-bit masks make the counter run
  forever (`SplayedCounter.TerminatesIff`); lengths that fail the asserted guard panic in the source
  and are not modelled further than `Bits.LengthGuard`.
- Laplace.Iteration: runs the parallel chunks one after the other; `Laplace.AnyCellOrder` covers
  every other order of their stores.
- Laplace.GetResidual: adds the rows in order; over the reals the order of the parallel sum does not
  matter.
- Shapes on which a chunk is indexed past its end panic in the source; `Laplace.InBounds` excludes them.
- The TCP library, `async_task` and the kernel calls are contracts, stated above.
- `block_on`, `poll_on` and `run_executor` are program counters of a step relation and not loops,
  because several threads, wakers and network steps interleave inside them.
- Runtime.NoLostWakeup: safety only; that a latched or pending kernel call is eventually made depends
  on the kernel's scheduler.
- `block_on` with a timeout sleeps for the network delay and not for the rest of the timeout, so a call
  may end late; when a limited sleep expires is left open, and only its having a limit is stated.
- A thread waits on one future at a time; `close` is its two waits one after the other.
- SocketWakers.SocketStepsAreThreadSteps: a write is covered for threads in `poll_on` only, because
  of `SocketWakers.WriteAnswerMissedIff`.
- That a queued task is popped: a queue with a task in it is run by the next thread that reaches
  `run_executor`; with no such thread it stays queued.
- Address parsing, keep-alive and endpoints in `connect` and `accept`, DHCP, re-initialisation of the
  interface, and `device.rs`.
- `Shutdown::Read`, peek, non-blocking and time-to-live stubs, thin wrappers over the futures.
- End of stream in the echo loops: the connection stays open; a read of zero bytes makes the
  source's loop spin.
- Command-line parsing, timing, histograms, printing, and the other demos and benchmarks.
