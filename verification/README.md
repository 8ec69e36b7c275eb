# A verified model of the certification pipeline

Transfers enter the pipeline in blocks, are dealt into lanes, queued, rejoined, proved and applied to
a ledger once; their batches are proved to preserve the sum of all balances, and the proofs are
checked off chain and on chain. This project models that story in Dafny and proves what the parts
promise, over every interleaving, every input and every run. `dafny verify dfyconfig.toml` checks it.

## How it is modelled

**The ring** (`RingProtocol`, `RingSafety`, `RingFifo`, `RingProgress`, `RingSingle`, `RingWrap`,
`RingRuns`, `RingQueue`). Every atomic load, compare-and-swap, plain access and store of `Enqueue`
and `Dequeue` is one step of one of any number of threads, and a schedule is any sequence of steps.
The tickets are unbounded first; `RingWrap` then shows that the 64-bit ring is the same machine
modulo 2^64, step by step, if and only if no thread is misled by its words when it compares, and
says which threads are. `RingSingle` is the ring with one enqueuing thread, which is how the
pipeline uses each of its queues. `RingRuns` holds runs given by their schedules: failed calls that
do not mean empty or full, and threads that sleep through any number of tickets. `RingQueue` is the
object itself, with its cells and 64-bit counters updated in place, called one operation at a time.

**The pipeline and its ledger** (`Frame`, `L1`, `L1Runs`, `Pipeline`, `PipelineSafety`,
`PipelineLedger`, `PipelineOrder`, `PipelineReport`, `PipelineConserves`, `PipelineDrain`,
`PipelineProgress`, `PipelineCancel`). Ingress, sequencer,
aggregator and replayer are four program counters over three bounded FIFO queues. A poll of such a
queue is one step that fails exactly when the queue is empty. For the ring in general that is false;
it holds for these because each has one enqueuing and one dequeuing thread: the published values are
then a first-in first-out queue, appended to by the store that publishes and shortened by the
winning dequeue (`RingSingle.PublishedIsFifo`), and a dequeue fails exactly when that queue was
empty at the instant it loaded its cell's sequence (`RingSingle.PollFailsExactlyOnEmpty`). An
enqueue may fail even when there is room, as the ring's may. Each enqueue, dequeue and test of a
done flag is a separate step, and a cancellation may come at any step. SHA-256 is a function
parameter, and the loaded proof dataset is part of the configuration, whether it agrees with the seed or
not. The ledger is a class whose one method is tied to a function, and the theorems are about
sequences of that function's results.

**The commit-and-prove algebra** (`Group`, `Transcript`, `CompDLEq`, `AmComEq`, `CompAmComEq`,
`Pedersen`, `Groth`, `SumBatch`). A group element is its discrete logarithm, so scaling is a product,
a multi-scalar multiplication an inner product (cut to the shorter list, as the library does) and a
pairing a product. A residue class modulo the group order is represented by any of its integers;
`Same` is equality of classes, and every comparison and every byte that is hashed goes through the
class. An identity proved of all integers therefore holds in the field. The order is that of BN254,
and no theorem uses that it is prime; where a proof needs inverses they come as a function that is
right on nonzero elements. Keccak and the coordinates of points are function parameters, and what a
challenge binds is stated with the collision that would break it. The point at infinity has no
coordinates; absorbing it panics, and a panic is an outcome of the linker's provers and verifiers beside
a value and an error.

**The contract's lane heads** (`LaneHeads`). A transaction that reverts is an operation that gives
nothing; the class restores its storage then. The batch verifier refuses everything until its
administrator sets its key, once, at any point of a run; what a key accepts is a parameter.

## What the proofs found

- `Dequeue` can report "empty" for a queue that is not, and `Enqueue` "full" for one that is not; two
  runs show it. In every reachable state the test of `Dequeue` fails if and only if the queue is empty
  or the head's enqueuer has yet to publish, and the test of `Enqueue` if and only if the queue is full
  or the dequeuer of a lap ago has yet to release; and a call fails if and only if that was so at the
  instant it loaded its cell's sequence.
- The 64-bit ring parts from the ring of unbounded tickets exactly at the first step of a misled thread.
  A thread that loaded its own ticket's sequence is misled if and only if it was overtaken by a positive
  multiple of 2^64 tickets; one that loaded a later lap's sequence, if and only if that is at least 2^63
  ahead modulo 2^64, or both distances are multiples of 2^64. Sleeping through any other number of
  tickets is harmless.
- The done flags are tested after the failed dequeue, so the last block can be left in a queue of a
  run that ends normally. `LastBlockCanBeLeftBehind` is such a run. An uncancelled run that ends has
  submitted everything if and only if each stage's exiting poll came after the last enqueue of the
  stage before it; a poll that starts after the flag was raised always does. There is no deadlock: a
  reachable uncancelled state can still be brought to a run that submits everything, if and only if no
  stage has left, or is bound to leave, on a poll that came too early.
- A cancellation stops every stage after boundedly many moves of its own, whatever the others do.
- With more than 65536 lanes the 16-bit lane ids repeat and no block is ever completed.
- `DropCount` also counts retries: it is exactly the transfers dropped for a zero amount plus the failed
  enqueues that were tried again, so it counts dropped transfers alone if and only if nothing was ever
  tried again. A run counts a drop and drops nothing.
- The refusal of a conflicting resubmission is logged with a failed proof, so the report counts it as
  a proof failure even when its proof is good. The failures are exactly the conflicts and the bad
  proofs of the certification phase; they are the bad proofs alone if and only if no submission with a
  good proof conflicts.
- `rerandomize_proof` adds the eta term in C where its prover subtracts it. Its comment promises a
  fresh proof of the same statement; in fact the pairing equation is shifted by exactly
  `-2 * r3 * eta` (scaled by the two generators). Whatever nonzero factors are drawn, an accepted proof
  stays accepted if and only if the key's eta element vanishes in the pairing. With the prover's sign
  the verdict is kept.
- In the one-shot fold the bit index is decremented once past zero if and only if the top bit is set, and
  starts below zero for an empty challenge list. It is modelled as an integer; the code relies on wrapping.
- The linker reads the coordinates of every point it absorbs and panics at the point at infinity. So its
  completeness has exceptions: the prover panics if and only if it meets one, among the instance, its
  commitment and the commitments of its rounds. With the zero witness a true instance has no proof,
  whatever the generators. In every other case the verdicts below are exact.
- The masks hide which witness was used: any proof made from one valid witness, compressed or not, can
  be made from every other one. Two accepted responses to one commitment give the witness away.
- The sigma protocol's `verify_proof` asserts its equations before comparing them, so it panics where
  it could return false.
- An accepted artifact may end at the point (0, 0), which the contract also reads as "not set"; the lane
  can then be initialized again. A head that is set moves only along accepted artifacts.
- The batch challenge refuses points at infinity; the contract does not. The two verifiers agree on an
  artifact if and only if none of its three points is at infinity, and the contract accepts one that is.

## Model

| member | source | states |
|---|---|---|
| `Words.WrappedDifference` | internal/queue/ring.go:48-48 | the signed 64-bit difference of two wrapped counters is the true difference if and only if that lies within 2^63 |
| `Words.PowerOfTwoTest` | internal/queue/ring.go:29-29 | `n & (n - 1)` is zero exactly for the powers of two |
| `Words.MaskIsModulo` | internal/queue/ring.go:46-46 | masking by a power of two minus one is the remainder |
| `RingSafety.AlwaysInv` | internal/queue/ring.go:43-87 | for any number of threads and any schedule, the invariant relating every cell's sequence, both counters, every thread's position and the delivered values holds |
| `RingSafety.StepKeeps` | internal/queue/ring.go:43-87 | every step of every thread keeps that invariant |
| `RingFifo.RefinesFifo` | internal/queue/ring.go:51-53 | the winning compare-and-swaps append to and remove from an abstract bounded queue, and no other step changes it |
| `RingFifo.NoSharedCell` | internal/queue/ring.go:52-76 | two threads never hold the same cell's plain value at once |
| `RingFifo.DeliversWhatWasEnqueued` | internal/queue/ring.go:65-80 | the dequeue of ticket p returns the value the enqueue of ticket p was called with, and each ticket is delivered once |
| `RingFifo.NothingLost` | internal/queue/ring.go:43-87 | with nothing in flight, the delivered tickets are exactly those before the head and the cells hold exactly the rest in order |
| `RingFifo.FailureIsExact` | internal/queue/ring.go:49-82 | in every reachable state, whatever is in flight: the dequeue test fails if and only if the queue is empty or its head's enqueuer has not published, the enqueue test if and only if it is full or the dequeuer of a lap ago has not released |
| `RingFifo.QuietFailureIsExact` | internal/queue/ring.go:57-82 | with nothing in flight, the failure tests hold exactly for the empty and the full queue |
| `RingFifo.LengthLagsByInFlight` | internal/queue/ring.go:54-91 | always, `length` is the counters' difference minus the enqueuers in flight plus the dequeuers in flight |
| `RingFifo.QuietLengthIsExact` | internal/queue/ring.go:89-91 | with nothing in flight, `length` is the number of queued values |
| `RingProgress.EnqueueFailure` | internal/queue/ring.go:45-58 | an attempt to enqueue returns false if and only if, at the instant it loaded the sequence, its ticket was next and the queue was full or the cell's last dequeuer still at work |
| `RingProgress.DequeueFailure` | internal/queue/ring.go:68-82 | an attempt to dequeue returns false if and only if, at the instant it loaded the sequence, its ticket was next and the queue was empty or the ticket's enqueuer had not published |
| `RingProgress.RetryHasRival` | internal/queue/ring.go:44-86 | every retry is caused by another thread winning the same counter since this thread loaded it |
| `RingProgress.SomeCallCompletes` | internal/queue/ring.go:43-87 | among n threads, under any schedule, some call completes within n(4n+12)+1 steps |
| `RingProgress.AloneEnqueueReturns` | internal/queue/ring.go:43-63 | from any reachable state an enqueuer running alone returns in one iteration, with the right answer |
| `RingProgress.AloneDequeueReturns` | internal/queue/ring.go:65-87 | likewise a dequeuer |
| `RingWrap.StepCommutesWithWrap` | internal/queue/ring.go:43-87 | one step with 64-bit words is the wrapped step of the unbounded ring if and only if the thread is not misled, for every place a thread can stand |
| `RingWrap.SimulatesExactlyWhenNotMisled` | internal/queue/ring.go:43-87 | under any schedule the 64-bit ring is the wrapped unbounded ring after every step, across any number of wraparounds, if and only if no step is one of a misled thread |
| `RingWrap.WrappedRingSimulates` | internal/queue/ring.go:43-87 | in particular it is when no thread sleeps through 2^63 tickets before it compares |
| `RingRuns.DequeueFailsOnNonEmptyQueue` | internal/queue/ring.go:81-82 | a run in which an enqueue has returned, nothing was dequeued, and a dequeue returns false |
| `RingRuns.EnqueueFailsOnNonFullQueue` | internal/queue/ring.go:57-58 | a run in which an enqueue returns false with one value in a ring of two |
| `RingRuns.SleepingPartsAtLapsOfWords` | internal/queue/ring.go:44-56 | for every j, a run in which a thread sleeps before its compare-and-swap while j values pass: until then the words follow the tickets, and its next step parts them if and only if j is a positive multiple of 2^64 |
| `RingRuns.SleepingThroughALapOfWords` | internal/queue/ring.go:44-56 | for j = 2^64 the thread retries with tickets and wins with words |
| `RingSingle.PublishedIsExact` | internal/queue/ring.go:68-82 | in every reachable state with one enqueuing thread, the dequeue test fails if and only if the published queue is empty |
| `RingSingle.PublishedIsFifo` | internal/queue/ring.go:52-71 | the published queue is appended to by the sequence store only, and its head is taken by the winning dequeue only |
| `RingSingle.PollFailsExactlyOnEmpty` | internal/queue/ring.go:65-87 | with one enqueuing and one dequeuing thread, a dequeue returns false if and only if the published queue was empty when it loaded the sequence, and otherwise wins the head without a retry |
| `RingQueue.NewRing` | internal/queue/ring.go:28-41 | succeeds exactly for the powers of two from 2 up, with an empty queue of that capacity |
| `RingQueue.RingQueue.Enqueue` | internal/queue/ring.go:43-63 | appends unless full, and says which; the in-place cells and counters keep their invariant |
| `RingQueue.RingQueue.Dequeue` | internal/queue/ring.go:65-87 | removes the oldest value unless empty, and says which |
| `RingQueue.RingQueue.Len` | internal/queue/ring.go:89-91 | the number of queued values |
| `Frame.TxRoundTrip` | internal/frame/frame.go:32-49 | a transaction survives its 12 bytes |
| `Frame.EncodeTxSlice` | internal/frame/frame.go:51-63 | the buffer filled through the moving offset is the concatenation of the encodings |
| `Frame.DecodeTxSlice` | internal/frame/frame.go:65-83 | refuses lengths that are not multiples of 12 and otherwise reads 12 bytes at a time |
| `Frame.DecodeEncode` | internal/frame/frame.go:51-83 | decoding inverts encoding, for every list |
| `Frame.EncodeDecode` | internal/frame/frame.go:51-83 | encoding inverts decoding, for every accepted payload |
| `Frame.TxNumbers` | internal/frame/frame.go:32-49 | a transaction is three little-endian numbers in four bytes each; any other length is refused |
| `Frame.DecodedAt` | internal/frame/frame.go:65-83 | transaction i of an accepted payload is those at byte 12 i |
| `Frame.MarshalBinary` | internal/frame/frame.go:97-118 | fills header and payload in place as the frame format says |
| `Frame.Batch.UnmarshalBinary` | internal/frame/frame.go:120-152 | accepts exactly what the parser accepts, and says which receiver fields a refused payload leaves changed |
| `Frame.ParseMarshal` | internal/frame/frame.go:97-152 | parsing inverts marshalling for every frame with fewer than 2^32 transactions |
| `Frame.MarshalParse` | internal/frame/frame.go:97-152 | re-marshalling an accepted payload restores it except that bytes 14 and 15 become zero |
| `Frame.ParsesExactly` | internal/frame/frame.go:120-152 | each of the four refusals has exactly its cause, in the order of the tests, and the fields of an accepted frame are the little-endian numbers at their bytes |
| `Frame.LengthIsBound` | internal/frame/frame.go:140-143 | every proper prefix and every extension of an accepted frame is refused |
| `Frame.BlockPreimageInjective` | internal/pipeline/types.go:103-109 | the bytes hashed for a block determine its index and its transactions |
| `Frame.BlockPreimageLayout` | internal/pipeline/types.go:103-109 | those bytes are the little-endian index and then the payload |
| `Frame.LanePreimageInjective` | internal/pipeline/types.go:72-92 | the bytes hashed for a block's lanes determine the whole lane-hash map |
| `Frame.LanePreimageAt` | internal/pipeline/types.go:82-90 | entry i of those bytes, at 34 i, is the little-endian lane and its hash |
| `Frame.AggregateCommitment` | internal/pipeline/types.go:72-92 | fails on the empty map and otherwise hashes the sorted lanes |
| `Frame.LaneHashesAscend` | internal/pipeline/types.go:76-80 | the lanes are hashed in ascending order, each once |
| `Frame.LaneHashesAreTheMap` | internal/pipeline/types.go:76-90 | every lane of the map is among them, with its hash, and no other |
| `L1.L1CertNode.SubmitCertifiedBlock` | internal/pipeline/l1.go:42-203 | new state and answer, reason included, in all five outcomes: duplicate, conflict, bad payload, bad proof, accepted |
| `L1.AnswersExactly` | internal/pipeline/l1.go:42-203 | every field of the answer as an if-and-only-if: accepted exactly when proof and payload are good and the node then holds the block, first accepted exactly when the version is bumped, each reason with its one cause |
| `L1.LogsExactly` | internal/pipeline/l1.go:42-203 | one entry is logged per submission: the data of the request, the verdict as answered, and version and count of the block it is about |
| `L1.L1CertNode.ApplyAll` | internal/pipeline/l1.go:229-242 | the in-place loop applies the transfers in order and returns the number of distinct accounts touched |
| `L1.TransferMoves` | internal/pipeline/l1.go:229-242 | one transfer debits the sender and credits the receiver in 64 bits; a transfer to oneself changes nothing |
| `L1.TouchedAre` | internal/pipeline/l1.go:229-242 | the accounts counted as touched are exactly the senders and receivers |
| `L1.AccountsAreTouched` | internal/pipeline/l1.go:229-242 | the accounts the state holds afterwards are those it held and those touched |
| `L1.ApplyTxsIsBalance` | internal/pipeline/l1.go:229-242 | each 64-bit balance is the ideal ledger's modulo 2^64 |
| `L1.BalanceOrderFree` | internal/pipeline/l1.go:229-242 | balances depend on the multiset of transfers only |
| `L1Runs.AlwaysNodeOk` | internal/pipeline/l1.go:42-203 | after any submissions the node is exactly what its applied submissions make it |
| `L1Runs.BalancesAreTheLedgers` | internal/pipeline/l1.go:169-242 | balances are those of a ledger over the accepted blocks, exactly while fewer than 2^31 transfers were applied |
| `L1Runs.MoneyIsConserved` | internal/pipeline/l1.go:229-242 | all balances sum to zero modulo 2^64, and to zero while fewer than 2^31 transfers were applied |
| `L1Runs.VersionsAndMetrics` | internal/pipeline/l1.go:169-193 | the state version is the number of accepted blocks and of state-changing log entries, these are numbered 1 to n, and the metric is the sum of accepted counts |
| `L1Runs.BlockRecords` | internal/pipeline/l1.go:172-177 | an accepted block records its own version, its count and how many distinct accounts it touched |
| `L1Runs.ResubmissionCanBeDeleted` | internal/pipeline/l1.go:68-117 | deleting a submission for an accepted index from any history changes no later state, no later answer, and of the log only its own entry |
| `L1Runs.AppliedAgainIsAccepted` | internal/pipeline/l1.go:68-93 | an applied request submitted again, at any later time, is answered accepted, duplicate, proof good and finalized |
| `L1Runs.AcceptedDuplicateIsTheSame` | internal/pipeline/l1.go:69-93 | an accepted duplicate carries the transactions that were applied, or the two payloads are a collision of the hash |
| `L1Runs.AcceptanceOrderDoesNotMatter` | internal/pipeline/l1.go:169-178 | histories that accept the same blocks in any order end with the same balances |
| `L1Runs.BuildReport` | internal/pipeline/runner.go:357-372 | the loop computes the three certification totals of the log |
| `L1Runs.ReportAgreesWithLedger` | internal/pipeline/runner.go:357-372 | the totals count exactly the blocks first accepted in the certification phase, and never exceed the metric; the failures are exactly that phase's conflicts and bad proofs |
| `L1Runs.FailuresAreBadProofsExactlyWhen` | internal/pipeline/runner.go:369-371 | the failures are the bad proofs if and only if no submission with a good proof conflicts with a stored block, and otherwise more |
| `L1Runs.GoodProofReportedAsFailure` | internal/pipeline/l1.go:94-106 | two submissions with good proofs, one of them reported as a proof failure |
| `Pipeline.SplitIntoLanes` | internal/pipeline/runner.go:191-196 | the round-robin loop gives each lane its transfers, in order |
| `PipelineOrder.LaneOfAt` | internal/pipeline/runner.go:191-196 | entry k of a lane is the transfer at lane + k * lanes |
| `Pipeline.AddValid` | internal/pipeline/runner.go:262-269 | the loop appends the valid transfers, counts them in 32 bits and counts the dropped ones |
| `Pipeline.Aggregation.Receive` | internal/pipeline/runner.go:247-281 | one batch enters the table of open blocks in place, and the finished block comes out with its last lane |
| `Pipeline.Aggregation.Process` | internal/pipeline/runner.go:247-287 | a finished block is handed to the commit queue and leaves the table; an unfinished one stays |
| `Pipeline.ProofBook.EnsureBlock` | internal/pipeline/proof.go:33-40 | returns the stored proof or generates and stores it; a consistent book stays consistent |
| `PipelineSafety.BookHoldsTheProofs` | internal/pipeline/runner.go:311-317 | on every run, whatever proofs were loaded: the book holds these and those of the submitted blocks, loaded or else generated, and what is sent is the proof, with the first byte inverted exactly at the configured fault |
| `PipelineSafety.LaneHashIsOfItsFrame` | internal/pipeline/types.go:94-101 | a lane is hashed as a frame that parses back to its block, its lane and its payload, without flags |
| `PipelineSafety.LaneHashBinds` | internal/pipeline/runner.go:259-260 | equal lane hashes are of the same block, lane and payload, or a collision |
| `PipelineSafety.AlwaysInv` | internal/pipeline/runner.go:125-331 | in every reachable state, cancelled or not, each queue and hand holds exactly the next stretch of the stream of jobs, batches and commits, at most one block is open, and the node has run exactly the submissions |
| `PipelineSafety.AbsorbNext` | internal/pipeline/runner.go:247-269 | one more lane turns the block in progress into the next one |
| `PipelineSafety.QueuesAlwaysFit` | internal/pipeline/runner.go:41-49 | no queue ever holds more than its capacity |
| `PipelineLedger.RejoinedIsNonZero` | internal/pipeline/runner.go:191-269 | splitting into any number of lanes and rejoining keeps every valid transfer exactly once |
| `PipelineLedger.RequestIsGood` | internal/pipeline/runner.go:271-326 | every request has its job's phase and index and a correct payload, and the node refuses its proof exactly when the one sent is bad |
| `PipelineLedger.BadExactlyAtTheFault` | internal/pipeline/runner.go:311-317 | when the loaded proofs agree with the seed, the only bad proof is that of the configured block, and never that of block 0 |
| `PipelineLedger.PipelineIsTheSequentialLedger` | internal/pipeline/runner.go:173-331 | at every moment of every run, for 1 to 65536 lanes and whatever proofs were loaded, the balances are those of a sequential ledger over the first jobs, as many as were submitted, without the blocks sent with a bad proof; dropping zero amounts makes no difference |
| `PipelineLedger.LanesDoNotMatter` | internal/pipeline/runner.go:191-282 | runs with different lane counts, queue sizes and schedules agree once they have submitted equally many blocks |
| `PipelineLedger.BlocksArriveInOrder` | internal/pipeline/runner.go:271-328 | block indices reach the node as 0, 1, 2, ..., each with its job's phase, the number of its valid transfers and these transfers, never as duplicates |
| `PipelineOrder.TransfersArriveInOrder` | internal/pipeline/runner.go:191-282 | in every run a submitted block holds the valid transfers of its job sorted by lane and then by index, each at its exact place |
| `PipelineReport.ReportIsTheJobs` | internal/pipeline/runner.go:357-372 | at every moment of every run the report counts the valid transfers and the number of the certification jobs submitted with a good proof, and one failure exactly for each with a bad one |
| `PipelineLedger.LateRunsApplyEveryBlock` | internal/pipeline/runner.go:182-309 | an uncancelled run whose stages all leave on a late poll ends with the whole ledger |
| `PipelineConserves.TransfersAreConserved` | internal/pipeline/runner.go:125-331 | at every moment each transfer occurs in the queues, hands, open block, submissions and discards together exactly as often as in the blocks that entered |
| `PipelineConserves.LanesHoldEverything` | internal/pipeline/runner.go:191-215 | the lanes of a job together hold each of its transfers exactly as often as it does |
| `PipelineConserves.DropsAreZerosAndRetries` | internal/pipeline/runner.go:147-285 | on every run the drop counter is the number of transfers dropped for a zero amount plus the failed enqueues tried again; every other failed enqueue was given up or still waits |
| `PipelineConserves.DropsCountZerosExactlyWhen` | internal/pipeline/runner.go:147-285 | the counter is the number of dropped transfers if and only if no enqueue was ever tried again, and only a cancellation abandons others |
| `PipelineConserves.DropCountedNothingDropped` | internal/pipeline/runner.go:147-155 | a run with one drop counted and nothing dropped |
| `PipelineDrain.LatePollsDrain` | internal/pipeline/runner.go:182-309 | when every stage leaves on a poll that failed after its upstream was done, everything that entered has been submitted |
| `PipelineDrain.DrainedExactlyWhenPolledAfterLast` | internal/pipeline/runner.go:182-309 | an uncancelled run with all stages stopped has submitted every block if and only if each stage's exiting poll saw all its upstream ever enqueued |
| `PipelineDrain.SequencerPolledAt` | internal/pipeline/runner.go:182-186 | what the sequencer's exit remembers was so at the moment of its poll: the queue empty, flag and count of ingress as recorded |
| `PipelineDrain.AggregatorPolledAt` | internal/pipeline/runner.go:238-241 | likewise the aggregator's exit |
| `PipelineDrain.ReplayerPolledAt` | internal/pipeline/runner.go:302-305 | likewise the replayer's exit |
| `PipelineDrain.LastBlockCanBeLeftBehind` | internal/pipeline/runner.go:182-190 | a run that ends normally with its only block still queued |
| `PipelineDrain.TooManyLanesNeverCommit` | internal/pipeline/runner.go:202-271 | with more than 65536 lanes nothing is ever committed |
| `PipelineCancel.CancellationStops` | internal/pipeline/runner.go:132-299 | after a cancellation, whatever the schedule, a stage that moves as often as there are lanes, and three times more, has stopped and raised its flag |
| `PipelineProgress.CanDrainExactlyWhenHopeful` | internal/pipeline/runner.go:125-331 | with queues of positive capacity, a reachable uncancelled state extends to a run that submits every block if and only if no stage has left, or is bound to leave, on a poll before its upstream's last enqueue |
| `PipelineProgress.EveryConfigurationDrains` | internal/pipeline/runner.go:125-331 | every configuration has a run that submits everything |
| `Group.DotScale` | rust/vectis-prover/src/crypto/commitment/pedersen/mod.rs:27-33 | a multi-scalar multiplication is linear |
| `Transcript.SHA3Base.AppendItem` | rust/vectis-prover/src/crypto/protocol/transcript/sha3.rs:19-24 | the buffer grows by the label, if used, and the item |
| `Transcript.SHA3Base.ChallengeScalar` | rust/vectis-prover/src/crypto/protocol/transcript/sha3.rs:26-37 | the challenge is the reduced hash, and only its 32 bytes remain |
| `Transcript.ChallengeIsTheHash` | rust/vectis-prover/src/crypto/protocol/transcript/sha3.rs:19-37 | the challenge is the big-endian hash of all that was absorbed, labels included, modulo the order, and the transcript then holds exactly it |
| `Transcript.DrawsBind` | rust/vectis-prover/src/crypto/protocol/transcript/sha3.rs:26-37 | equal challenges come from equal absorbed bytes or from a collision modulo the order |
| `Transcript.BytesKeepTheScalar` | rust/vectis-prover/src/crypto/protocol/transcript/sha3.rs:33-36 | the bytes carried over determine the previous challenge |
| `Transcript.PointsBytesRespectSame` | rust/vectis-prover/src/linker/comp_dl_eq/verifier.rs:109-131 | what is absorbed depends on the group elements, not on their representatives |
| `Transcript.PointBytesAt` | rust/vectis-prover/src/linker/comp_dl_eq/verifier.rs:109-131 | a point is absorbed as x and then y, both big-endian, byte by byte |
| `Transcript.PointsBytesBind` | rust/vectis-prover/src/linker/comp_dl_eq/verifier.rs:109-131 | equal absorbed bytes are the same group elements, given that coordinates identify finite points |
| `CompDLEq.CreateProof` | rust/vectis-prover/src/linker/comp_dl_eq/prover.rs:64-98 | the halving loop computes the recursive rounds and leaves their transcript, also when it fails on a length mismatch or panics at a point at infinity |
| `CompDLEq.ProverFailsExactlyWhen` | rust/vectis-prover/src/linker/comp_dl_eq/prover.rs:64-98 | the prover returns an error if and only if the generators differ in length, or there is a round to do and the padded witness does not have their length |
| `CompDLEq.Padded` | rust/vectis-prover/src/linker/comp_dl_eq/generator.rs:26-32 | the witness is padded to the least power of two, and kept as it is at a power of two |
| `CompDLEq.BitProduct` | rust/vectis-prover/src/linker/comp_dl_eq/verifier.rs:57-68 | the loop over the bits multiplies the challenges the bits select, and leaves its index below zero if and only if the top bit is set or there are no challenges |
| `CompDLEq.FactorTable` | rust/vectis-prover/src/linker/comp_dl_eq/verifier.rs:54-72 | the reversed bit-product table is the table of halving factors |
| `CompDLEq.FactorsAreSelected` | rust/vectis-prover/src/linker/comp_dl_eq/verifier.rs:54-72 | entry by entry, the halving factor is the bit product at the mirrored index |
| `CompDLEq.FoldIsIteratedHalving` | rust/vectis-prover/src/linker/comp_dl_eq/verifier.rs:48-107 | the one-shot even/odd fold equals halving once per challenge, for every generator vector of length 2^(k+1) and every k challenges |
| `CompDLEq.RoundKeepsTheProduct` | rust/vectis-prover/src/linker/comp_dl_eq/generator.rs:35-80 | one round turns the inner product into the updated instance's, for every witness |
| `CompDLEq.RoundsScaleTheGap` | rust/vectis-prover/src/linker/comp_dl_eq/prover.rs:64-98 | the prover panics if and only if a round commitment has a point at infinity; otherwise prover and verifier draw the same challenges and keep the same transcript, there are exactly k rounds, and the instance's error is scaled by their product |
| `CompDLEq.VerifyProof` | rust/vectis-prover/src/linker/comp_dl_eq/verifier.rs:14-45 | the outcome, panics and errors included, and the transcript left |
| `CompDLEq.VerifierPanicsExactlyWhen` | rust/vectis-prover/src/linker/comp_dl_eq/verifier.rs:14-131 | the verifier panics if and only if the lengths it tests first are right and the proof holds, in any of the four places of a commitment, a point at infinity or does not have one commitment per halving |
| `CompDLEq.ChallengesBind` | rust/vectis-prover/src/linker/comp_dl_eq/verifier.rs:109-131 | equal lists of challenges drawn from one transcript bind all four points of every commitment, round by round, or what was hashed for a round is a collision |
| `CompDLEq.VerdictOnHonestProof` | rust/vectis-prover/src/linker/comp_dl_eq/verifier.rs:14-45 | for every witness that pads to the generators' length: the prover panics if and only if it computes a point at infinity; otherwise its proof is accepted if and only if both errors of the unpadded witness, times all challenges, vanish |
| `CompDLEq.Completeness` | rust/vectis-prover/src/linker/comp_dl_eq/prover.rs:64-98 | every proof for a true instance is accepted, and there is one unless a point at infinity is computed |
| `CompDLEq.TrueInstanceWithoutProof` | rust/vectis-prover/src/linker/comp_dl_eq/verifier.rs:109-131 | for all generators, a true instance on which the prover panics |
| `AmComEq.ComputePowersOfX` | rust/vectis-prover/src/linker/am_com_eq/verifier.rs:91-118 | the loop gives 1, x, x^2, ..., one per piece, for the drawn x; a point of the instance at infinity panics |
| `AmComEq.WeightsArePowers` | rust/vectis-prover/src/linker/am_com_eq/verifier.rs:111-117 | piece i is weighted with the challenge to the power i |
| `AmComEq.DrawnUnlessInfinite` | rust/vectis-prover/src/linker/am_com_eq/verifier.rs:91-134 | the two draws panic if and only if one of the points they absorb, each named, is at infinity |
| `AmComEq.InstanceBinds` | rust/vectis-prover/src/linker/am_com_eq/verifier.rs:91-109 | equal first challenges bind every commitment of the instance, or there is a collision |
| `AmComEq.CommitmentBinds` | rust/vectis-prover/src/linker/am_com_eq/verifier.rs:120-134 | equal second challenges bind both points of the commitment, or there is a collision |
| `AmComEq.CommitmentIsTwoPoints` | rust/vectis-prover/src/linker/am_com_eq/verifier.rs:124-132 | the reversed coordinates absorbed for the commitment are those of its two points in turn |
| `AmComEq.AggregateByIndex` | rust/vectis-prover/src/linker/am_com_eq/verifier.rs:50-62 | the sums indexed by `d0 * i + j` are the weighted sum of the pieces |
| `AmComEq.CreateProof` | rust/vectis-prover/src/linker/am_com_eq/prover.rs:138-163 | commitment, responses and transcript of the prover, for given randomness, panics included |
| `AmComEq.StretchIsAggregate` | rust/vectis-prover/src/linker/comp_am_com_eq/generator.rs:26-36 | scaling the generators by the powers gives the same inner product as aggregating the vector |
| `AmComEq.VerdictOnHonestProof` | rust/vectis-prover/src/linker/am_com_eq/verifier.rs:14-88 | the prover panics if and only if the instance or its commitment has a point at infinity; otherwise, for any witness, the verifier accepts if and only if both misses, times the challenge, vanish, and panics if not |
| `AmComEq.Completeness` | rust/vectis-prover/src/linker/am_com_eq/verifier.rs:14-88 | every proof from a valid witness is accepted, whatever the randomness; there is none if and only if a point at infinity is absorbed |
| `AmComEq.WitnessIsHidden` | rust/vectis-prover/src/linker/am_com_eq/prover.rs:88-163 | no proof tells two valid witnesses apart: for any randomness of one there is randomness of the other that gives the same responses, the same group elements and the same transcript |
| `AmComEq.ResponsesGiveTheWitness` | rust/vectis-prover/src/linker/am_com_eq/verifier.rs:14-88 | two accepted responses to one commitment, at different challenges, give one vector that opens the single commitment and, aggregated, the weighted pieces |
| `CompAmComEq.CreateProofWithCombined` | rust/vectis-prover/src/linker/comp_am_com_eq/prover.rs:12-46 | proof and transcript of the compressed prover, failures and panics included |
| `CompAmComEq.VerifyProof` | rust/vectis-prover/src/linker/comp_am_com_eq/verifier.rs:11-37 | outcome and transcript of the compressed verifier, failures and panics included |
| `CompAmComEq.VerifierPanicsExactlyWhen` | rust/vectis-prover/src/linker/comp_am_com_eq/verifier.rs:11-37 | the verifier panics if and only if the response has two entries and the instance or the proof holds a point at infinity or, generators fitting, the number of commitments is not that of the halvings; when it returns an error instead is exact too |
| `CompAmComEq.ReductionIsExact` | rust/vectis-prover/src/linker/comp_am_com_eq/generator.rs:10-70 | the response opens the recursion's instance if and only if the sigma protocol's equations hold |
| `CompAmComEq.VerdictOnHonestProof` | rust/vectis-prover/src/linker/comp_am_com_eq/verifier.rs:11-37 | for every length that is a power of two from 2 up: the prover panics if and only if it meets a point at infinity; otherwise equal transcripts, log2(length) - 1 rounds, two entries left, accepted if and only if both misses, times all challenges, vanish |
| `CompAmComEq.Completeness` | rust/vectis-prover/src/linker/comp_am_com_eq/prover.rs:12-46 | every compressed proof from a valid witness is accepted, and there is one unless the prover meets a point at infinity |
| `CompAmComEq.WitnessStaysHidden` | rust/vectis-prover/src/linker/comp_am_com_eq/prover.rs:12-46 | nor does a compressed proof, the commitments of its rounds included |
| `CompAmComEq.OtherLengthsFail` | rust/vectis-prover/src/linker/comp_dl_eq/verifier.rs:21-23 | for every other length the prover fails or panics, or its proof is refused |
| `Pedersen.Aggregate` | rust/vectis-prover/src/crypto/commitment/pedersen/mod.rs:86-102 | the weighted sum of the commitments, and the power to continue with |
| `Pedersen.ScalarAggregate` | rust/vectis-prover/src/crypto/commitment/pedersen/mod.rs:104-130 | the weighted sum of the vectors, and the power to continue with |
| `Pedersen.CommitAggregates` | rust/vectis-prover/src/crypto/commitment/pedersen/mod.rs:86-130 | aggregating commitments commits to the aggregated vector |
| `Pedersen.AggregationContinues` | rust/vectis-prover/src/crypto/commitment/pedersen/mod.rs:86-102 | the returned power makes two aggregations in sequence equal to one |
| `Pedersen.EnforceEqualIsAggregation` | rust/vectis-prover/src/crypto/commitment/pedersen/constraints.rs:58-95 | for any starting power, the constraints hold exactly when the witness is the scalar aggregation |
| `Groth.CalculateCoeff` | rust/vectis-prover/src/gro/prover.rs:314-332 | the accumulated sum is the query's inner product with the whole assignment plus two terms |
| `Groth.CreateProofWithAssignment` | rust/vectis-prover/src/gro/prover.rs:92-181 | the accumulated proof elements are the prover's formulas, including the case r = 0 |
| `Groth.PrepareInputs` | rust/vectis-prover/src/gro/verifier.rs:21-35 | refuses exactly a wrong number of inputs and otherwise gives the first base plus the inner product of the others with the inputs |
| `Groth.VerifiesExactlyWhen` | rust/vectis-prover/src/gro/verifier.rs:21-80 | any proof is accepted if and only if the number of inputs fits and the pairing of A and B is that of the key, of D with the inputs, and of C |
| `Groth.GeneratesExactlyWhen` | rust/vectis-prover/src/gro/generator.rs:122-123 | there is a key if and only if neither gamma nor delta is zero |
| `Groth.DwithInputs` | rust/vectis-prover/src/gro/generator.rs:125-223 | the slices of the key line up: commitment, aggregation and inputs together cover the first part of the assignment |
| `Groth.HonestResidual` | rust/vectis-prover/src/gro/prover.rs:92-181 | for any assignment, randomness and opening, the pairing equation is off by exactly the QAP error, scaled by the generators |
| `Groth.KeysAreEtaBalanced` | rust/vectis-prover/src/gro/generator.rs:198-218 | both eta elements of a generated key carry the same value into the pairing |
| `Groth.RerandomizeProof` | rust/vectis-prover/src/gro/prover.rs:277-312 | takes the first draw whose three factors are nonzero and returns the four shifted elements |
| `Groth.DrawsShowInTheProof` | rust/vectis-prover/src/gro/prover.rs:277-312 | different usable draws give different proofs: equal A, B and D come from equal factors, unless A or a key element they scale is at infinity |
| `Groth.RerandomizeShifts` | rust/vectis-prover/src/gro/prover.rs:294-304 | the residual of the output is the input's minus 2 * r3 * eta (scaled) |
| `Groth.RerandomizedVerdict` | rust/vectis-prover/src/gro/prover.rs:277-312 | for every usable draw, an accepted proof stays accepted if and only if the key's eta element vanishes in the pairing |
| `Groth.RerandomisationBreaks` | rust/vectis-prover/src/gro/prover.rs:294-304 | a key and an accepted proof whose rerandomisation is refused |
| `Groth.WithTheProversSignItIsKept` | rust/vectis-prover/src/gro/prover.rs:165-304 | with the sign the prover uses the residual is unchanged |
| `SumBatch.NewSlotMap` | rust/vectis-prover/src/hyperl2/state.rs:26-46 | succeeds exactly on nonempty lists without repeats, and gives each account its own slot |
| `SumBatch.BuildStateTransitionBatch` | rust/vectis-prover/src/hyperl2/state.rs:77-126 | succeeds if and only if the three lengths are the transaction count and every address has a slot; the post-state is the transfers applied in place |
| `SumBatch.BuilderIsExact` | rust/vectis-prover/src/hyperl2/state.rs:107-113 | every slot changes by its account's net transfers, self-transfers included, and the sum is preserved |
| `SumBatch.SatisfiedExactlyWhen` | rust/vectis-prover/src/hyperl2/sum.rs:208-252 | whatever aggregation is supplied, the circuit is satisfied if and only if it is entry by entry the states weighted with the challenge and its square, and the sums agree |
| `SumBatch.SatisfiedIffSumsAgree` | rust/vectis-prover/src/hyperl2/sum.rs:208-252 | the circuit is satisfied by the honest aggregation exactly when the two sums agree in the field |
| `SumBatch.PreimageInjective` | rust/vectis-prover/src/hyperl2/challenge.rs:45-64 | different metadata or points hash different bytes, given that different group elements have different coordinates |
| `SumBatch.TauIsTheHash` | rust/vectis-prover/src/hyperl2/challenge.rs:45-64 | the challenge is the big-endian hash, modulo the order, of 235 bytes: the domain text, the three numbers big-endian, and the coordinates of the three points, each at its place |
| `SumBatch.TauBinds` | contracts/CCGroth16BatchVerifier.sol:75-94 | equal challenges bind metadata and all three points, or the two preimages are a collision modulo the order |
| `SumBatch.PrepareVerifierProof` | rust/vectis-prover/src/hyperl2/sum.rs:350-370 | overwrites D with D plus the aggregated state commitments, or fails on a point at infinity |
| `SumBatch.ProverFailsExactlyWhen` | rust/vectis-prover/src/hyperl2/sum.rs:283-330 | for any keys there is no proof if and only if the batch is empty, a length of state or key does not fit it, or one of the three commitments is the point at infinity |
| `SumBatch.SameVerdictOnChain` | contracts/CCGroth16BatchVerifier.sol:42-72 | the contract's product of four pairings gives the library's verdict if and only if none of the three points is at infinity |
| `SumBatch.AcceptedOnChainOnly` | contracts/CCGroth16BatchVerifier.sol:42-72 | an artifact with points at infinity that the contract accepts and the library refuses |
| `SumBatch.BatchVerdict` | rust/vectis-prover/src/hyperl2/sum.rs:283-381 | from any input there is no proof if and only if a commitment is the point at infinity; otherwise the proof is accepted if and only if the QAP error of its assignment, scaled by the generators, vanishes |
| `SumBatch.BatchCompleteness` | rust/vectis-prover/src/hyperl2/sum.rs:283-381 | given a right QAP, every batch the builder makes has a proof accepted off chain and on chain, for every blind, opening and randomness, unless a commitment is the point at infinity |
| `LaneHeads.BatchVerifier.InitializeVerifyingKey` | contracts/CCGroth16BatchVerifier.sol:30-36 | sets the key once, for the administrator only |
| `LaneHeads.SumPreservingBatchVerifier.InitializeLaneHead` | contracts/SumPreservingBatchVerifier.sol:22-29 | sets an unset head and no other, and reverts on a set one |
| `LaneHeads.SumPreservingBatchVerifier.InitializeLaneHeads` | contracts/SumPreservingBatchVerifier.sol:31-43 | all or nothing |
| `LaneHeads.InitializesExactlyWhen` | contracts/SumPreservingBatchVerifier.sol:31-43 | a list succeeds if and only if each listed lane is unset at its turn, and then each lane has the last point listed for it or its old head |
| `LaneHeads.SumPreservingBatchVerifier.SubmitBatches` | contracts/SumPreservingBatchVerifier.sol:45-67 | new storage, or the old one on a revert |
| `LaneHeads.AcceptedExactlyWhen` | contracts/SumPreservingBatchVerifier.sol:51-63 | a list is accepted if and only if each artifact is a verified full batch that continues its lane; the heads end where the last artifacts do |
| `LaneHeads.SubmittedExactlyWhen` | contracts/SumPreservingBatchVerifier.sol:45-67 | the whole transaction: it succeeds if and only if the list is not empty, a key is set, each artifact is a full batch from its lane's set head that the key accepts, and the total fits 256 bits; only heads and total change |
| `LaneHeads.SubmissionsCompose` | contracts/SumPreservingBatchVerifier.sol:45-67 | submitting two lists together is submitting one after the other |
| `LaneHeads.HeadsFollowVerifiedChains` | contracts/SumPreservingBatchVerifier.sol:22-67 | on every run, whenever the key was set, each head ends a linked chain of artifacts verified under the present key from its last initialization, and the total is 20000 per accepted artifact |
| `LaneHeads.HeadsMoveOnlyByArtifacts` | contracts/SumPreservingBatchVerifier.sol:22-63 | on every run a set head is changed only by an accepted submission that holds a verified full batch from that head, an unset one only by its initialization |
| `LaneHeads.LaneFreed` | contracts/SumPreservingBatchVerifier.sol:26-61 | an accepted artifact that ends at the point (0, 0) leaves its lane unset, and it can be initialized again |
| `LaneHeads.KeyIsTheFirstOne` | contracts/CCGroth16BatchVerifier.sol:30-36 | on every run the key is the one of the administrator's first call, whatever was called since |
| `LaneHeads.OpenedSumIsConstant` | contracts/SumPreservingBatchVerifier.sol:51-63 | with an ideal verifier the opened sum of a lane is constant since its initialization |

## Left out

- HTTP services, metrics exposition, JSON and hex envelopes, file writing, the command-line tools and the scripts: plumbing around the same logic.
- Time: sleeps, tickers, latencies and throughput. A delay is a scheduling choice; the report's pass test is modelled up to its totals.
- The memory model below sequential consistency: Go's atomics are sequentially consistent, and no two threads ever hold one plain value field (`RingFifo.NoSharedCell`).
- RingQueue.RingQueue.Enqueue: covers calls made one at a time, in which its retry branches are dead; concurrent calls are the step system's.
- RingQueue.RingQueue.Dequeue: likewise.
- RingQueue.RingQueue.Len: exact for calls made one at a time; the object's `length` is an unbounded integer, because one at a time it never leaves 0 to capacity; `RingWrap` covers its 64-bit form.
- PipelineSafety.AlwaysInv: covers up to 2^32 blocks, whose indices count up from 0; beyond that the 32-bit block index would repeat.
- Pipeline jobs with 2^32 transactions or more: the frame's 32-bit count would be too small and marshalling would panic.
- 64-bit counters that only count accepted blocks and transactions (state version, metrics, drop count): unbounded here.
- Frame.AggregateCommitment: the library's in-place sort of the lane ids is taken as its result, the ascending order of the map's keys.
- L1.L1CertNode.SubmitCertifiedBlock: the latency fields of answer and log are left out, and the reason texts are an enumeration.
- `GenerateSyntheticTxs` and the configuration's block counts: the jobs are arbitrary.
- Elliptic curves, pairings, FFTs, R1CS synthesis and the QAP reduction: the exponent model needs none of them, and the QAP's correctness is a hypothesis of `SumBatch.BatchCompleteness`.
- Lists of 64 commitments or more in the linker, where the table size overflows.
- SHA-256 and Keccak: functions of which nothing is assumed; where a collision would matter the theorem names it. That the group order is prime: where inverses are needed, a right inverse function is a hypothesis.
- `prepare_public_parameters` (padding generators), `verify_batch_against_head`, `Capacity` and the linker's simpler `am_eq` variant: easy members.
- Zero knowledge beyond `AmComEq.WitnessIsHidden`, soundness against dishonest provers beyond `AmComEq.ResponsesGiveTheWitness` and what the challenges bind, and access control beyond the batch verifier's key.
