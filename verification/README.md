# A verified model of p2party's protocols

p2party is a peer-to-peer messenger: two peers agree on a root key, encrypt every message with a
Double Ratchet, heal the session with post-quantum key exchanges, hide traffic behind a fixed cover
schedule, authenticate message chunks with a Merkle tree and reassemble received chunks on disk. This
project models the state machines and codecs behind that, and proves what they promise over whole runs.

Cryptography is symbolic: keys, chains, message keys, sealed frames and digests are free datatypes, so
that equality of outputs means equality of inputs. The KEM is a pair of functions whose correctness
(FIPS 203, sections 7.2 and 7.3) is a hypothesis of the theorems that need it. Randomness, clocks, lane
factories, storage failures and crashes are choices of the environment, carried by events or parameters.

| component | files |
|---|---|
| Double Ratchet and chunk receive | `Ratchet`, `RatchetObject`, `ChunkCrypto`, `RatchetRun`, `RatchetSafety`, `RatchetTheorems`, `RatchetMessages` |
| Sparse post-quantum healing | `PqRecords`, `PqHealing`, `PqHealingObject`, `PqHealingRun`, `PqHealingSafety`, `PqHealingProgress`, `PqHealingExchange`, `PqHealingGuards` |
| Scheduled cover | `CoverSlots`, `CoverScheduler`, `CoverJobs`, `CoverCells`, `CoverTime`, `CoverOverlap`, `CoverWitness`, `CoverReuse`, `CoverCalls`, `CoverOrder`, `CoverService`, `CoverProgress`, `CoverQueue`, `CoverSchedulerObject`, `ReplayWindow` |
| Merkle tree | `Merkle`, `MerkleLoops` |
| Receive-side reassembly | `ReceiveLayout`, `Reassembly`, `ReceiveBooks`, `ReceiveHonest`, `ReceiveDisk`, `ReceiveStore`, `ReceiveWitness` |
| Session and invite codecs | `SessionMessage`, `SessionSnapshot`, `BitGroups`, `RoomInvite` |
| Shared | `Wrappers`, `Seqs`, `Bytes`, `Arithmetic`, `Chains` |

How the pieces relate. Code that updates an object in place is a class (`RatchetState`,
`PqHealingMachine`, `Scheduler`, `InboundCounters`, `ReceiveFile`) or a method over arrays; each method is
proved to do exactly what a function on values does, or what its contract states outright. The theorems
about runs are about those functions.

* **Ratchet runs.** Either peer sends at any time. The network delivers any frame to anyone, any number of
  times, in any order, including junk, rewritten headers and reflected frames; it cannot seal what nobody
  sealed. The invariant is one timeline of DH keys that both peers share up to one step.
* **Healing runs.** Both sides start from one root at any epoch, with mirrored counters. Each side's
  operations, durable saves, dispatches and crashes interleave freely; a record may be accepted any number
  of times, in any order, or never. A record is dispatched only while the durable state stands behind it,
  and only dispatched records arrive.
* **Cover runs.** Calls, timer firings, cell productions and sends interleave under a monotone clock. A slot
  begins in one step and its request is sent in a later one, so suspensions, stops and failures fall in
  between. Sending to a lane is one atomic step. A timer fires only when no answered request waits to go
  on: the event loop runs the continuations of settled promises before the next timer callback.
  Progress is stated of continuations: producers answer, lanes open and accept, timers fire on time.
* **Reassembly runs.** Chunks arrive in any order, repeatedly, with conflicting layouts; the file may fail to
  open, a write may stop half-way, the transaction that records a chunk may throw and leave the handle open,
  the worker may stop between writing and recording a chunk, and reads of the complete file, which may stop
  inside a chunk too, fall in between. What was accepted is a function of the event list
  (`ReceiveBooks.Accepted`).

Four properties turned out to be false of the code as it is. Each has a run that shows it, and the exact
condition under which the code meets it.

* Cells of a cover job can be lost or repeated when a slot asks its producer while an earlier request of it
  is unanswered (`CoverWitness.CellsCanBeLost`, `CoverOverlap.OverlapBreaksOrder`).
* A lane can be sent a cell of an earlier job as one of a new job that took over its id
  (`CoverReuse.ForeignCellSent`, `CoverReuse.ReuseBreaksCells`).
* A message can be reported complete and served with wrong bytes after a transaction threw: the open handle
  counts the short last chunk twice and takes it for a full one (`ReceiveWitness.FailedCommit`,
  `ReceiveHonest.WrittenRightExactly`).
* The same can happen after a read before the chunk size is known (`ReceiveWitness.EarlyRead`,
  `ReceiveStore.EarlyPlace`); the application does not read that early.

## Model

| member | source | states |
|---|---|---|
| `RatchetTheorems.Agreement` | src/cryptography/ratchet.ts:151-399 | In every reachable world, for every message the peer ever sent, in whatever order it arrives, decryption returns exactly the sender's key if and only if the receiver finds the header in reach: stored, ahead on the current chain within the limit, or on the peer's newest chain within both limits |
| `RatchetTheorems.LateDelivery` | src/cryptography/ratchet.ts:226-258 | As long as no stored key was evicted, a message not accepted before is decrypted to the sender's key however late it arrives, within the skip limits |
| `RatchetTheorems.FirstChunkOpens` | src/handlers/messageChunkCrypto.ts:246-285 | A chunk sealed with a sent key and received while in reach opens, returns its content exactly if its proof holds, and steps the ratchet |
| `RatchetMessages.LaterChunkOpens` | src/handlers/messageChunkCrypto.ts:372-392 | Once a delivery has stepped the ratchet for a message, every further chunk sealed for it in the same context opens, whatever happened in between, until its key is evicted; its content is returned exactly if its proof holds, and the ratchet does not step again |
| `RatchetMessages.WholeMessageOpens` | src/handlers/messageChunkCrypto.ts:341-432 | All chunks of a message in reach, delivered in any order and any number of times, open with their own content and proof, and only the first delivery steps the ratchet |
| `RatchetMessages.ContentIsGenuine` | src/handlers/messageChunkCrypto.ts:341-432 | In every reachable world, whatever a delivery returns was sealed under the key the peer used for that message, for this Merkle root, header and epoch, and with a proof that holds |
| `RatchetMessages.OnlyAuthorised` | src/handlers/messageChunkCrypto.ts:354-370 | Nothing opens and no state changes outside an authorised context: epoch 0 without a resolver, or a known epoch of the session's own suite |
| `RatchetMessages.KeyOfContext` | src/handlers/messageChunkCrypto.ts:394-407 | A first chunk opens only under the raw key without a context, and under the key combined with its own context otherwise |
| `RatchetMessages.CachedApart` | src/handlers/messageChunkCrypto.ts:372-377 | Keys of different messages, or of one message in different epochs, are cached apart |
| `RatchetMessages.PrimedOnce` | src/cryptography/ratchet.ts:310-337 | No session that is under way can be primed again |
| `RatchetTheorems.AdvancesOncePerMessage` | src/handlers/messageChunkCrypto.ts:372-432 | A delivery that steps a ratchet is the first authentic chunk of a message of the peer |
| `RatchetTheorems.StoreSound` | src/cryptography/ratchet.ts:213-258 | In every reachable world each stored key is the key the peer used for that message, the message is not consumed, and at most `MAX_SKIP_SESSION` entries exist |
| `RatchetTheorems.HostileFramesInert` | src/handlers/messageChunkCrypto.ts:341-447 | Dropping every delivery that did not step a ratchet, and every cache eviction, from a run leaves a valid run with the same ratchets |
| `RatchetTheorems.HostileRunInert` | src/handlers/messageChunkCrypto.ts:341-447 | From a handshake, the live ratchets after any mix of hostile and authentic frames are those of the first authentic chunk of each message alone |
| `RatchetSafety.DecryptExact` | src/cryptography/ratchet.ts:367-399 | Under the joint invariant, decrypting a header of the shared timeline yields its key exactly when it is obtainable |
| `RatchetSafety.SendKeepsInv` | src/cryptography/ratchet.ts:194-209 | A send by either peer, also both at once, extends the shared timeline and keeps the joint invariant |
| `RatchetSafety.DeliverKeepsInv` | src/handlers/messageChunkCrypto.ts:341-447 | Any delivery keeps the joint invariant, and steps the ratchet only for a first authentic chunk |
| `RatchetSafety.StepKeepsInv` | src/cryptography/ratchet.ts:151-399 | Every event keeps the joint invariant of both DH generations, roots, chains and stores |
| `RatchetSafety.RunKeepsInv` | src/cryptography/ratchet.ts:151-399 | Every run keeps the joint invariant |
| `RatchetSafety.StartInv` | src/cryptography/ratchet.ts:151-192 | Initialising both sides and priming the responder establishes the joint invariant |
| `Ratchet.SkipChainClosedForm` | src/cryptography/ratchet.ts:229-258 | The skip loop ends at the n-th chain key and stores exactly the true keys of the indices it passed |
| `Ratchet.ForwardClosedForm` | src/cryptography/ratchet.ts:386-399 | Stepping forward returns the n-th message key of the chain, advances the counter past it, and fails exactly when consumed or too far |
| `Ratchet.DecryptValid` | src/cryptography/ratchet.ts:367-399 | Every decrypt attempt keeps the store consistent and bounded |
| `Ratchet.DecryptSkipBound` | src/cryptography/ratchet.ts:229-258 | One decrypt adds at most twice `MAX_SKIP` keys to the store |
| `Ratchet.EvictOldestFirst` | src/cryptography/ratchet.ts:244-258 | Eviction removes exactly the oldest entries and keeps the rest in order |
| `Ratchet.StoreRoundTrip` | src/cryptography/ratchet.ts:410-461 | Serialising and deserialising the store preserves entries and their order |
| `RatchetObject.RatchetState.constructor` | src/cryptography/ratchet.ts:151-192 | A fresh state of either role |
| `RatchetObject.RatchetState.Clone` | src/cryptography/ratchet.ts:460-462 | The clone has the same value |
| `RatchetObject.RatchetState.EncryptMessage` | src/cryptography/ratchet.ts:194-209 | The fields change as `Encrypt` prescribes; without a sending chain nothing changes |
| `RatchetObject.RatchetState.SkipKeys` | src/cryptography/ratchet.ts:229-258 | The loop over indices and the eviction loop compute `SkipMessageKeys` |
| `RatchetObject.RatchetState.DhRatchet` | src/cryptography/ratchet.ts:265-298 | The receiving and the sending step of a DH ratchet |
| `RatchetObject.RatchetState.PrimeResponder` | src/cryptography/ratchet.ts:310-337 | Priming succeeds exactly on a pristine responder |
| `RatchetObject.RatchetState.DecryptMessage` | src/cryptography/ratchet.ts:367-399 | Field updates and result are those of `Decrypt`, on failure too |
| `RatchetObject.RatchetState.Adopt` | src/cryptography/ratchet.ts:476-491 | The live state takes over the other's value; another suite is refused |
| `ChunkCrypto.DecryptMessageChunk` | src/handlers/messageChunkCrypto.ts:341-447 | Derive on a clone, authenticate, then adopt or discard: state, cache and outcome are those of `Receive`; a cache hit never steps the ratchet |
| `PqHealingSafety.JointSafety` | src/cryptography/pqHealing.ts:1563-1869 | In every reachable system, with drops, duplicates, reordering and crashes: epochs differ by at most one with the answering side ahead, equal epochs have equal roots, both unblocked means same epoch and root, mirrored counters and complementary turns; all counters stay in u64 |
| `PqHealingSafety.ReachableRestores` | src/cryptography/pqHealing.ts:1392-1422 | Every reachable machine's snapshot restores, to the same machine |
| `PqHealingSafety.StepKeepsInv` | src/cryptography/pqHealing.ts:1563-1869 | Every operation, save, dispatch and crash keeps the invariant between live and durable states of both sides and the records under way |
| `PqHealingSafety.ApplyKeepsPair` | src/cryptography/pqHealing.ts:1563-1952 | Every transition of one machine keeps the relation to its peer |
| `PqHealingSafety.DispatchKeepsPair` | src/cryptography/pqHealing.ts:1616-1629 | A record that the state stands behind may be sent |
| `PqHealingSafety.RunKeepsInv` | src/cryptography/pqHealing.ts:1563-1869 | Every run keeps the invariant |
| `PqHealingProgress.ExchangeCanFinish` | src/cryptography/pqHealing.ts:1563-1869 | From every reachable system some continuation unblocks both sides: no crash or loss can wedge the exchange |
| `PqHealingExchange.HealingIsPossible` | src/cryptography/pqHealing.ts:1563-1869 | From every reachable system with both sides unblocked and room in the counters, and for every key pair and encapsulation, some run unblocks both sides again in the next epoch, with counters advanced, turns exchanged, and one root made by the KDF from the old root, the encapsulated secret and the ADVANCE record |
| `PqHealingGuards.OfferReplayOrFork` | src/cryptography/pqHealing.ts:1925-1938 | After an accepted OFFER, whatever the machine did since, the same OFFER is refused as a replay and another one in its place as a fork, until another OFFER is accepted |
| `PqHealingGuards.AdvanceReplayOrFork` | src/cryptography/pqHealing.ts:1940-1955 | The same for an ADVANCE |
| `PqHealingGuards.OfferPrepared` | src/cryptography/pqHealing.ts:1563-1609 | An OFFER is prepared exactly by an idle machine whose turn it is, with room in the counters and keys of the right size |
| `PqHealingGuards.OfferAccepted` | src/cryptography/pqHealing.ts:1642-1655 | An OFFER is accepted exactly by a valid idle machine that expects it, at its position, with room in the counters |
| `PqHealingGuards.AdvanceAccepted` | src/cryptography/pqHealing.ts:1775-1787 | An ADVANCE is accepted exactly for the offer that was sent out, at its position |
| `PqHealingGuards.AckAccepted` | src/cryptography/pqHealing.ts:1746-1760 | An ACK is accepted, and one may be sent, exactly if it acknowledges the ADVANCE at hand |
| `PqHealingGuards.OfferOutOfPosition` | src/cryptography/pqHealing.ts:1911-1923 | What is behind the machine is a replay, what is ahead of it a gap |
| `PqHealingGuards.AdvanceOutOfPosition` | src/cryptography/pqHealing.ts:1779-1787 | The same for an ADVANCE; one for another offer is a fork |
| `PqHealingGuards.RestoreExact` | src/cryptography/pqHealing.ts:1233-1332 | A checkpoint is restored if and only if it is that of a machine in order, which is the one restored |
| `PqHealing.ApplyKeepsValid` | src/cryptography/pqHealing.ts:1563-1952 | Every successful transition keeps the machine valid |
| `PqHealing.ValidInitially` | src/cryptography/pqHealing.ts:1366-1390 | A new machine is valid |
| `PqHealing.SnapshotRoundTrip` | src/cryptography/pqHealing.ts:887-928 | A valid machine's snapshot passes validation and restores to the same machine |
| `PqHealing.SnapshotCanonical` | src/cryptography/pqHealing.ts:970-1231 | A snapshot that restores is the snapshot of the restored machine |
| `PqHealing.PhaseRoundTrip` | src/cryptography/pqHealing.ts:970-1127 | Every phase survives encoding of its records |
| `PqRecords.OfferRoundTrip` | src/cryptography/pqHealing.ts:773-792 | Decoding an encoded OFFER returns it |
| `PqRecords.OfferCanonical` | src/cryptography/pqHealing.ts:663-676 | An accepted OFFER record is the encoding of what was decoded |
| `PqRecords.AdvanceRoundTrip` | src/cryptography/pqHealing.ts:794-814 | Decoding an encoded ADVANCE returns it, with its embedded OFFER |
| `PqRecords.AdvanceCanonical` | src/cryptography/pqHealing.ts:678-709 | An accepted ADVANCE record is the encoding of what was decoded |
| `PqRecords.AckRoundTrip` | src/cryptography/pqHealing.ts:504-529 | Decoding an encoded ACK returns it |
| `PqRecords.AckCanonical` | src/cryptography/pqHealing.ts:531-576 | An accepted ACK record is the encoding of what was decoded |
| `PqRecords.RecordLayout` | src/cryptography/pqHealing.ts:578-611 | What is at which offset of the three records: magic, version, type, suite tag, binding, counter, epochs and payload |
| `PqHealingObject.PqHealingMachine.constructor` | src/cryptography/pqHealing.ts:1366-1390 | A valid machine in the idle phase |
| `PqHealingObject.PqHealingMachine.Clone` | src/cryptography/pqHealing.ts:1495-1511 | The clone has the same value |
| `PqHealingObject.PqHealingMachine.PrepareOfferRecord` | src/cryptography/pqHealing.ts:1563-1614 | The fields change as the transition prescribes, or not at all; the record returned is the encoded offer |
| `PqHealingObject.PqHealingMachine.MarkDispatched` | src/cryptography/pqHealing.ts:1616-1628 | The fields change as the transition prescribes, or not at all |
| `PqHealingObject.PqHealingMachine.Abort` | src/cryptography/pqHealing.ts:1630-1640 | The fields change as the transition prescribes, or not at all |
| `PqHealingObject.PqHealingMachine.AcceptOfferRecord` | src/cryptography/pqHealing.ts:1642-1660 | A well-formed record changes the fields as the transition prescribes; every other one fails without effect |
| `PqHealingObject.PqHealingMachine.PrepareAdvanceRecord` | src/cryptography/pqHealing.ts:1662-1719 | The fields change as the transition prescribes, or not at all |
| `PqHealingObject.PqHealingMachine.CommitAdvance` | src/cryptography/pqHealing.ts:1721-1744 | The fields change as the transition prescribes, or not at all |
| `PqHealingObject.PqHealingMachine.AcceptAck` | src/cryptography/pqHealing.ts:1746-1768 | The fields change as the transition prescribes, or not at all |
| `PqHealingObject.PqHealingMachine.AcceptAdvanceRecord` | src/cryptography/pqHealing.ts:1770-1821 | A well-formed record changes the fields as the transition prescribes; every other one fails without effect |
| `PqHealingObject.PqHealingMachine.CommitAccepted` | src/cryptography/pqHealing.ts:1823-1849 | The fields change as the transition prescribes, or not at all |
| `PqHealingObject.PqHealingMachine.MarkAck` | src/cryptography/pqHealing.ts:1851-1873 | The fields change as the transition prescribes, or not at all |
| `PqHealingObject.PqHealingMachine.Adopt` | src/cryptography/pqHealing.ts:1513-1548 | The live machine takes over the other's value |
| `PqHealingObject.ApplyOnClone` | src/cryptography/pqHealing.ts:1495-1548 | For every transition: clone, perform it on the clone, adopt on success equals performing it in place, failures included; the live machine stays valid |
| `PqHealingObject.PqHealingMachine.Perform` | src/cryptography/pqHealing.ts:1563-1869 | Every method of the machine does what the transition function prescribes |
| `CoverJobs.Run` | src/handlers/coverScheduler.ts:267-914 | Every run of the scheduler keeps the invariant of jobs, queue, lanes, timers, generations and requests |
| `CoverJobs.StepKeepsInv` | src/handlers/coverScheduler.ts:267-914 | Every call, timer, production and send keeps it |
| `CoverJobs.JobsConserved` | src/handlers/coverScheduler.ts:457-478 | In every reachable state an unsettled job is queued or on exactly one lane, never both; a settled job is not queued and reported exactly one result; cycles close in order, each once, and none opens while an earlier one is open |
| `CoverJobs.SelectTakesFirst` | src/handlers/coverScheduler.ts:592-599 | The jobs taken for the lanes are distinct and come before every job left in the queue |
| `CoverOrder.OpenTakesFirst` | src/handlers/coverScheduler.ts:575-653 | A cycle that opens on all lanes takes as many jobs as there are lanes for, one each, and exactly those that a requested cancel, their kind, their priority and their age put before every job left |
| `CoverOrder.OrderIsByFields` | src/handlers/coverScheduler.ts:187-197 | The comparison means: a requested cancel first, then control, then the higher priority, then the lower sequence number |
| `CoverProgress.EveryJobCanFinish` | src/handlers/coverScheduler.ts:337-411 | After every run, whatever was interrupted, suspended, degraded or stopped, every unsettled job can still be finished at any later time: completed with all its cells sent, or cancelled if that was requested |
| `CoverProgress.NextCycleFinishes` | src/handlers/coverScheduler.ts:575-827 | When a boundary is due after any run, lanes open, producers answer and lanes accept, every queued job with fewer than `lanes` jobs before it is finished by the end of that cycle |
| `CoverProgress.RunFits` | src/handlers/coverScheduler.ts:267-298 | In every run a job's cells fit the slots of a lane, and an unsettled job has some left |
| `CoverService.CycleFinishes` | src/handlers/coverScheduler.ts:690-827 | Served to its end, slot by slot at the deadlines, a cycle finishes every job it carries and touches no other |
| `CoverService.OneSlot` | src/handlers/coverScheduler.ts:690-771 | A slot of a job to be cancelled sends the cancel cell and settles it; a slot of any other job sends its next or its kept cell, and the last one completes it |
| `CoverService.LaneSlotsOfCycle` | src/handlers/coverScheduler.ts:655-679 | Every lane has as many slots in a cycle as a job may declare cells |
| `CoverCalls.EnqueueExact` | src/handlers/coverScheduler.ts:267-298 | A job is accepted exactly with a new id that is not empty and as many cells as a lane has slots for |
| `CoverCalls.CancelExact` | src/handlers/coverScheduler.ts:300-325 | When a cancel finds nothing, settles at once, is refused or is pending, and that no other job changes |
| `CoverCalls.CompleteExact` | src/handlers/coverScheduler.ts:327-335 | Completing settles exactly a registered job |
| `CoverCalls.StopExact` | src/handlers/coverScheduler.ts:387-411 | Stopping fails every unsettled job, and leaves none queued, registered or on a lane |
| `CoverCalls.ProducerFails` | src/handlers/coverScheduler.ts:785-791 | After a failed production all jobs are back in the queue, and a timer waits for the end of the cycle or the next boundary |
| `CoverCalls.SendFails` | src/handlers/coverScheduler.ts:793-816 | So after a slot that was late, refused or failed |
| `CoverCalls.SlotFails` | src/handlers/coverScheduler.ts:558-566 | So after a slot timer that fired late, or for a lane that is not open |
| `CoverCalls.LateBoundary` | src/handlers/coverScheduler.ts:567-573 | A boundary timer that fires late suspends the scheduler with all jobs in the queue |
| `CoverCalls.EndOfLane` | src/handlers/coverScheduler.ts:855-871 | A job that used up its lane fails; one that is still to be cancelled is queued again |
| `CoverCalls.CloseFails` | src/handlers/coverScheduler.ts:890-914 | A cycle whose lanes did not all close is over, and the scheduler waits for the next boundary |
| `CoverCalls.NothingIsFilled` | src/handlers/coverScheduler.ts:714-734 | A job without a next cell lets its slot be filled with a dummy cell |
| `CoverCalls.CancelCellKept` | src/handlers/coverScheduler.ts:737-746 | A cancel cell that could not be sent is what the next slot of the job sends |
| `CoverCalls.SendsOnTime` | src/handlers/coverScheduler.ts:793-806 | A slot is sent only while the scheduler is active, by the request it waits for, and not late |
| `CoverCalls.SlotsOnTime` | src/handlers/coverScheduler.ts:517-536 | A slot begins only when its timer is due, and not late |
| `CoverCalls.OpensOnlyRunning` | src/handlers/coverScheduler.ts:579-585 | A cycle opens only at a boundary that is due, while the scheduler runs and is neither stopped nor suspended |
| `CoverJobs.OpenKeeps` | src/handlers/coverScheduler.ts:575-653 | Opening a cycle conserves jobs, also when a lane fails to open |
| `CoverJobs.FinalizeKeeps` | src/handlers/coverScheduler.ts:855-871 | Ending a cycle settles or requeues every job of its lanes |
| `CoverJobs.InterruptKeeps` | src/handlers/coverScheduler.ts:846-853 | An interrupted cycle gives every unsettled job back to the queue |
| `CoverJobs.StopKeeps` | src/handlers/coverScheduler.ts:387-411 | Stopping settles every job once and clears the lanes |
| `CoverCells.CellsConserved` | src/handlers/coverScheduler.ts:690-827 | The cells that lanes accepted for a job are a prefix of what it produced, never more than declared; at most one produced cell waits while the job is unsettled, and a kept cell is that one |
| `CoverCells.StepKeepsCells` | src/handlers/coverScheduler.ts:690-871 | Every event keeps the books of produced, pending and accepted cells |
| `CoverCells.RunKeepsCells` | src/handlers/coverScheduler.ts:690-871 | So does every run in which, while a `nextCell` request of a job is on its way, no slot asks that job again and no new job takes its id; ids may otherwise be taken again, and requests for dummy and cancel cells may overlap with anything |
| `CoverOverlap.OverlapBreaksOrder` | src/handlers/coverScheduler.ts:710-747 | The condition on overlaps is exact: wherever a run that kept it reaches a slot that asks `nextCell` of a job while an earlier such request is on its way, three more events at the same time make a lane accept the cells of that job out of order |
| `CoverWitness.OverlapReached` | src/handlers/coverScheduler.ts:351-381 | Such slots are reached: suspend and resume while a producer has not answered, and the next cycle asks it again |
| `CoverWitness.CellsCanBeLost` | src/handlers/coverScheduler.ts:737-771 | So without the condition the property is false: a run after which the accepted cells are not a prefix of the produced ones |
| `CoverReuse.ReuseBreaksCells` | src/handlers/coverScheduler.ts:267-287 | The condition on ids is exact: after every run, a job that takes an id while a `nextCell` request of the id's earlier job is on its way can, at most two events later, keep a cell that it did not produce |
| `CoverReuse.StaleKept` | src/handlers/coverScheduler.ts:737-746 | The step behind it: the cell of a request of an earlier job with the same id is kept for the new job, whether its slot is over, late or refused |
| `CoverReuse.ForeignCellSent` | src/handlers/coverScheduler.ts:737-771 | A run, enabled but for one `enqueue`, after which a lane has accepted a cell as one of a job that produced nothing |
| `CoverCells.CacheTargetIsOwn` | src/handlers/coverScheduler.ts:737-746 | An unsent `nextCell` cell is kept for its own job, or dropped if that is settled |
| `CoverTime.SendsAndCyclesSpaced` | src/handlers/coverScheduler.ts:337-441 | Over every run with a monotone clock cycles open only on the phase grid and never overlap, and the deadlines of any two sends, within or across cycles, are at least the guaranteed spacing of 25 ms or more apart |
| `CoverTime.StepKeepsTime` | src/handlers/coverScheduler.ts:773-914 | Every event keeps the relation between clock, timers, the open cycle and past sends |
| `CoverTime.SendKeepsSpacing` | src/handlers/coverScheduler.ts:803-826 | Sending the slot that is due keeps the spacing, and leaves room for the next one |
| `CoverSlots.DeadlinesSpaced` | src/handlers/coverScheduler.ts:655-679 | Deadlines lie strictly inside their cycle and at least floor(cadence / slots) >= 25 ms apart, also across epoch and cycle joins |
| `CoverSlots.EachLaneSlotOnce` | src/handlers/coverScheduler.ts:655-679 | The ordinals of a cycle hit each (lane, lane slot) pair exactly once |
| `CoverSlots.NextBoundaryIsFirst` | src/handlers/coverScheduler.ts:420-433 | The next boundary is the first grid point at or after the clock, or strictly after it |
| `CoverSlots.SpacingAtLeast25` | src/handlers/coverScheduler.ts:917-952 | A valid schedule leaves at least 25 ms per slot |
| `CoverSlots.DueInTheMiddle` | src/handlers/coverScheduler.ts:655-664 | Each slot is due in the middle of its share of the cadence, rounded down |
| `CoverScheduler.FirstExists` | src/handlers/coverScheduler.ts:187-196 | The queue order is total: a non-empty queue has a first job |
| `CoverQueue.SortOk` | src/handlers/coverScheduler.ts:443-445 | Sorting puts every job before all that the comparison puts after it, without repetition |
| `CoverQueue.HeadIsFirst` | src/handlers/coverScheduler.ts:452-455 | The head of the sorted array is the first job of the queue |
| `CoverSchedulerObject.Scheduler.constructor` | src/handlers/coverScheduler.ts:220-257 | A stopped scheduler with nothing queued |
| `CoverSchedulerObject.Scheduler.GetQueuedJobIds` | src/handlers/coverScheduler.ts:263-265 | The ids of the queue in order: a requested cancel before everything else, then control before real jobs, then the higher priority, then the older job |
| `CoverSchedulerObject.Scheduler.Enqueue` | src/handlers/coverScheduler.ts:267-298 | Accepts exactly new, non-empty ids whose cells fit a lane; new state as the state machine prescribes |
| `CoverSchedulerObject.Scheduler.Cancel` | src/handlers/coverScheduler.ts:300-321 | Result and new state as the state machine prescribes |
| `CoverSchedulerObject.Scheduler.Complete` | src/handlers/coverScheduler.ts:327-335 | Result and new state as the state machine prescribes |
| `CoverSchedulerObject.Scheduler.Start` | src/handlers/coverScheduler.ts:337-349 | Result and new state as the state machine prescribes |
| `CoverSchedulerObject.Scheduler.Suspend` | src/handlers/coverScheduler.ts:351-365 | Result and new state as the state machine prescribes |
| `CoverSchedulerObject.Scheduler.Resume` | src/handlers/coverScheduler.ts:367-381 | Result and new state as the state machine prescribes |
| `CoverSchedulerObject.Scheduler.Stop` | src/handlers/coverScheduler.ts:387-411 | Result and new state as the state machine prescribes |
| `CoverSchedulerObject.Scheduler.SettleAll` | src/handlers/coverScheduler.ts:393-400 | The loop settles every registered job |
| `CoverSchedulerObject.Scheduler.SettleJob` | src/handlers/coverScheduler.ts:470-478 | Settling removes the job from the queue and the register |
| `CoverSchedulerObject.Scheduler.Requeue` | src/handlers/coverScheduler.ts:457-468 | A job that can go on is queued once, in order |
| `CoverSchedulerObject.Scheduler.InterruptCycle` | src/handlers/coverScheduler.ts:846-853 | The loop over lanes gives all jobs back |
| `CoverSchedulerObject.Scheduler.FinalizeCycleJobs` | src/handlers/coverScheduler.ts:855-871 | The loop over lanes settles spent jobs and requeues pending cancels |
| `CoverSchedulerObject.Scheduler.SelectJobs` | src/handlers/coverScheduler.ts:592-594 | The dequeue loop takes the first jobs for the lanes in order |
| `CoverSchedulerObject.OpenLanes` | src/handlers/coverScheduler.ts:601-625 | Exactly the lanes whose factory succeeded are open; any failure is noticed |
| `CoverSchedulerObject.Scheduler.OpenCycle` | src/handlers/coverScheduler.ts:575-653 | Selection, admission, lane opening and requeueing loops together as the state machine prescribes |
| `CoverSchedulerObject.Scheduler.HandleCycleBoundary` | src/handlers/coverScheduler.ts:890-914 | New state as the state machine prescribes |
| `CoverSchedulerObject.Scheduler.HandleLateTimer` | src/handlers/coverScheduler.ts:558-573 | New state as the state machine prescribes |
| `CoverSchedulerObject.Scheduler.Degrade` | src/handlers/coverScheduler.ts:829-844 | New state as the state machine prescribes |
| `CoverSchedulerObject.Scheduler.Fire` | src/handlers/coverScheduler.ts:504-556 | The timer callback dispatches early, late and due firings as the state machine prescribes |
| `CoverSchedulerObject.Scheduler.SendSlot` | src/handlers/coverScheduler.ts:773-787 | The first half of a slot, up to the awaited request |
| `CoverSchedulerObject.Scheduler.TakeProduced` | src/handlers/coverScheduler.ts:690-735 | What a producer's answer does to the request |
| `CoverSchedulerObject.Scheduler.SendReady` | src/handlers/coverScheduler.ts:793-827 | The second half of a slot: stale, late, refused, failed and accepted sends |
| `CoverSchedulerObject.Scheduler.CacheUnsent` | src/handlers/coverScheduler.ts:737-746 | New state as the state machine prescribes |
| `CoverSchedulerObject.Scheduler.AcceptSent` | src/handlers/coverScheduler.ts:748-771 | New state as the state machine prescribes |
| `ReplayWindow.WindowRefinesSet` | src/handlers/coverRuntime.ts:320-339 | Over every sequence of calls a counter is admitted if and only if it was never admitted before and is not 1024 or more behind any admitted one: the bounded window decides as the unbounded set would |
| `ReplayWindow.AdmittedOnce` | src/handlers/coverRuntime.ts:320-339 | No counter is admitted twice |
| `ReplayWindow.RetainedBounded` | src/handlers/coverRuntime.ts:331-337 | At most 1024 counters are remembered |
| `ReplayWindow.RunRemembers` | src/handlers/coverRuntime.ts:320-339 | The window holds exactly the admitted counters that could still be repeated |
| `ReplayWindow.InboundCounters.AdmitInboundCounter` | src/handlers/coverRuntime.ts:320-339 | Answer and new state of the window |
| `ReplayWindow.InboundCounters.Prune` | src/handlers/coverRuntime.ts:333-337 | The deletion loop keeps exactly the counters above the floor |
| `Merkle.RootIsTreeHash` | src/cryptography/merkle.c:24-63 | Climbing level by level with lone-node promotion computes the tree hash of section 2.1 of RFC 6962 |
| `Merkle.PathIsAuditPath` | src/cryptography/merkle.c:66-146 | The emitted artifacts are the audit path of section 2.1.1 of RFC 6962 |
| `Merkle.SplitIsLargestPower` | src/cryptography/merkle.c:34-58 | The reference tree splits at the one power of two k with k < n <= 2k |
| `Merkle.RootsDistinct` | src/cryptography/merkle.c:3-63 | Distinct leaf sequences never share a root |
| `Merkle.FlattenTree` | src/cryptography/merkle.c:3-63 | Flattening the root gives back the leaves |
| `Merkle.ProofsComplete` | src/cryptography/merkle.c:66-146 | The proof of every leaf of every tree is accepted against the root |
| `Merkle.ProofsSound` | src/cryptography/merkle.c:195-239 | A proof for a leaf hash is accepted if and only if it is the path of some leaf with that content, or a single artifact for a tree that is that one leaf |
| `Merkle.VerifyCodes` | src/cryptography/merkle.c:195-239 | The result codes: -3 exactly for a position other than 0 and 1, 1 for a proof that leads to another root |
| `Merkle.PathLength` | src/cryptography/merkle.c:66-146 | A proof has at most ceil(log2 n) artifacts |
| `MerkleLoops.GetMerkleRoot` | src/cryptography/merkle.c:24-63 | The in-place loops leave the tree hash of the original leaves |
| `MerkleLoops.RootLevel` | src/cryptography/merkle.c:36-55 | One level, overwritten in place |
| `MerkleLoops.GetMerkleProof` | src/cryptography/merkle.c:66-146 | The loops over the shrinking array emit the path of the first matching leaf, or report that there is none |
| `MerkleLoops.ProofLevel` | src/cryptography/merkle.c:92-140 | One level: hashed in place, at most one artifact, the index of interest halved |
| `MerkleLoops.FindLeaf` | src/cryptography/merkle.c:72-90 | The first index of the element, or -1 |
| `MerkleLoops.VerifyMerkleProof` | src/cryptography/merkle.c:195-239 | Folding the element along the proof, with the result codes of the source |
| `ReceiveStore.Transfer` | src/db/db.worker.ts:1188-1660 | For every sequence of arrivals, duplicates, misfits, storage failures, failed commits, crashes, stops and reads: completion is reported exactly when the chunks accepted by the event list are complete; in a safe run every file a read returns has the declared size and is those chunks in index order, and a read of a complete message with working storage returns it |
| `ReceiveBooks.SafeWithoutThrows` | src/db/db.worker.ts:1142-1477 | Every run in which no transaction throws is safe, whatever chunks arrive |
| `ReceiveHonest.HonestSafe` | src/db/db.worker.ts:1142-1477 | With failed commits, every run of the chunks of one cut is safe in which no handle takes the short last chunk for a full one |
| `ReceiveHonest.WrittenRightExactly` | src/db/db.worker.ts:1152-1176 | That condition is exact: a chunk other than the first is written to its own place if and only if it holds |
| `Reassembly.LearnedExactly` | src/db/db.worker.ts:1152-1168 | A handle that counts chunks of one cut, in any order and with repetitions, learns the right size if and only if its first two are not both the short last chunk |
| `ReceiveWitness.FailedCommit` | src/handlers/handleReceiveMessage.ts:67-81 | A chunk whose commit failed comes again: completion is reported, and the file served is not the message |
| `ReceiveWitness.FailedCommitMislearns` | src/db/db.worker.ts:1142-1182 | In that run the handle takes the short last chunk for a full one |
| `ReceiveWitness.EarlyRead` | src/db/db.worker.ts:1548-1660 | A read before the chunk size is known moves the last chunk to a wrong place: the message is then reported complete, and the file served is not the message |
| `ReceiveHonest.HonestTransfer` | src/db/db.worker.ts:1188-1477 | For every message, uniform cut and order of arrivals, with crashes and failed commits, in which no handle takes the short last chunk for a full one: once every chunk was committed, the run is safe, the accepted chunks are complete and the only file they make up is the message |
| `ReceiveHonest.HonestRun` | src/db/db.worker.ts:1188-1477 | The chunks of a uniform cut are never refused: what is accepted is exactly what was committed, with its bytes |
| `ReceiveHonest.HonestFitting` | src/db/db.worker.ts:1210-1227 | No chunk of a cut into at most the largest chunk size, of a message of at most 10 GiB, is ever refused |
| `ReceiveHonest.CutInBounds` | src/db/db.worker.ts:1210-1227 | What a sender puts into a chunk passes the bounds check, up to the largest chunk and message |
| `ReceiveHonest.CutIsGood` | src/db/db.worker.ts:1245-1309 | Any distinct chunks of a uniform cut pass the layout check, and the derived size is that of the cut |
| `ReceiveStore.ReceiveFile.StoreReceiveChunk` | src/db/db.worker.ts:1188-1477 | A chunk is refused exactly if it does not fit; a repeated one changes nothing; a new one is recorded exactly if the transaction commits, and storage changes as the step on values says; the uniform size never changes once determined; completion is reported exactly when every chunk is recorded |
| `ReceiveDisk.StoreKeeps` | src/db/db.worker.ts:1188-1477 | A safe arrival keeps the storage in order: a record carries its bytes, or has them at its place in the file, also after failed commits, half-way writes and crashes |
| `ReceiveDisk.PlacingKeeps` | src/db/db.worker.ts:1142-1182 | A safely placed chunk is at its place in the file, and no recorded chunk lost a byte, even if the write stopped half-way |
| `ReceiveStore.SizeStays` | src/db/db.worker.ts:1273-1293 | The size determined by the recorded chunks never changes, in unsafe runs too |
| `ReceiveStore.ReceiveFile.Preflight` | src/db/db.worker.ts:1362-1390 | The layout with the new chunk is checked before anything is written |
| `ReceiveStore.ReceiveFile.WriteAndCommit` | src/db/db.worker.ts:1392-1477 | The file is written before the record; a transaction that throws leaves the handle, which has counted the chunk, and a stop forgets it |
| `ReceiveStore.ReceiveFile.PlaceReceiveChunk` | src/db/db.worker.ts:1142-1182 | A chunk is placed exactly if the handle opens, knows a size with this chunk, and the write succeeds; file and handle change as the step on values says |
| `ReceiveStore.ReceiveFile.EnsureHandle` | src/db/db.worker.ts:1052-1121 | The handle is open exactly if it was or opens now, and the file has its full size |
| `ReceiveStore.ReceiveFile.GetReceiveFile` | src/db/db.worker.ts:1548-1660 | From storage that safe runs keep, the file of a complete message is its chunks in index order and the storage stays in order, also if the migration fails inside a chunk; a file that needs nothing is returned as it is; a single record is migrated by its own size |
| `ReceiveStore.EarlyPlace` | src/db/db.worker.ts:1619-1623 | The place a single record is migrated to is its own place exactly if the chunk is a full one; a short last chunk lands too early |
| `ReceiveStore.ReceiveFile.Migrate` | src/db/db.worker.ts:1616-1627 | The loop brings every carried chunk to its place; when a write stops, also inside a chunk, the storage stays in order |
| `ReceiveStore.ReceiveFile.Close` | src/db/db.worker.ts:1487-1506 | Only what the handle learned is forgotten |
| `ReceiveLayout.ValidateLayout` | src/db/db.worker.ts:1245-1309 | Accepts exactly the layouts in which distinct chunks agree on the derived size; the saved size never exceeds the total, and reaches it exactly when every chunk is there |
| `ReceiveLayout.ScanSizes` | src/db/db.worker.ts:1254-1271 | The accumulating loop accepts exactly bounded, strictly increasing records whose sizes add up to at most the total |
| `ReceiveLayout.DeriveSize` | src/db/db.worker.ts:1273-1280 | The size of chunk zero, or else the largest of two or more |
| `ReceiveLayout.SumBound` | src/db/db.worker.ts:1295-1301 | Distinct fitting chunks add up to at most the total, and to the total exactly when none is missing; the gap error cannot occur |
| `ReceiveLayout.ExpectedIsFits` | src/db/db.worker.ts:1283-1293 | The test against the expected count and final length means: the piece of a uniform cut at that index |
| `Reassembly.UniformStays` | src/db/db.worker.ts:1273-1293 | The uniform size, once determined by accepted chunks, never changes |
| `ReceiveBooks.KnowsDerived` | src/db/db.worker.ts:1152-1168 | A handle that counted only recorded chunks, each once, knows a size only if they determine it, and then it is the right one |
| `Reassembly.RegionsDisjoint` | src/db/db.worker.ts:1172-1173 | Writes of different chunks do not overlap |
| `Reassembly.RegionInside` | src/db/db.worker.ts:1172-1173 | Writes stay inside the file |
| `Reassembly.MessageComplete` | src/db/db.worker.ts:1589-1655 | If every recorded chunk is in the file and none is missing, the file is the message |
| `SessionMessage.PrepareMessage` | src/session.ts:392-459 | The records of the message, the Merkle root of their chunks, and for every record a proof that verifies against the root |
| `SessionMessage.SplitMessage` | src/session.ts:396-409 | The split loops produce the records of the message |
| `SessionMessage.ProvenIsOfMessage` | src/session.ts:411-429 | A chunk with an accepted proof is a chunk of the message |
| `SessionMessage.AnyOrderJoins` | src/session.ts:392-526 | The records of every plaintext, with any padding and in any order, are accepted as that plaintext |
| `SessionMessage.ValidateAndJoinRecords` | src/session.ts:466-526 | Returns a plaintext if and only if the records are a complete, canonical set for it, each chunk index exactly once; it is then the only one |
| `SessionMessage.CollectRecords` | src/session.ts:477-508 | The checking loop accepts exactly complete sets |
| `SessionMessage.EveryIndexOnce` | src/session.ts:497-513 | A complete set has exactly one record for every chunk index; the missing-chunk error cannot occur |
| `SessionMessage.WriteRecords` | src/session.ts:510-516 | The copying loop puts every record at its place |
| `SessionSnapshot.DecodeSessionSnapshot` | src/session.ts:925-1071 | Returns a session if and only if it is valid and the input is exactly its encoding: decoding inverts encoding and accepts nothing else |
| `SessionSnapshot.EncodeSessionSnapshot` | src/session.ts:773-917 | Every valid session is encoded, into exactly as many bytes as the buffer is sized for |
| `SessionSnapshot.FixedOffsets` | src/session.ts:857-869 | What is at which offset of the first 68 bytes: magic, versions, flag bits, suite tag, counters and root |
| `SessionSnapshot.KeysOffsets` | src/session.ts:870-885 | The order of the five keys |
| `SessionSnapshot.KeysMissing` | src/session.ts:870-885 | A key that is missing takes no room |
| `SessionSnapshot.TailOffsets` | src/session.ts:886-905 | Count, skipped keys, checkpoint length and checkpoint, to the end |
| `SessionSnapshot.EntryOffsets` | src/session.ts:888-899 | Skipped keys follow each other |
| `SessionSnapshot.EntryFields` | src/session.ts:888-899 | The parts of a skipped key |
| `SessionSnapshot.ParseFixed` | src/session.ts:967-981 | The fixed prefix is accepted exactly if it is the encoding of the result |
| `SessionSnapshot.ParseKeys` | src/session.ts:981-990 | The optional keys are read as the flags say, or refused |
| `SessionSnapshot.ParseEntries` | src/session.ts:1010-1029 | The entry loop accepts exactly the encodings of lists without repeated keys |
| `SessionSnapshot.ParseTail` | src/session.ts:991-1045 | Count, entries, length and checkpoint are accepted exactly if they are canonical and nothing trails |
| `SessionSnapshot.TagSuite` | src/session.ts:803-821 | The suite tags are inverse to each other |
| `SessionSnapshot.ByteFlags` | src/session.ts:841-845 | Flag bytes and flags are inverse to each other; unknown bits are refused |
| `RoomInvite.EncodeRoomCapabilityBase64Url` | src/roomInvite.ts:62-79 | 32 bytes become the 43 base64url digits of their 256 bits and two zero bits; other lengths are refused |
| `RoomInvite.Alphabet` | src/roomInvite.ts:11-12 | The 64 characters of section 5 of RFC 4648, as data |
| `RoomInvite.ZeroText` | src/roomInvite.ts:62-80 | The text of 32 zero bytes is 43 times `A` |
| `RoomInvite.DecodeRoomCapabilityBase64Url` | src/roomInvite.ts:81-114 | A text is accepted if and only if it is the canonical text of some capability, which is returned (sections 3.5 and 5 of RFC 4648) |
| `RoomInvite.BytesToWordIndexes` | src/roomInvite.ts:155-171 | The 11-bit digits of the same number, or refused exactly if bits are left over |
| `RoomInvite.WordIndexesToBytes` | src/roomInvite.ts:173-191 | The bytes of the same number, accepted exactly for 24 indexes |
| `RoomInvite.WordsInverse` | src/roomInvite.ts:155-191 | 33 bytes and 24 indexes determine each other |
| `RoomInvite.EncodeRoomCapabilityWords` | src/roomInvite.ts:193-204 | The words of the capability with its checksum |
| `RoomInvite.LastWord` | src/roomInvite.ts:193-204 | The last word is the last three bits of the capability and its checksum |
| `RoomInvite.DecodeRoomCapabilityWords` | src/roomInvite.ts:206-227 | Words are accepted if and only if they are the words of some capability with its own checksum, which is returned |
| `BitGroups.Regroup` | src/roomInvite.ts:95-107 | The accumulator loops preserve the number read; no shift leaves 31 bits |
| `BitGroups.RegroupInverse` | src/roomInvite.ts:155-191 | Rewriting digits in another width and back gives the same digits |

## Left out

- Concrete cryptography: X25519, HKDF, ChaCha20-Poly1305, ML-KEM, SHA-512, CPace and Argon2 are symbolic functions or parameters; nothing is claimed about their strength.
- Wiping of key material and WASM heap handling: no functional effect.
- WebRTC, signaling, Redux, the IndexedDB and OPFS interfaces, browser events and logging.
- `pqHealingRuntime.ts`, `handshakeCore.ts`, `ratchetPersist.ts` and `reconcile.ts` in `src/handlers`: both ratchets and healing machines start from an agreed root.
- The busy, poisoned and destroyed flags of the healing machine and the observers of the scheduler: calls are taken not to re-enter.
- The `state` tag of a queued job in the scheduler, which is written and never read, and the reasons reported to observers.
- Safe-integer overflow and fractional clock values in the scheduler: times are unbounded integers.
- Lane `send` as an awaited call: the shipped lane answers synchronously, so sending is one step.
- Hash failures, and leaf counts near the width of `unsigned int`, in the Merkle code; `get_merkle_root_from_proof`, whose one-artifact shortcut needs distinctness conditions.
- At-most-once delivery of plaintext: cached receive keys deliberately accept the same header again; only that a hit never steps the ratchet is claimed.
- CoverCells.CellsConserved: assumes that, while a `nextCell` request of a job is on its way, no slot asks that job again and no new job takes its id, because the property is false otherwise; both conditions are exact (CoverOverlap.OverlapBreaksOrder, CoverReuse.ReuseBreaksCells).
- ReceiveStore.Transfer: reads happen only once completion was reported, as the application does (src/index.ts:856), because the property is false otherwise (ReceiveWitness.EarlyRead); what reads return is stated for safe runs, because it is false otherwise (ReceiveWitness.FailedCommit).
- SessionMessage.PrepareMessage: the packing of metadata, proof and chunk into one buffer is not modelled.
- RoomInvite.DecodeRoomCapabilityWords: works on the list of words; Unicode normalisation, case folding and splitting of the text are not modelled.
- `deriveCoverPhaseOffsetMs`, the hex form of a capability, the invite prefix, room policy, frame header packing, PIN backoff and roster merging: easy members.
- The message and room bookkeeping beside the chunk records (`messageData`, `uniqueRoom`) apart from the manifest check.
