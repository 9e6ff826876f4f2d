# Verified model of Rolltop's write admission, arrival ledger and mailbox generations

Rolltop is a self-hosted mail client: it mirrors IMAP mailboxes into a local store, indexes them for search and tells
its users about new mail. This project models five parts of it in Dafny and proves what they are for.

1. **Write admission for the search index.** A coordinator queues writers, ranks them by priority and age, and admits at
   most one per user under a count limit and a byte limit. Below it stands a first-come-first-served lock per index, and
   around both a close protocol that waits for writes in flight. Every critical section is one atomic step, and a run is
   any interleaving of them, with cancellation and time chosen freely. `CoordinatorState` defines the steps,
   `CoordinatorInvariant` to `CoordinatorProgress` prove what every run keeps, `WriteCoordinator` and `WriterLock` hold
   the classes that update their queues and counters in place, `WriterService` composes them, `ServiceSafety` proves what
   no run of the composition does, and `ServiceProgress` that it cannot stand still.
2. **The arrival and transfer ledger.** A new message in an Inbox may be a delivery, the result of a move or copy that
   Rolltop made, or a move made by another program. The ledger decides by consuming one-shot tokens: receipts of its own
   transfers, and tombstones of messages that vanished elsewhere. Every transaction is one step on finite maps with
   ever-increasing ids (`LedgerState`, `LedgerSteps`), with the cascades of the foreign keys written out; the class
   `ArrivalLedger.Store` runs them as the store does, update by update. `LedgerTokens`, `LedgerOnce`, `LedgerTransfers`,
   `LedgerClaims`, `LedgerPruning`, `LedgerDelivery`, `LedgerSuppression` and `LedgerReconciliation` prove properties of
   all runs, and `LedgerRuns` holds two runs that end where one would not expect it.
3. **Mailbox generations.** When a server changes a mailbox's UIDVALIDITY (section 2.3.1.1 of RFC 3501) every cached row
   is deleted and fetched again, while a journal carries the user's state on the messages across (`GenerationState`, class
   `MailboxGeneration.Mirror`). `GenerationInvariant` and `GenerationIdentities` hold over all runs, `GenerationRoundTrip`
   gives the exact result of a reset and refetch, `GenerationConservation` extends it to any number of resets, interrupted
   or not, and `GenerationRefusal` shows how an import can be refused.
4. **Bounded index projection**: from UTF-8 text that is cut and broken into indexable runs (`Utf8`, `DocumentLimits`), over
   the document of a message (`MessageDocument`) and the chunks of a tenant (`IndexPreparation`, `IndexChunks`), up to the
   bytes reserved with the coordinator.
5. **Three algorithms**: the edit distance with early exit (`EditDistance`), the headers that mark a copied message and
   their reader (`SyncTime`, `HeaderText`, `SyncHeaders`, `SyncTasks`), and the canonical form of line endings
   (`CanonicalMessage`).

Where the source updates state in place there is a class with the same fields, whose methods are proved equal to a function
of the old state; what the source promises is then proved about these functions.

## Results that qualify what the source promises

- The byte counter of the coordinator is exact on a run if and only if no `UpdateBytes` in it makes the true sum leave 64
  bits (`CoordinatorAccounting.RunAccounts`); `OverflowLosesBytes` is a run in which it does not stay exact.
- A byte-blocked waiter at the top stops all later grants if and only if no earlier runnable waiter fits
  (`CoordinatorBarrier.BarrierIsExact`): a waiter ranked below it today may rise to the top and fit, as it does in
  `CoordinatorBarrier.BarrierLeaks`.
- `boundedEditDistance` may return an exact distance larger than `max + 1` (`EditDistance.ExactBeyondCutoff`); it answers
  "within max" correctly for all inputs.
- `AddSyncHeaders` applied again leaves a message alone if and only if the marker was absent, already recorded, or on the
  first header line (`SyncHeaders.ReapplyingIsIdempotent`); `SyncHeaders.UnpairedMarkerKeepsGrowing` is a message on which it
  does not.
- `ReopenMessageTransferDispatchAfterProof` compares the stored, trimmed owner with the current owner as given, so a process
  whose name has surrounding white space can reopen its own live claim (`LedgerClaims.OwnClaimIsSafeIfTrimmed`,
  `LedgerRuns.LiveClaimIsReopened`).
- A message fetched under the mailbox's generation is refused, and not stored at all, if and only if its UID is of a row of
  another generation, or its journal row holds a snooze of a thread that is snoozed, or, when the UID is stored already, an
  item for a place that is taken on that row (`GenerationIdentities.ImportIsRefused`). `GenerationRefusal.RefusalHappens` and
  `KnownRefusalHappens` are a run to each of the last two.
- A decided arrival is final while its row exists (`LedgerOnce.OutcomesAreFinal`), and so a suppressed message is announced if
  and only if its row is removed, a new one is recorded, and when the turn of that one comes in a finalization nothing
  explains it (`LedgerSuppression.SuppressedUntilRemoved`, `LedgerDelivery.AnnouncedIfUnexplained`).
  The row is removed by the first hold or finalization a week after the decision (`LedgerSuppression.RowIsRemoved`); held again
  then, the message may be announced, as in the run of `LedgerRuns.SuppressedIsAnnounced`.
- The counter of a sync run is the number of its announcements throughout if and only if the run never reports more new
  messages than the counter has (`LedgerOnce.CountersAreExact`).

## Model

| member | source | states |
|---|---|---|
| WriteCoordinator.Coordinator.constructor | backend/search/write_coordinator.go:99-117 | a new coordinator is empty; non-positive settings become the defaults |
| WriteCoordinator.Coordinator.BytesAvailableLocked | backend/search/write_coordinator.go:258-266 | with no live lease any size is available, otherwise exactly what is left under the byte limit, without overflow |
| WriteCoordinator.Coordinator.BestCandidateLocked | backend/search/write_coordinator.go:228-256 | the scanning loop finds the waiter that the specification of the scan names, or -1 |
| WriteCoordinator.Coordinator.GrantLocked | backend/search/write_coordinator.go:213-224 | one waiter leaves the queue and becomes a lease with all four counters moved; nothing else changes |
| WriteCoordinator.Coordinator.DispatchLocked | backend/search/write_coordinator.go:207-226 | the grant loop ends in the state the recursive dispatch names |
| WriteCoordinator.Coordinator.Request | backend/search/write_coordinator.go:126-138 | one critical section of an acquisition: draw the next number, enqueue, dispatch |
| WriteCoordinator.Coordinator.CancelWaiter | backend/search/write_coordinator.go:173-192 | a queued waiter leaves and the rest is dispatched; a waiter granted in the meantime hands its lease back to the caller |
| WriteCoordinator.Coordinator.RemoveWaiter | backend/search/write_coordinator.go:181-187 | closing the gap in place removes just the waiter of that number and keeps the order |
| WriteCoordinator.Coordinator.DropLocked | backend/search/write_coordinator.go:275-289 | uncounting one lease, with the source's clamps to zero |
| WriteCoordinator.Coordinator.Release | backend/search/write_coordinator.go:268-292 | only the first release of a lease changes the state, and it dispatches |
| WriteCoordinator.Coordinator.UpdateBytes | backend/search/write_coordinator.go:298-316 | a live lease is re-accounted with saturating arithmetic and dispatches; an unchanged size or a released lease does nothing |
| CoordinatorInvariant.CandidateIsFittingTop | backend/search/write_coordinator.go:228-256 | the scan names a waiter if and only if it is the unique top-ranked runnable one and fits; it names none only if none is runnable or the top one does not fit |
| CoordinatorInvariant.StepKeeps | backend/search/write_coordinator.go:119-316 | every step at every instant keeps: queue in order of sequence numbers, at most one lease per user, counters equal to the leases, count limit; and is settled afterwards |
| CoordinatorInvariant.DispatchSettles | backend/search/write_coordinator.go:207-226 | after a dispatch the count limit is reached, or no waiter is runnable, or the top-ranked runnable one does not fit |
| CoordinatorInvariant.SettledWakes | backend/search/write_coordinator.go:207-266 | in a settled state a non-empty queue has a live lease, so some release will dispatch it |
| CoordinatorInvariant.RunKeeps | backend/search/write_coordinator.go:119-316 | over every run of requests, cancellations, releases and resizes: the invariant holds and no wakeup is lost |
| CoordinatorAccounting.GrantFits | backend/search/write_coordinator.go:213-266 | a grant beside another live lease adds its bytes exactly and stays inside the byte limit |
| CoordinatorAccounting.DispatchStaysInsideLimit | backend/search/write_coordinator.go:207-226 | a dispatch that granted and leaves two or more leases leaves the byte counter within the limit |
| CoordinatorAccounting.ClampsAreDead | backend/search/write_coordinator.go:275-307 | while the accounting is exact, no subtraction clamps and a lease's user is counted once |
| CoordinatorAccounting.StepAccounts | backend/search/write_coordinator.go:207-316 | from exact accounting, a step stays exact if and only if it is not a resize whose true sum leaves 64 bits |
| CoordinatorAccounting.RunAccounts | backend/search/write_coordinator.go:207-316 | a run has activeBytes equal to the sum of the live leases throughout, if and only if no resize in it overflows |
| CoordinatorAccounting.OverflowLosesBytes | backend/search/write_coordinator.go:298-316 | the run of four steps in which saturation loses bytes: a live lease of the largest size with a counter at zero |
| CoordinatorFairness.OnlyEarlierOvertake | backend/search/write_coordinator.go:228-256 | whoever is granted while a foreground-aged waiter with an idle user is queued drew a smaller number |
| CoordinatorFairness.BoundedOvertaking | backend/search/write_coordinator.go:207-266 | on every continuation the overtakings of an aged waiter plus the earlier waiters still queued never exceed the earlier waiters at the start |
| CoordinatorFairness.CountIsPosition | backend/search/write_coordinator.go:78-97 | that bound is the waiter's position in the queue |
| CoordinatorBarrier.BarrierHoldsBackRun | backend/search/write_coordinator.go:228-266 | while no lease drains, a byte-blocked aged waiter stops every later grant, however long the run |
| CoordinatorBarrier.BarrierIsExact | backend/search/write_coordinator.go:228-266 | it stops them if and only if no runnable waiter with an earlier number fits; otherwise a run that slips past it is constructed |
| CoordinatorBarrier.BarrierLeaks | backend/search/write_coordinator.go:228-266 | a reachable state with a foreground waiter on top that does not fit, past which the next event admits another |
| CoordinatorProgress.StepMoves | backend/search/write_coordinator.go:119-316 | a step moves no request but its subject except from queued to granted, and what is decided stays decided |
| WriterLock.Lock.TryLock | backend/search/search.go:80-88 | takes the lock if and only if it is free |
| WriterLock.Lock.AcquireOrQueue | backend/search/search.go:106-116 | takes a free lock, or joins the end of the line |
| WriterLock.Lock.Unlock | backend/search/search.go:90-104 | passes the lock to the first in line without freeing it, frees it if there is none, panics if it is not held |
| WriterLock.Lock.CancelWaiter | backend/search/search.go:118-133 | takes a waiter out of the line; false if the lock is already its own |
| WriterLock.FirstComeFirstServed | backend/search/search.go:54-133 | over every run, hand-overs so far followed by the line are those who lined up and did not give up, in order of arrival, each once |
| ServiceSafety.RunIsSafe | backend/search/search.go:545-1067 | the joint invariant of coordinator, per-index locks, write count and close, over every interleaving of any number of operations, cancellations at any instant, unlocks and Close |
| ServiceSafety.MutualExclusion | backend/search/search.go:792-835 | no two operations run on one index, in combined and in per-user mode |
| ServiceSafety.NoCloseWhileRunning | backend/search/search.go:545-608 | no index handle is closed while an operation is between beginWrite and Done, and none starts afterwards |
| ServiceSafety.PerUserGateHasNoLine | backend/search/search.go:613-627 | in per-user mode the writer lock never has a waiter, because the coordinator already serialises each user |
| ServiceSafety.ExactlyOnce | backend/search/search.go:1004-1067 | along every path a finished operation called Done exactly once and released exactly the lease it was granted, if any |
| ServiceSafety.NoDoubleRelease | backend/search/search.go:961-1067 | the lease to be released is live, and the lock to be unlocked is held |
| ServiceSafety.DrainedIsClean | backend/search/search.go:574-637 | when the write count is zero, there is no live lease, no waiter and no held lock |
| ServiceProgress.SomebodyGoesOn | backend/search/search.go:792-1067 | in every reachable state with an unfinished operation, some operation has a step of its own, no cancellation, that is enabled and leaves less to do |
| ServiceProgress.SchedulesEnd | backend/search/search.go:792-1067 | under any schedule, cancellations included, the operations under way take no more steps than there was work left |
| ServiceProgress.CloseCompletes | backend/search/search.go:545-608 | a close asked for in any reachable state completes after a run of steps that cancels nobody |
| EditDistance.DistanceIsLeastCost | backend/search/search.go:2354-2387 | the reference distance is the least cost of any script of insertions, deletions and replacements |
| EditDistance.LengthsBoundDistance | backend/search/search.go:2360-2362 | the length difference bounds the distance from below, so the first early exit is sound |
| EditDistance.RowMinBoundsDistance | backend/search/search.go:2368-2383 | row minima never fall from row to row and bound the distance from below |
| EditDistance.GivingUpIsSound | backend/search/search.go:2355-2383 | either early exit implies that the distance exceeds max |
| EditDistance.ExactBeyondCutoff | backend/search/search.go:2354-2387 | ab against bxy with a cutoff of 1: the search does not give up and the distance it returns is 3 |
| EditDistance.NextRow | backend/search/search.go:2369-2379 | the inner loop turns one row of the distance table into the next and finds its minimum |
| EditDistance.BoundedEditDistance | backend/search/search.go:2354-2387 | the two swapped rows give the exact distance, or max + 1 on giving up; the answer is within max if and only if the distance is |
| CanonicalMessage.WriteCanonicalMessage | backend/store/message_arrival_fingerprints.go:57-75 | the slices written are non-empty and concatenate to the normal form |
| CanonicalMessage.LexemesSpell | backend/store/message_arrival_fingerprints.go:57-75 | reading a message as contents and line endings loses nothing |
| CanonicalMessage.NoCarriageReturn | backend/store/message_arrival_fingerprints.go:57-75 | the normal form has no carriage return |
| CanonicalMessage.NormalizeIsIdempotent | backend/store/message_arrival_fingerprints.go:49-75 | normalizing twice is normalizing once |
| CanonicalMessage.EqualNormalForms | backend/store/message_arrival_fingerprints.go:49-75 | two messages have equal normal forms if and only if they have the same lines up to the spelling of their endings |
| SyncTime.PrintedTimeIsRead | backend/imapclient/remote_sync.go:267-269 | a transfer time is printed in twenty bytes without spaces and read back to the second |
| HeaderText.HeaderOfPrepended | backend/imapclient/remote_sync.go:300-318 | a line put in front of any message, in its own line-ending style, becomes the first header line and leaves the others |
| HeaderText.PrintedFieldSays | backend/imapclient/remote_sync.go:300-361 | a printed field is read back as its name and value, whether or not a CR ends its line |
| SyncHeaders.PrintedIsRead | backend/imapclient/remote_sync.go:237-277 | what is read back after AddSyncHeaders, for every message: the earlier record, this time to the second, or nothing |
| SyncHeaders.ReapplyingIsIdempotent | backend/imapclient/remote_sync.go:237-277 | reapplying with any time leaves the bytes unchanged if and only if the marker is absent, already recorded, or the first header line |
| SyncHeaders.UnpairedMarkerKeepsGrowing | backend/imapclient/remote_sync.go:237-277 | a message with an unpaired marker on its second line, to which every reapplication adds a timestamp that is never read back |
| SyncHeaders.FirstTransferIsKept | backend/imapclient/remote_sync.go:237-277 | for a message lacking the marker: the time is read back, reapplying changes nothing, and the source bytes follow unchanged |
| SyncHeaders.MarkerIsTrimmed | backend/imapclient/remote_sync.go:208-294 | white space around the marker argument does not matter to any of the three operations |
| SyncHeaders.FindHeaderValue | backend/imapclient/remote_sync.go:300-318 | the loop finds a header line of that name, in any case, with that trimmed value, if and only if there is one |
| SyncHeaders.SyncTimestampForMarker | backend/imapclient/remote_sync.go:324-356 | the loop returns the first readable timestamp that stands on the line before a line with this marker, in UTC, or nothing |
| SyncTasks.MarkersAreUnique | backend/imapclient/remote_sync.go:177-204 | markers are valid header values, and equal if and only if task, UIDVALIDITY and UID are |
| SyncTasks.CopyIsRecognized | backend/imapclient/remote_sync.go:237-394 | the copy a sync task writes is recognised as that one's, and as another's only if the source already was |
| SyncTasks.MarkerIsOfItsTaskOnly | backend/imapclient/remote_sync.go:366-394 | a marker belongs to the sync task it was made for and to no other |
| SyncTasks.HasSyncMarkerForTask | backend/imapclient/remote_sync.go:366-394 | the loop answers true if and only if some marker line has the sync task's token and two positive 32-bit numbers |
| DocumentLimits.CutAtRuneStart | backend/search/document_limits.go:28-33 | the cut moves back to a byte that starts a rune |
| DocumentLimits.SplitOversizedIndexTokens | backend/search/document_limits.go:46-74 | the single pass over the runes builds the text with a space before every rune that would make a run too long |
| DocumentLimits.BoundedIndexText | backend/search/document_limits.go:23-44 | clip, make valid, split, clip again: the composition of the specified steps |
| DocumentLimits.BoundedTextIsIndexable | backend/search/document_limits.go:23-44 | for every byte string the result is valid UTF-8, within the limit, with no run of non-space runes over the maximum |
| DocumentLimits.BoundedTextFixes | backend/search/document_limits.go:23-44 | a text comes through unchanged if and only if it already is all that; so the function is idempotent |
| DocumentLimits.OnlySpacesAreAdded | backend/search/document_limits.go:23-74 | the result is a prefix of the valid part of the input with only spaces inserted |
| DocumentLimits.LittleIsLost | backend/search/document_limits.go:23-44 | of valid text nothing is lost before the limit, less at most three bytes, is used up |
| DocumentLimits.RunsFromIsBounded | backend/search/document_limits.go:46-74 | the scan's running byte count is the declarative bound on every run of non-space runes |
| DocumentLimits.BoundedIndexJoin | backend/search/document_limits.go:76-117 | the join is what appending value by value gives, and is indexable |
| DocumentLimits.JoinIsIndexable | backend/search/document_limits.go:76-117 | however the values are broken, the join is valid, within its limit and has no run too long |
| DocumentLimits.JoinKeepsWhatFits | backend/search/document_limits.go:76-117 | indexable values that fit together are joined by single spaces and lose nothing |
| MessageDocument.CollectAttachments | backend/search/search.go:1074-1090 | the loop gathers all names and types, and the texts that are not blank |
| MessageDocument.DocumentFits | backend/search/search.go:1071-1134 | whatever the message holds and the text functions return, the text fields of its document fit the per-document maximum |
| MessageDocument.EncryptedContentStaysOut | backend/search/search.go:1071-1134 | the document of an encrypted message does not depend on its body or attachments |
| IndexPreparation.PlanMessageIndexTenants | backend/search/index_preparation.go:102-125 | the plans are a stable grouping: one per user in order of first appearance, each with exactly that user's documents in order |
| IndexPreparation.FirstSeenListsUsersOnce | backend/search/index_preparation.go:102-125 | the tenants are exactly the users that have documents, each once |
| IndexChunks.MessageIndexChunkIterator.Next | backend/search/index_preparation.go:153-185 | the next chunk runs from where the last one ended up to the first document that reaches the target, or to the end |
| IndexChunks.MessageIndexChunk.Append | backend/search/index_preparation.go:187-201 | a document is added, its bytes with saturation, and an account or mailbox that differs is set to zero |
| IndexChunks.ChunkNamesWhatIsShared | backend/search/index_preparation.go:187-201 | a chunk names an account or mailbox if and only if all its documents share it |
| IndexChunks.ChunkCounts | backend/search/index_preparation.go:187-220 | the chunk's byte count is the true sum, capped at 64 bits |
| IndexChunks.ProjectedDocumentStringBytes | backend/search/index_preparation.go:203-213 | whatever the order in which the map is visited, the count is the capped sum of the text fields |
| IndexChunks.ChunksPartition | backend/search/index_preparation.go:153-185 | a tenant's chunks concatenate to its plan: no document lost, repeated or moved |
| IndexChunks.ChunksReachTarget | backend/search/index_preparation.go:153-185 | no chunk is empty and every chunk but the last reaches the target |
| IndexChunks.ChunkOvershoots | backend/search/index_preparation.go:14-27 | a chunk overshoots the target by less than its last document |
| IndexChunks.ChunkFitsReservation | backend/search/index_preparation.go:143-151 | with a bounded projector a chunk never exceeds the reservation |
| IndexChunks.DocumentIsBounded | backend/search/search.go:1071-1134 | the projector in use is bounded |
| IndexChunks.ReconcilingNeverRaises | backend/search/search.go:935-957 | for any documents and any chunk of theirs that the iterator projects, reconciling a lease of the reserved size to the chunk never raises activeBytes and keeps the accounting exact |
| IndexChunks.PrepareTenant | backend/search/index_preparation.go:89-97 | all chunks of one tenant, or a cancelled request |
| IndexChunks.PrepareMessageIndexChunksWith | backend/search/index_preparation.go:78-100 | every tenant of the stable grouping is chunked completely; a zero target means the default |
| Saturating.SaturatingSumIsCappedSum | backend/search/index_preparation.go:203-220 | saturating at each addition is capping the true sum once |
| Candidates.TwoRowsDecide | backend/store/inbox_arrivals.go:935-958 | two rows decide as all rows would: an id is chosen if and only if one row is strictly best |
| Candidates.TwoRowsDecideWeakTies | backend/store/inbox_arrivals.go:800-823 | the same for the rule that refuses only ties of the weakest strength |
| ArrivalLedger.Store.PruneArrivalCorrelationRows | backend/store/inbox_arrivals.go:1014-1054 | the three deletions in turn leave the pruned ledger |
| ArrivalLedger.Store.MatchMessageTransfer | backend/store/inbox_arrivals.go:766-839 | the confirmed transfer that explains the arrival best, oldest first; none if the best are tied by identity only |
| ArrivalLedger.Store.ConsumeTransferSourceExpunge | backend/store/inbox_arrivals.go:841-877 | the tombstone of the moved source is consumed along with its transfer |
| ArrivalLedger.Store.MatchExpungedFingerprint | backend/store/inbox_arrivals.go:879-974 | the tombstone that explains the arrival best, or none on a tie |
| ArrivalLedger.Store.ConsumePendingMoveForExpunge | backend/store/inbox_arrivals.go:713-756 | the oldest unresolved move that joins tombstone and arrival is consumed with it |
| ArrivalLedger.Store.ClassifyArrivalWithoutDelivery | backend/store/inbox_arrivals.go:673-711 | the verdict of the specification, with its tokens consumed and nothing else changed |
| ArrivalLedger.Store.LoadInboxArrivalMessage | backend/store/inbox_arrivals.go:618-671 | the stored fingerprint completed by the supplied one; refused if they contradict |
| ArrivalLedger.Store.InsertNewMailEvent | backend/store/inbox_arrivals.go:976-995 | an event unless there is one |
| ArrivalLedger.Store.IncrementSyncRunForArrival | backend/store/inbox_arrivals.go:1005-1012 | one more on the counter of the run, if it is of this account |
| ArrivalLedger.Store.HoldOrClassifyInboxArrival | backend/store/inbox_arrivals.go:88-192 | the whole transaction: prune, resolve, re-hold or classify or hold; rolled back on any refusal, a message in another mailbox than the caller names among them; answers the arrival row and whether an event was created |
| ArrivalLedger.Store.FinalizeDueInboxArrivals | backend/store/inbox_arrivals.go:212-306 | the whole transaction over a batch of due, eligible arrivals, earliest first; rolled back if one fails; answers how many events were created |
| ArrivalLedger.Store.DeferPendingInboxArrivalProbes | backend/store/inbox_arrivals.go:423-465 | puts off exactly the listed undecided arrivals of the account |
| ArrivalLedger.Store.StageMessageTransfer | backend/store/message_arrival_fingerprints.go:118-231 | the same operation is found again, the table is full, or one row is added; answers the newest row for the operation, or the new one |
| ArrivalLedger.Store.ClaimMessageTransferDispatchForOwner | backend/store/message_arrival_fingerprints.go:251-296 | an unclaimed pending row is claimed under the next attempt number |
| ArrivalLedger.Store.FinishMessageTransferDispatch | backend/store/message_arrival_fingerprints.go:301-326 | only the claim quoted exactly is finished, once |
| ArrivalLedger.Store.ReopenMessageTransferDispatchAfterProof | backend/store/message_arrival_fingerprints.go:331-355 | only the claim quoted exactly is reopened, and only if it is finished or another owner's |
| ArrivalLedger.Store.SetMessageTransferDestinationSnapshot | backend/store/message_arrival_fingerprints.go:360-377 | the snapshot of a pending row is set unless it is set |
| ArrivalLedger.Store.MarkMessageTransferSucceeded | backend/store/message_arrival_fingerprints.go:381-409 | a pending row succeeds, a destination UID is filled in only where it was missing |
| ArrivalLedger.Store.TerminalizeMessageTransferWithoutArrival | backend/store/message_arrival_fingerprints.go:414-447 | a transfer out of every Inbox is consumed without an arrival |
| ArrivalLedger.Store.MarkMessageTransferFailed | backend/store/message_arrival_fingerprints.go:450-475 | a pending row fails for good |
| ArrivalLedger.Store.RecordExpungedMessageFingerprint | backend/store/expunged_message_fingerprints.go:35-132 | a vanished source confirms the unknown-outcome move of it, or leaves one tombstone; fails if the digests contradict |
| ArrivalLedger.Store.DeleteMessagesMissingUIDsAndRecordExpunges | backend/store/messages.go:419-504 | for each row the listing lacks, in turn, the tombstone or the confirmation of its move and then its deletion; rolled back if one cannot be recorded |
| ArrivalLedger.Store.ExpungeMessages | backend/store/messages.go:481-500 | the loop over the stale rows: record, delete, stop at the first that cannot be recorded |
| LedgerReconciliation.ReconcilingConserves | backend/store/messages.go:419-504 | after the reconciliation of a mailbox, in any state a run can reach, the state is again one a run can reach, and each suppressed arrival has its own token |
| LedgerVerdict.VerdictIsBacked | backend/store/inbox_arrivals.go:673-711 | every verdict but undecided names its tokens: unconsumed, of the right kind, into the arrival's mailbox, of matching content, and from one source if there are two |
| LedgerVerdict.TransferComesFirst | backend/store/inbox_arrivals.go:679-711 | a transfer confirmed by content is never passed over for a tombstone |
| LedgerTokens.TokensAreConserved | backend/store/inbox_arrivals.go:88-974 | in every state a run can reach each local move or copy has its own consumed transfer, each external move its own consumed tombstone, and no id backs two arrivals |
| LedgerTokens.NoTokenServesTwice | backend/store/inbox_arrivals.go:713-974 | a local copy has consumed no tombstone; distinct arrivals have distinct tokens |
| LedgerPruning.PruningIsUnobservable | backend/store/inbox_arrivals.go:1014-1054 | classifying after pruning at the same instant gives the same verdict and consumes the same tokens |
| LedgerOnce.PruningIsUnobservableInRuns | backend/store/inbox_arrivals.go:1014-1054 | so it is in every state a run can reach, for every message, fingerprint and instant |
| LedgerOnce.StepIsFaithful | backend/store/inbox_arrivals.go:88-306 | every step: outcomes are final, events stay, a new event is of an arrival that was due and is now a delivery, and run counters rise by exactly the new events |
| LedgerOnce.OutcomesAreFinal | backend/store/inbox_arrivals.go:88-306 | over every continuation of every run, a decided arrival keeps outcome, tokens and time of decision while its row exists |
| LedgerOnce.CountersAreExact | backend/store/sync_runs.go:110-152 | over every run, a sync run's counter is the number of announcements made for it throughout, if and only if no progress or finish update reports more than it has |
| LedgerOnce.CountersMissNothing | backend/store/inbox_arrivals.go:976-1012 | in any case it is never smaller |
| LedgerDelivery.AnnouncedIfUnexplained | backend/store/inbox_arrivals.go:212-306 | in one step a message comes to be announced if and only if it is a finalization that goes through, the message has no event, and when the turn of its arrival comes in the batch no transfer and no tombstone explains it |
| LedgerDelivery.BatchDelivers | backend/store/inbox_arrivals.go:251-301 | a batch that goes through delivers exactly the arrivals that nothing explains at their turn |
| LedgerSuppression.RowIsRemoved | backend/store/inbox_arrivals.go:88-306 | in one step the arrival row of a message goes or is replaced if and only if a hold or finalization that goes through finds it outlived, or its message or mailbox is deleted; and a new one comes only with a hold or a restore of that message |
| LedgerSuppression.SuppressedUntilRemoved | backend/store/inbox_arrivals.go:88-306 | over every continuation of every run, a step announces a suppressed message if and only if its row was removed, it got a new one afterwards, and the guard of the announcement holds for that one |
| LedgerSuppression.SuppressedWhileRetained | backend/store/inbox_arrivals.go:1014-1054 | until the retention of the decision is over, a message that is not deleted stays suppressed, whatever else happens |
| LedgerRuns.SuppressedIsAnnounced | backend/store/inbox_arrivals.go:88-306 | a run in which a message suppressed as the user's own move is held again a week later and announced |
| LedgerTransfers.StageStaysExclusive | backend/store/message_arrival_fingerprints.go:118-231 | staging keeps: at most one active move per source, at most one active copy per operation |
| LedgerTransfers.RunIsExclusive | backend/store/migration_user_022.go:56-64 | over every run these uniqueness rules hold, and attempt numbers are well formed |
| LedgerTransfers.TransfersEvolve | backend/store/message_arrival_fingerprints.go:118-475 | over every run: failed and consumed are final, nothing becomes pending again, attempts never fall, snapshots are written once, a row keeps what it is about |
| LedgerClaims.OldClaimsAreDead | backend/store/message_arrival_fingerprints.go:251-355 | over every interleaving of owners attempts are handed out once and increase, and a superseded claim can neither finish nor reopen |
| LedgerClaims.ClaimsEndByReopening | backend/store/message_arrival_fingerprints.go:251-355 | over every interleaving, between two hand-outs of a transfer the first claim was reopened by a step that quoted exactly its owner and attempt, when it was finished or for another owner |
| LedgerClaims.AtMostOneClaimIsOpen | backend/store/message_arrival_fingerprints.go:251-355 | in every state a run can reach, of all claims ever handed out for a transfer at most one was not reopened |
| LedgerClaims.OpenClaimIsOnItsRow | backend/store/message_arrival_fingerprints.go:251-355 | that claim is the one its row shows, as long as the row is there |
| LedgerClaims.OwnClaimIsSafeIfTrimmed | backend/store/message_arrival_fingerprints.go:331-355 | the owner's own live claim cannot be reopened by it, if and only if it names itself without surrounding white space |
| LedgerRuns.LiveClaimIsReopened | backend/store/message_arrival_fingerprints.go:331-355 | a run in which a process with a space before its name claims a transfer and reopens the running claim, so that it may be claimed again |
| LedgerClaims.RunningClaimReopens | backend/store/message_arrival_fingerprints.go:331-355 | a running claim is reopened if and only if the current owner's name is not blank and differs from the stored one |
| MailboxGeneration.Mirror.ResetMailboxForRemoteGeneration | backend/store/mailbox_generation_reset.go:16-117 | the whole transaction, with its answer: a reset happened if and only if one was needed and the floor was given |
| MailboxGeneration.Mirror.CountRows | backend/store/mailbox_generation_reset.go:44-64 | the two counts are positive if and only if there are mirrored rows, and unproven ones |
| MailboxGeneration.Mirror.SnapshotMailboxGenerationState | backend/store/mailbox_generation_rebuild_state.go:15-152 | marks the rebuild, retargets the journal and adds every mirrored row worth keeping |
| MailboxGeneration.Mirror.RestoreMailboxGenerationState | backend/store/mailbox_generation_rebuild_state.go:196-394 | reattaches the only strongest match and deletes its journal row; fails if a table refuses an item |
| MailboxGeneration.Mirror.InsertItems | backend/store/mailbox_generation_rebuild_state.go:280-378 | the saved items are inserted one by one and all arrive |
| MailboxGeneration.Mirror.CreateMessage | backend/store/messages.go:48-145 | checks the generation, inserts or refreshes the row, restores; rolled back when refused; answers whether the message was stored. One without a generation is stored unchecked and nothing is restored to it |
| MailboxGeneration.Mirror.UpdateMailboxLastUIDForGeneration | backend/store/mailboxes.go:704-724 | the checkpoint only rises, and only under its own generation |
| MailboxGeneration.Mirror.InitializeMailboxRemoteStatus | backend/store/mailboxes.go:744-766 | the first generation is adopted once |
| MailboxGeneration.Mirror.InitializeMailboxGenerationRebuildArrivalUIDFloor | backend/store/mailbox_generation_rebuild_state.go:466-501 | an unset floor of the current rebuild is set; the durable one is returned |
| MailboxGeneration.Mirror.FinalizeMailboxGenerationRebuild | backend/store/mailbox_generation_rebuild_state.go:398-422 | drops what is left in the journal for that generation, and its mark |
| MailboxGeneration.Mirror.DeleteMessagesMissingUIDsAndRecordExpunges | backend/store/messages.go:419-504 | a row is deleted if and only if the mailbox is of the listing's generation and the row is mirrored, below its UIDNEXT and not listed; every other row stays as it is |
| GenerationInvariant.RunStaysBound | backend/store/mailbox_generation_reset.go:16-117 | over every run from a fresh mailbox, every mirrored row has the mailbox's generation, UIDs are unique, and the journal belongs to the rebuild under way |
| GenerationInvariant.CheckpointIsCurrent | backend/store/mailboxes.go:704-724 | over every run a nonzero checkpoint was written under the mailbox's present generation |
| GenerationInvariant.ChangeOfGenerationClears | backend/store/mailbox_generation_reset.go:66-117 | whatever step changes the generation leaves no checkpoint and no mirrored row, and a rebuild if there was a generation before |
| GenerationInvariant.ResetIsIdempotent | backend/store/mailbox_generation_reset.go:44-117 | a second reset to the same generation does nothing, whatever floor it brings |
| GenerationInvariant.FloorIsWrittenOnce | backend/store/mailbox_generation_rebuild_state.go:18-29 | over any run along which there is a rebuild for the same target, its floor stays what it was set to |
| GenerationIdentities.NothingIsAttachedTwice | backend/store/mailbox_generation_rebuild_state.go:30-394 | over any number of resets and restores no item id is on two messages, or on one and in the journal |
| GenerationIdentities.ThreadsAreSnoozedOnce | backend/store/migration_user_018.go:21-22 | over every run a thread has at most one live snooze |
| GenerationIdentities.ImportIsRefused | backend/store/messages.go:56-141 | any import bound to a generation, of a new or a known UID, is refused if and only if the mailbox, or the row with the UID, is of another generation, or its journal row holds a snooze of a thread that is snoozed or an item for a place that is taken |
| GenerationRefusal.RefusalHappens | backend/store/snoozes.go:41-56 | a run of six steps to a refusal of a new UID, for a thread snoozed again |
| GenerationRefusal.KnownRefusalHappens | backend/store/messages.go:107-136 | a run of nine steps to a refusal of a UID that is stored, for an event where an event is |
| GenerationRoundTrip.DistinctKeysAreRecognizable | backend/store/mailbox_generation_rebuild_state.go:208-234 | pairwise distinct raw digests, canonical digests and identities make every message recognised by its own journal row only |
| GenerationRoundTrip.RefetchIsExpected | backend/store/mailbox_generation_rebuild_state.go:196-394 | the exact state after a reset and the refetch of any part of the mailbox in any order |
| GenerationRoundTrip.RoundTrip | backend/store/mailbox_generation_rebuild_state.go:15-394 | after a reset and the refetch of all messages in any order the journal is empty and each message has exactly its pending flags, snooze, event, undecided arrival, reminders and sends |
| GenerationConservation.StateIsConserved | backend/store/mailbox_generation_rebuild_state.go:15-394 | over every run of resets and partial refetches, interrupted or not, with other steps in between that are not about the message, a message is owed the same state at the end as at the start |
| GenerationConservation.RebuildCompletes | backend/store/mailbox_generation_rebuild_state.go:15-394 | when the messages are back after such a run, each row has what it was owed and the journal is empty |

## Left out

- CoordinatorInvariant.RunKeeps: the next sequence number is an unbounded integer, not a `uint64` that would wrap after 2^64 requests.
- WriteCoordinator.Coordinator.Request: waiting on channels, the wait diagnostics and the early return for a cancelled context are not modelled; what a waiter is told is its state in the coordinator.
- CoordinatorBarrier.BarrierIsExact: stated for a positive aging interval, which the constructor guarantees, and below the count limit, where bytes are what decides.
- ServiceSafety.RunIsSafe: the service is a state machine on values, because its steps belong to any number of goroutines, so there is no object that owns them. One operation is one pass through the gates, and its lease may be re-accounted any number of times on the way, where the source does so twice. The bodies of the operations, the stall watchdog, the time-out of a close, the opening of indexes, and the path without a coordinator, which a service always has (search.go:474-480), are not modelled.
- ServiceProgress.CloseCompletes: an operation on an index is taken to end; the time-out for one that does not is left out.
- IndexChunks.ReconcilingNeverRaises: is about the first re-accounting, from the reservation to the projection; the second, to what the index library reports for the mapped batch, may raise the bytes and is covered as any resize.
- IndexChunks.PrepareMessageIndexChunksWith: a projector is always given; the default for a missing one is `MessageDocument.Document`.
- MessageDocument.DocumentFits: `compoundSearchText`, `emailDomainTerms`, the preview of a message body and the language normaliser are arbitrary functions, whose results the document bounds.
- EditDistance.BoundedEditDistance: works on rune sequences; the conversion from UTF-8 strings is not modelled.
- SyncHeaders.SyncTimestampForMarker: reading a timestamp that is not in the printed layout is an arbitrary function, like the library's parser; the years it accepts are checked as in the source.
- SyncHeaders.FindHeaderValue: names are compared with the folding that `strings.EqualFold` gives for these two ASCII names, the two Unicode characters that fold to `k` and `s` included.
- HeaderText.TrimIsTrimmed: white space is that of `unicode.IsSpace` in valid UTF-8.
- CanonicalMessage.WriteCanonicalMessage: the hash is left out; what is written to it is modelled.
- LedgerTokens.TokensAreConserved: one tenant's ledger; digests and hashes are opaque keys compared for equality, 0 for a missing one; the clock never goes back and is positive.
- ArrivalLedger.Store.HoldOrClassifyInboxArrival: a mailbox's name and role are reduced to whether it is an Inbox or All Mail; event ids and the sender and subject of an event are left out, and so is the retry of a busy database.
- ArrivalLedger.Store.InsertNewMailEvent: the cancellation of the thread's snoozes by a new message is not part of this step; its effect on the journal is a step of `GenerationState`.
- ArrivalLedger.Store.IncrementSyncRunForArrival: the columns for the latest sender, subject and message are left out.
- ArrivalLedger.Store.ConsumeTransferSourceExpunge: the update over all matching tombstones is of at most one, by their uniqueness.
- ArrivalLedger.Store.StageMessageTransfer: the checks that a digest is hexadecimal and that ids are positive are left out.
- LedgerSteps.DoWorld: the deletion of sync runs, which takes them off their arrivals, and of accounts, with all that is theirs, are not steps.
- LedgerOnce.CountersAreExact: a finish update that an interruption has made void is a report that does not happen.
- LedgerOnce.StepIsFaithful: an event put back by a generation restore counts for no run and may be older than the step.
- GenerationInvariant.RunStaysBound: one mailbox; legacy calls not bound to a generation, imports without a generation (which `MailboxGeneration.Mirror.CreateMessage` does store), and the promotion of an outbox row to a mirrored one are not steps.
- GenerationRoundTrip.RoundTrip: starts with no rebuild under way; `GenerationConservation` covers the other starts.
- GenerationConservation.StateIsConserved: keys tell the mailbox's messages apart, and the messages come back with the keys they had.
- MailboxGeneration.Mirror.SnapshotMailboxGenerationState: journal ids are given out in the order of the messages' ids, with gaps; the conflict clause on the source message never applies, by `GenerationInvariant.Journals`.
- MailboxGeneration.Mirror.RestoreMailboxGenerationState: an item is an id, a thread and opaque details; a restored arrival takes its fingerprint from the import. Decided arrivals are not journaled, as in the source.
- MailboxGeneration.Mirror.DeleteMessagesMissingUIDsAndRecordExpunges: what it does to the ledger is the contract of `ArrivalLedger.Store.DeleteMessagesMissingUIDsAndRecordExpunges`; this one is about the mailbox's rows.
- MailboxGeneration.Mirror.ResetMailboxForRemoteGeneration: cleaning up the blobs of deleted messages is left out.
- UpdateMailboxRemoteStatusForGeneration: writes counters that nothing here depends on, under the same guard as the checkpoint.
- List queries, schema migrations and SQL text: the tables appear as maps, their uniqueness and cascade rules as part of the steps.
- IMAP and SMTP sessions, query parsing, scoring, accounts, contacts, plugins and configuration.
