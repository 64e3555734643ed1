# Verified models of the asset ledger, work orders and snapshot attempt control

This project models, in Dafny, two groups of code of the subscription platform and proves what they
guarantee over whole runs.

* **Assets.** The vehicle cost ledger with its command receipts and exception approvals
  (`asset-accounting`), the versioned work orders with their event log, evidence and restrictions
  (`asset-operations`), and the vehicle periods closed under races (`asset-facts`). The database is a
  set of tables whose named constraints are guards; a command is a transaction; row and advisory
  locks are explicit where interleavings matter.
* **Snapshot attempt control.** The concurrent phase protocol of the control server, the lease
  arithmetic of the dispatch reader session, and the encrypted volume that is created, used,
  destroyed and given back under failing commands and repeated cleanups.

How it is built: state is a datatype, a command or critical section is a function on it, a run is the
fold of a sequence of steps, and the main results quantify over every run. Where the code updates an
object in place, a class with the same fields and statements is proved to do exactly what the function
says (or, for the volume and the racing periods, is proved directly against nondeterministic
commands). Everything the code cannot decide itself (clocks, random ids, other tables, whether a lock
is free, whether a command fails) is an argument.

| file | subject |
|---|---|
| `Wrappers.dfy`, `AssetTypes.dfy`, `Sorting.dfy` | shared types, the order of texts, sorting |
| `SnapshotControl.dfy`, `ControlSections.dfy` | the control protocol, interleaved; each section exactly |
| `ReaderSession.dfy` | the reader session and its two clocks |
| `AttemptVolume.dfy` | the attempt volume and the attempt's cleanup |
| `CanonicalJson.dfy` | the printer and a parser for JSON text |
| `CanonicalValue.dfy`, `CanonicalGraph.dfy`, `CanonicalOutput.dfy` | canonicalizing object graphs; the text unit by unit |
| `CostLedger.dfy`, `CostSummary.dfy`, `SummaryAnswers.dfy` | ledger entries and their summary |
| `AccountingStore.dfy`, `AccountingInvariants.dfy`, `AccountingAnswers.dfy`, `AccountingRepository.dfy` | receipts, ledger and approvals; when each command writes |
| `FinancialRecovery.dfy`, `FinancialAnswers.dfy` | closure-financial commands and their retries |
| `LockOrder.dfy`, `CostLocks.dfy` | which rows a cost command locks, and in which order |
| `CostRetention.dfy`, `CostSteps.dfy` | interleaved close, append and reverse transactions; each step exactly |
| `WorkOrders.dfy`, `WorkOrderCommands.dfy`, `WorkOrderInvariants.dfy`, `WorkOrderReplay.dfy`, `WorkOrderSessions.dfy`, `WorkOrderHistory.dfy`, `WorkOrderHeaders.dfy`, `WorkOrderAnswers.dfy`, `AssetOperationsRepository.dfy` | work orders, restrictions, lock handles, replay; when each command writes |
| `EvidenceChains.dfy` | chains of evidence |
| `AssetFacts.dfy`, `FactSteps.dfy` | vehicle periods under racing transactions; each step exactly |
| `VehicleAvailability.dfy`, `AvailabilityAnswers.dfy` | the availability decision and the allocation query |

## What the proofs show about the code

* A late `_end` after a failed cleanup replaces FAILED, so a started cleanup alone does not keep
  operations from beginning (`CleanupStartedDoesNotStopEverything`); `CleanupStopsEverythingExactlyWhen`
  gives the exact condition. CLEANED itself is absorbing.
* The volume's `cleanup()` returning True does not mean that the volume was destroyed: with no backing
  file on record it destroys nothing. `Cleanup` states the condition as an equivalence; the attempt's
  own cleanup looks at the `destroyed` record as well. Once the core pattern in place is not the disabled
  one, no retry ever succeeds and the lock stays held (`RetryWithForeignCore`). That happens in two ways:
  the pattern was restored but that could not be confirmed, or the write that disables it had no effect in
  the first place (`DisableCore`), unless the pattern found was already the disabled one.
* A closure-financial decision can only be retried without its time if the approval was requested in
  the closure-financial scope; otherwise the retry is a source conflict (`DecisionRetryReplays`;
  `OutOfScopeRequestBlocksTheRetry` is such a run).
* The prepared transition does not pass the cost gate. Closed cost-required orders keep a standing cost in
  every state of a run if and only if no prepared transition closes such an order without one
  (`CostRetainedExactlyWhen`); a caller can tell once it has locked the order
  (`CostStandsStillUnderTheLock`). `PreparedCloseLosesTheCost` is an input the service method accepts; the
  one caller in the repository asks for IN_PROGRESS only
  (`apps/api/src/subscription-closure/subscription-closure.service.ts:3270`) and never sends it.
* A lock handle keeps the header as it was when the handle was made. Notes, evidence, restrictions and
  releases store that header in their event and return it, so an outcome need not show the order the
  command reached. The physical receipt of a returned vehicle makes its transition handle and its
  restriction handle first, moves the order to IN_PROGRESS and only then creates the restriction
  (`apps/api/src/subscription-closure/subscription-closure.service.ts:3546-3608`): the restriction's event
  says PENDING, and every replay returns that (`ReceiptStoresTheOldHeader`). Stored headers are those of the
  moment if and only if no such command uses a handle older than the last assignment or transition of its
  order (`StoredHeadersAreCurrentExactlyWhen`). The order's own row is not affected: it is always the fold of
  its log (`HeaderIsFoldOfItsLog`), and no assignment or transition writes with an old handle
  (`MovesNeedACurrentHandle`).
* Cost commands could never wait for each other in a circle, although some lock by rank and some by table name,
  because only closure cases and work orders are contended (`CostCommandsNeverWaitInACircle`). Every one of
  these locks is taken without waiting, so that today a contended command fails instead; the theorem is about
  the order of acquisition and would hold of commands that wait, too.
* A close that loses the race for a period always conflicts, and replays happen only when a close first looks
  its source up (`LosingCloseConflicts`, `CloseReplaysExactlyWhen`): the lock on the source, held to the end
  of the transaction, keeps everyone else from recording the same end. The replay after a lost race
  (`apps/api/src/asset-facts/asset-facts.repository.ts:641-648`) can only arise between two commands
  interleaved in one transaction, which the model does not have.

## Model

| member | source | states |
|---|---|---|
| SnapshotControl.InvHolds | scripts/release/snapshot-h1-control.py:65-136 | the inductive invariant of phase, flags, operation count, threads and callback history holds after every interleaving of handler threads |
| SnapshotControl.CleanedIsAbsorbing | scripts/release/snapshot-h1-control.py:71-97 | once CLEANED, the phase never changes, no operation is in flight, and no callback is invoked any more, late `_end` calls included |
| SnapshotControl.CallbacksAtMostOnce | scripts/release/snapshot-h1-control.py:99-136 | each operation invokes each of its callbacks at most once in any run |
| SnapshotControl.ActiveOperationsCounted | scripts/release/snapshot-h1-control.py:65-76 | `active_operations` is the number of operations in flight, and at most 2 |
| SnapshotControl.ProductionInOrder | scripts/release/snapshot-h1-control.py:111-136 | FINISHED implies `producer_done`, which implies that peer check, admission check and produce succeeded in this order |
| SnapshotControl.CleanupStartedDoesNotStopEverything | scripts/release/snapshot-h1-control.py:71-97 | a run in which an operation begins after cleanup started, through a late `_end` |
| SnapshotControl.CleanupStopsEverythingExactlyWhen | scripts/release/snapshot-h1-control.py:65-97 | after any run, nothing can ever begin again if and only if the state fails a condition on phase and threads |
| ControlSections.StartsExactlyWhen | scripts/release/snapshot-h1-control.py:65-126 | in every state, whether a handler enters, by its operation, the phase and the flags, what it leaves, and its first callback |
| ControlSections.ReturnsExactly | scripts/release/snapshot-h1-control.py:99-136 | what a callback's answer leads to: the next callback of the operation in its order, the re-check, or the end |
| ControlSections.ChecksExactly | scripts/release/snapshot-h1-control.py:111-136 | what the re-check after the callbacks demands, and that production is then done |
| ControlSections.StopsExactly | scripts/release/snapshot-h1-control.py:71-76 | the phase an operation leaves: CLEANING stays, failure is FAILED, success Prepared or FINISHED, production leaves it |
| ControlSections.CleanupEndsExactly | scripts/release/snapshot-h1-control.py:85-97 | cleanup waits for no active operation or gives up, and leaves CLEANED or FAILED |
| ControlSections.StartsNew | scripts/release/snapshot-h1-control.py:52-54 | the protocol starts in phase NEW with no flag set, nothing active and no history |
| SnapshotControl.H1SnapshotControl.BeginOperation | scripts/release/snapshot-h1-control.py:65-69 | the begin section refines its function on the shared state |
| SnapshotControl.H1SnapshotControl.EndOperation | scripts/release/snapshot-h1-control.py:71-76 | the end section, which protects only CLEANING |
| SnapshotControl.H1SnapshotControl.BeginCleanup | scripts/release/snapshot-h1-control.py:78-84 | cleanup starts once |
| SnapshotControl.H1SnapshotControl.EndCleanup | scripts/release/snapshot-h1-control.py:85-97 | CLEANED exactly on success, FAILED otherwise |
| SnapshotControl.H1SnapshotControl.BeginProduce | scripts/release/snapshot-h1-control.py:120-126 | production starts once, while running |
| SnapshotControl.H1SnapshotControl.ConfirmProduced | scripts/release/snapshot-h1-control.py:127-136 | `producer_done` is set only while still running |
| SnapshotControl.H1SnapshotControl.Manage | scripts/release/snapshot-h1-control.py:99-118 | prepare and run as begin, callbacks, re-check and end |
| ReaderSession.AuthorityRunsWithinSessionLife | scripts/release/snapshot-h1-attempt.py:215-259 | with clocks advancing together and small local work, every authority call starts with more than 330 s of session life less that work, ends before expiry on both clocks, and never fails the final time checks |
| ReaderSession.RefusedExactlyWhen | scripts/release/snapshot-h1-attempt.py:215-222 | a call is refused at once, with nothing changed, exactly by operation, closed or failed session, clock gone back, or less than 400 s left |
| ReaderSession.HeldSessionAnswers | scripts/release/snapshot-h1-attempt.py:223-229 | a call holding a session with enough life is done if and only if the very pinned file is found before and after and an answer comes in time; a differing file is a changed session |
| ReaderSession.FreshSessionAnswers | scripts/release/snapshot-h1-attempt.py:230-259 | a call that issues is done if and only if the answer fits the file made, and that very file is found afterwards and an answer comes in time; the session is then the new one |
| ReaderSession.NothingIsIssuedOtherwise | scripts/release/snapshot-h1-attempt.py:230-233 | a file present, sixteen issuances, or an old session whose file differs or stays, and nothing is issued |
| ReaderSession.NewSessionIsOpen | scripts/release/snapshot-h1-attempt.py:165-173 | a new session permits a first call and can be closed at once |
| ReaderSession.ClosesNormallyExactlyWhen | scripts/release/snapshot-h1-attempt.py:261-280 | a close returns normally if and only if the held file went, none is left, and a reading past both bounds comes before any 30 s past the monotonic one |
| ReaderSession.AtMostFourteenSessions | scripts/release/snapshot-h1-attempt.py:219-254 | issuing calls are at least 510 s apart less the local work and none starts after 6800 s, so at most 14 sessions are issued and the limit of 16 never refuses a call |
| ReaderSession.NormalCloseOutlivesEverySession | scripts/release/snapshot-h1-attempt.py:235-279 | after a normal close the file was seen absent, both clocks passed 900 s beyond every issuance return (unknown outcomes included), sessions stamped by then had expired, and no later call issues or succeeds |
| ReaderSession.CloseOutwaitsTogether | scripts/release/snapshot-h1-attempt.py:261-277 | READER_EXPIRY_UNKNOWN is raised only when the clocks do not advance together |
| ReaderSession.AwaitExpiry | scripts/release/snapshot-h1-attempt.py:271-277 | the wait loop terminates, and its last reading is at most one sleep past `wait_mono` + 30 |
| ReaderSession.H1DispatchReaderSession.Invoke | scripts/release/snapshot-h1-attempt.py:215-259 | `call` statement by statement refines its function on the session |
| ReaderSession.H1DispatchReaderSession.Renew | scripts/release/snapshot-h1-attempt.py:230-254 | issuing: charged before, accepted only after validation |
| ReaderSession.H1DispatchReaderSession.Shut | scripts/release/snapshot-h1-attempt.py:261-279 | `close` with its wait loop |
| AttemptVolume.Lifecycle | scripts/release/snapshot-h1-volume.py:166-289 | prepare and any number of cleanups: `destroyed` only if everything is gone and erased and, if there was a header, the old key was tried and rejected; the lock let go only with the key zeroed and swap list and core pattern as found, if ever touched |
| AttemptVolume.UndisturbedLifecycle | scripts/release/snapshot-h1-volume.py:166-289 | on a clean machine with nothing going wrong, prepare and cleanup return normally, the volume is destroyed, and swaps and core pattern are as found |
| AttemptVolume.EveryCommandHasARegularOutcome | scripts/release/snapshot-h1-volume.py:34-45 | whatever the command, there is an outcome in which nothing goes wrong, so that what is promised of undisturbed calls is promised of some |
| AttemptVolume.H1SnapshotAttemptVolume.RestoreSwaps | scripts/release/snapshot-h1-volume.py:260-269 | turns on each stopped swap that is not active, in order; undisturbed, returns normally if and only if the active ones were saved and this gives the saved list back |
| AttemptVolume.H1SnapshotAttemptVolume.TurnOnMissing | scripts/release/snapshot-h1-volume.py:264-267 | a swap-on is attempted for each missing swap in order, up to the first failure |
| AttemptVolume.RetryWithForeignCore | scripts/release/snapshot-h1-volume.py:270-275 | once the core pattern in place is not the disabled one, cleanup never succeeds and keeps the lock |
| AttemptVolume.H1SnapshotAttemptVolume.DisableCore | scripts/release/snapshot-h1-volume.py:179-183 | returns normally only with the pattern saved and disabled; a write without effect raises and leaves the pattern foreign, unless it was the disabled one |
| AttemptVolume.ErasedYieldsToNoKey | scripts/release/snapshot-h1-volume.py:236-243 | on a header left without keyslots every key is answered with no usable keyslot |
| AttemptVolume.H1SnapshotAttemptVolume.Prepare | scripts/release/snapshot-h1-volume.py:166-219 | succeeds only with swap off, core dumps off, one keyslot, mapping and mount in place; otherwise cleans up and raises; undisturbed, succeeds if and only if the machine is clean |
| AttemptVolume.H1SnapshotAttemptVolume.Destroy | scripts/release/snapshot-h1-volume.py:221-258 | with a backing file on record, returns normally exactly if destruction is recorded, which means nothing is attached or named, no keyslot was left and, if there was a header, a trial of the old key was answered with no usable keyslot, and no key whatever opens what is left; undisturbed, returns normally if and only if what is attached is the volume on record |
| AttemptVolume.H1SnapshotAttemptVolume.Restore | scripts/release/snapshot-h1-volume.py:260-275 | returns normally only with swap list and core pattern as saved, or never touched; undisturbed, if and only if they can be given back |
| AttemptVolume.H1SnapshotAttemptVolume.ClearKey | scripts/release/snapshot-h1-volume.py:282-285 | every byte of the key buffer is zero before the key is dropped |
| AttemptVolume.H1SnapshotAttemptVolume.Cleanup | scripts/release/snapshot-h1-volume.py:277-289 | returns normally only with lock released, key zeroed, machine settled; the volume is then destroyed if and only if it was before or a backing file was on record; undisturbed, it returns normally if and only if the volume can be destroyed and the machine given back |
| AttemptVolume.H1SnapshotAttempt.Cleanup | scripts/release/snapshot-h1-attempt.py:396-426 | True only if every consumer stopped and the volume is destroyed; the volume is not touched while a consumer may use it; and True whenever they are |
| CanonicalJson.RoundTrip | apps/api/src/asset-accounting/asset-accounting.domain.ts:102-141 | parsing the printed text of a canonical value gives the value back |
| CanonicalJson.PrintIsInjective | apps/api/src/asset-accounting/asset-accounting.domain.ts:112-125 | equal texts mean equal canonical values |
| CanonicalJson.UnitsRoundTrip | apps/api/src/asset-accounting/asset-accounting.domain.ts:102-110 | every string, lone surrogates and control characters included, survives quoting and parsing |
| CanonicalJson.NormalizeIsIdempotent | apps/api/src/asset-accounting/asset-accounting.repository.ts:1728-1730 | any accepted JSON text has one canonical text, and normalizing it again changes nothing |
| CanonicalValue.WalkYieldsTheMeaning | apps/api/src/asset-accounting/asset-accounting.domain.ts:40-100 | the walk over an object graph yields a value if and only if the root stands for it, said without key order, object identity or ancestors |
| CanonicalValue.MeaningIsUnique | apps/api/src/asset-accounting/asset-accounting.domain.ts:40-100 | a value stands for at most one canonical value |
| CanonicalGraph.AcceptsExactlyAcyclicGraphs | apps/api/src/asset-accounting/asset-accounting.domain.ts:40-100 | the walk, which always ends, accepts a graph if and only if no path meets an object twice and every object reached is well made; sharing is accepted |
| CanonicalGraph.OnlyTheMeaningShows | apps/api/src/asset-accounting/asset-accounting.domain.ts:71-99 | key order, undefined properties and holes never change the text |
| CanonicalGraph.NormalizingTwiceIsNormalizingOnce | apps/api/src/asset-accounting/asset-accounting.repository.ts:1728-1730 | the object built from a snapshot's canonical text has the same canonical text |
| CanonicalGraph.TextIdentifiesTheMeaning | apps/api/src/asset-accounting/asset-accounting.domain.ts:127-141 | two snapshots have equal texts if and only if they stand for the same value |
| CanonicalOutput.NamesArePrintedInOrder | apps/api/src/asset-accounting/asset-accounting.domain.ts:92-123 | the text of an accepted object has its names in the order of their code units: of two neighbours the first is a proper prefix or has the smaller unit where they first differ |
| CanonicalOutput.TextsAreQuotedUnitByUnit | apps/api/src/asset-accounting/asset-accounting.domain.ts:104-110 | which units are escaped and how, surrogates without their other half in lower-case hexadecimal, pairs as they are |
| CanonicalOutput.NumbersArePrintedInDecimal | apps/api/src/asset-accounting/asset-accounting.domain.ts:112-116 | integers in decimal with a minus sign where negative |
| CanonicalOutput.UnitsRead | apps/api/src/asset-accounting/asset-accounting.domain.ts:102-110 | the white space, digits and escapes that are read |
| CanonicalOutput.NumbersAreReadExactlyWhen | apps/api/src/asset-accounting/asset-accounting.domain.ts:112-116 | which numbers are read: no leading zero, no fraction or exponent |
| CanonicalOutput.DigitsAreCounted | apps/api/src/asset-accounting/asset-accounting.domain.ts:112-116 | a number is read to its last digit |
| CanonicalOutput.SampleText | apps/api/src/asset-accounting/asset-accounting.domain.ts:125-145 | the text of one object in full: names sorted, an undefined property left out, a hole as null, a negative zero as 0, a big integer quoted |
| CostLedger.Summarize | apps/api/src/asset-accounting/asset-accounting.domain.ts:335-390 | fails exactly on repeated or blank ids and unacceptable entries, and otherwise computes the tally of each dimension |
| CostLedger.IndexById | apps/api/src/asset-accounting/asset-accounting.domain.ts:338-349 | the index by id exists exactly if ids are distinct and not blank |
| CostLedger.TallyOneMore | apps/api/src/asset-accounting/asset-accounting.domain.ts:210-224 | adding an entry to its bucket is what one more entry does to the tally |
| CostSummary.ListingsAreSummable | apps/api/src/asset-accounting/asset-accounting.repository.ts:1009-1032 | no listing by vehicle, order or work order makes the summary fail |
| CostSummary.SummaryConserves | apps/api/src/asset-accounting/asset-accounting.domain.ts:361-390 | in each dimension amounts add up to the total and counts to the number of entries |
| CostSummary.BucketsStandForUnreversedOriginals | apps/api/src/asset-accounting/asset-accounting.domain.ts:361-390 | each bucket is the sum of the listed originals not reversed, so never negative |
| CostSummary.SummaryIgnoresOrder | apps/api/src/asset-accounting/asset-accounting.domain.ts:335-390 | listings of the same entries in any order have the same summary |
| SummaryAnswers.AcceptedExactlyWhen | apps/api/src/asset-accounting/asset-accounting.domain.ts:335-390 | which listings are refused, entry by entry |
| SummaryAnswers.EveryKeyIsThere | apps/api/src/asset-accounting/asset-accounting.domain.ts:335-390 | every action type, party type and category has its bucket, and so has every responsible party that occurs |
| SummaryAnswers.PartiesAreNamed | apps/api/src/asset-accounting/asset-accounting.domain.ts:335-390 | how a responsible party is named |
| SummaryAnswers.DimensionsMean | apps/api/src/asset-accounting/asset-accounting.domain.ts:335-390 | what each dimension is and what is added up |
| SummaryAnswers.StandingMeans | apps/api/src/asset-accounting/asset-accounting.domain.ts:335-390 | which originals a bucket is the sum of |
| AccountingInvariants.InvHolds | apps/api/src/asset-accounting/asset-accounting.repository.ts:429-969 | the invariant tying ledger, approvals and receipts holds after every run of commands |
| AccountingInvariants.ExactlyOnce | apps/api/src/asset-accounting/asset-accounting.repository.ts:1770-1824 | a source with a receipt keeps it for ever; the same command replays the stored outcome and changes nothing, any other is a source conflict and changes nothing |
| AccountingInvariants.WritingLeavesItsReceipt | apps/api/src/asset-accounting/asset-accounting.repository.ts:1826-1880 | a command that wrote leaves a receipt with its payload and outcome under a source that had none |
| AccountingInvariants.EntriesAreCostReceipts | apps/api/src/asset-accounting/asset-accounting.repository.ts:805-855 | ledger entries and cost receipts correspond one to one |
| AccountingInvariants.VersionCountsDecisionsAndExpiries | apps/api/src/asset-accounting/asset-accounting.repository.ts:561-588 | an approval's version is the number of its decide and expire receipts, at most 2 |
| AccountingInvariants.ApprovalsStayLegal | apps/api/src/asset-accounting/asset-accounting.repository.ts:1513-1541 | every approval is a legal successor (decider other than requester, versions by status), and at most one is live per subject and snapshot hash |
| AccountingInvariants.StaleForEver | apps/api/src/asset-accounting/asset-accounting.repository.ts:742-777 | after a stale report no later call reports the approval current |
| AccountingInvariants.NewEntryKeepsLedger | apps/api/src/asset-accounting/asset-accounting.repository.ts:925-954 | appends and reversals keep entries well formed, reversals exact, and at most one per original |
| AccountingInvariants.ReachableLedgersSummarize | apps/api/src/asset-accounting/asset-accounting.repository.ts:1009-1032 | every listing of a reachable ledger can be summarized, independently of its order |
| AccountingStore.FirstTimeIsItsChange | apps/api/src/asset-accounting/asset-accounting.repository.ts:429-610 | a first execution either changes nothing or makes exactly one change that its guards allow |
| AccountingAnswers.StatedMeans | apps/api/src/asset-accounting/asset-accounting.repository.ts:1053-1091 | what a command must state: ids, a reason, a positive amount, a subject |
| AccountingAnswers.UuidsAreGrouped | apps/api/src/asset-accounting/asset-accounting.repository.ts:1485-1491 | lower-case hexadecimal in groups of 8, 4, 4, 4 and 12 |
| AccountingAnswers.BlankMeans | apps/api/src/asset-accounting/asset-accounting.domain.ts:148-152 | which texts are blank |
| AccountingAnswers.PeriodsAreMonths | apps/api/src/asset-accounting/asset-accounting.domain.ts:190-194 | an accounting period is a year and a month from 01 to 12 |
| AccountingAnswers.ReplaysExactlyWhen | apps/api/src/asset-accounting/asset-accounting.repository.ts:1770-1815 | a receipt replays for its very payload and refuses every other, with nothing written |
| AccountingAnswers.AppendWritesExactlyWhen | apps/api/src/asset-accounting/asset-accounting.repository.ts:779-855 | on a free source an append writes if and only if all it refers to is live and the settlement open, and then its entry and receipt |
| AccountingAnswers.ReverseWritesExactlyWhen | apps/api/src/asset-accounting/asset-accounting.repository.ts:881-969 | after any run a reversal writes if and only if its original is not reversed and a closed order keeps another cost, and then the opposite amount and its receipt |
| AccountingAnswers.RequestWritesExactlyWhen | apps/api/src/asset-accounting/asset-accounting.repository.ts:429-511 | a request writes if and only if none is live for its subject and snapshot, and then a pending approval |
| AccountingAnswers.DecideWritesExactlyWhen | apps/api/src/asset-accounting/asset-accounting.repository.ts:531-588 | after any run a decision writes if and only if the approval meant is pending, requested by someone else, on this very snapshot |
| AccountingAnswers.ExpireWritesExactlyWhen | apps/api/src/asset-accounting/asset-accounting.repository.ts:590-610 | after any run an expiry writes if and only if the approval meant is pending or approved |
| AccountingAnswers.CurrencyExactlyWhen | apps/api/src/asset-accounting/asset-accounting.repository.ts:742-777 | after any run an approval is current if and only if it is the one meant, approved, on this very snapshot, and nothing changes; stale if and only if on another snapshot with a live actor, and then exactly it is expired |
| AccountingRepository.AssetAccountingRepository.AppendCostEntry | apps/api/src/asset-accounting/asset-accounting.repository.ts:779-855 | the method refines the append command on the tables |
| AccountingRepository.AssetAccountingRepository.ReverseCostEntry | apps/api/src/asset-accounting/asset-accounting.repository.ts:881-969 | the method refines the reverse command |
| AccountingRepository.AssetAccountingRepository.RequestExceptionApproval | apps/api/src/asset-accounting/asset-accounting.repository.ts:429-511 | the method refines the request command |
| AccountingRepository.AssetAccountingRepository.DecideExceptionApproval | apps/api/src/asset-accounting/asset-accounting.repository.ts:531-588 | the method refines the decide command |
| AccountingRepository.AssetAccountingRepository.ExpireExceptionApproval | apps/api/src/asset-accounting/asset-accounting.repository.ts:590-610 | the method refines the expire command |
| AccountingRepository.AssetAccountingRepository.RequireCurrentApprovedException | apps/api/src/asset-accounting/asset-accounting.repository.ts:742-777 | the method refines the currency check |
| AccountingRepository.AssetAccountingRepository.TakeCapability | apps/api/src/asset-accounting/asset-accounting.repository.ts:857-879 | a capability is spent by its first use, and accepted only for its own transaction and source |
| FinancialRecovery.RequestRetryReplays | apps/api/src/asset-accounting/asset-accounting.repository.ts:418-427 | a request retried without its time, whatever happened since, recovers the first time and returns the first outcome without writing |
| FinancialRecovery.DecisionRetryReplays | apps/api/src/asset-accounting/asset-accounting.repository.ts:520-529 | a decision retried without its time replays if and only if the approval was requested in the closure-financial scope, and is a source conflict otherwise; nothing is written |
| FinancialRecovery.OutOfScopeRequestBlocksTheRetry | apps/api/src/asset-accounting/asset-accounting.repository.ts:520-529 | a run that decides an approval requested outside the financial scope: the decision is accepted and no later retry of it ever is |
| FinancialRecovery.ReceiptExcludesFirstWrite | apps/api/src/asset-accounting/asset-accounting.repository.ts:1275-1326 | in any store whatever, a source that has a receipt is never written to for the first time again |
| FinancialRecovery.RequestReceiptIsValid | apps/api/src/asset-accounting/asset-accounting.repository.ts:1328-1483 | the request receipt of a reachable approval passes the checks exactly if its source and subject are in scope |
| FinancialRecovery.DecisionReceiptIsValid | apps/api/src/asset-accounting/asset-accounting.repository.ts:1328-1483 | the decision receipt passes the checks against the approval as decided or since expired |
| FinancialRecovery.FinancialStaysReachable | apps/api/src/asset-accounting/asset-accounting.repository.ts:418-427 | a financial command leaves a store that ordinary commands can leave |
| FinancialAnswers.ScopeMeans | apps/api/src/asset-accounting/asset-accounting.repository.ts:1243-1273 | the closure-financial scope: kind, source, key, subject, case and bill |
| FinancialAnswers.FirstFinancialIsOrdinary | apps/api/src/asset-accounting/asset-accounting.repository.ts:418-427 | on a free source a financial command in scope is the ordinary one at the present time, and out of scope it is refused |
| FinancialAnswers.LegalMeans | apps/api/src/asset-accounting/asset-accounting.repository.ts:1513-1541 | a legal approval has one version for being decided and one for having expired, each wholly or not at all |
| FinancialAnswers.RequestReceiptPassesExactlyWhen | apps/api/src/asset-accounting/asset-accounting.repository.ts:1328-1483 | whatever the store, a request receipt passes exactly when it is to the last field the one this approval's request leaves |
| FinancialAnswers.DecisionReceiptPassesExactlyWhen | apps/api/src/asset-accounting/asset-accounting.repository.ts:1328-1483 | the same of a decision receipt, for an approval as decided or since expired |
| FinancialAnswers.TimeIsRecoveredExactlyWhen | apps/api/src/asset-accounting/asset-accounting.repository.ts:1275-1326 | the recorded time is used exactly when the receipts pass against the stored approval |
| LockOrder.CompactLocks | apps/api/src/asset-accounting/asset-accounting.repository.ts:1942-1962 | the rows asked for, each once, for update exactly if some request asks so, each ahead of all that follow |
| LockOrder.SameOrderNeverCrosses | apps/api/src/asset-accounting/asset-accounting.repository.ts:1930-1962 | two commands using one order never lock two common rows in opposite orders |
| LockOrder.LockCostRows | apps/api/src/asset-accounting/asset-accounting.repository.ts:1882-1913 | an append or a reversal takes exactly the rows it asks for, closure case and reversed work order for update, by rank under a closure case or a capability and by name otherwise |
| CostLocks.LocksExactly | apps/api/src/asset-accounting/asset-accounting.repository.ts:1882-1913 | the rows each command locks, table by table, and in which mode |
| CostLocks.RankedTablesAreInOrder | apps/api/src/asset-accounting/asset-accounting.repository.ts:1930-1940 | the order of tables by rank |
| CostLocks.UnrankedTablesAreInOrder | apps/api/src/asset-accounting/asset-accounting.repository.ts:1952-1961 | the order of tables by name |
| CostLocks.RowsAreInOrder | apps/api/src/asset-accounting/asset-accounting.repository.ts:802-806 | rows of a table are locked by id, and the order by rank is used under a closure case or a capability |
| CostLocks.ConflictMeans | apps/api/src/asset-accounting/asset-accounting.repository.ts:1971-1978 | shared locks of a row do not exclude each other, and a lock for update excludes both |
| LockOrder.CostCommandsNeverWaitInACircle | apps/api/src/asset-accounting/asset-accounting.repository.ts:797-807 | appends and reversals, however many and in whichever of the two orders they lock, never come to want each other's rows in a circle |
| LockOrder.CostCommandsNeverCross | apps/api/src/asset-accounting/asset-accounting.repository.ts:900-914 | no two of them take two contended rows in opposite orders |
| CostRetention.CostRetainedExactlyWhen | apps/api/src/asset-accounting/asset-accounting.repository.ts:2139-2164 | in every interleaving, closed cost-required orders have an unreversed actual cost in every state if and only if they have at the start and no prepared change closes one without |
| CostRetention.ClosedOrdersRetainTheirCost | apps/api/src/asset-operations/asset-operations.service.ts:1013-1041 | in particular if only changes that pass the cost gate close orders |
| CostRetention.CostStandsStillUnderTheLock | apps/api/src/asset-accounting/asset-accounting.repository.ts:1903-1913 | once a change has locked its order, no step of anyone alters whether the order has a standing cost |
| CostRetention.CloseAndReverseExcludeEachOther | apps/api/src/asset-accounting/asset-accounting.repository.ts:1903-1913 | in every run, while a transaction holds an order's row for update, no other holds or shares it |
| CostRetention.ConfirmCost | apps/api/src/asset-accounting/asset-accounting.service.ts:1074-1108 | the gate over a listing of an order's entries says yes if and only if the ledger holds an unreversed actual cost of it |
| CostRetention.GatePassesExactlyWhenConfirmed | apps/api/src/asset-operations/asset-operations.service.ts:1013-1041 | in every state of every run, a change that must pass the gate goes on if and only if the listing of its order's entries is confirmed |
| CostRetention.ChangeStepKeepsInv | apps/api/src/asset-operations/asset-operations.service.ts:1013-1041 | each step of a status change, prepared or not, keeps locks exclusive, what transactions have read, and the ledger |
| CostSteps.ChangeBeginsExactly | apps/api/src/asset-operations/asset-operations.service.ts:1013-1041 | locking and reading the row, and exactly which closings the gate stops |
| CostSteps.ChangeEndsExactly | apps/api/src/asset-operations/asset-operations.repository.ts:470-511 | which changes are written and what they commit |
| CostSteps.AppendsExactly | apps/api/src/asset-accounting/asset-accounting.repository.ts:797-855 | when an append shares its order's row and adds its entry |
| CostSteps.ReversesExactly | apps/api/src/asset-accounting/asset-accounting.repository.ts:881-969 | when a reversal goes on at each of its steps, and the entry it adds |
| CostSteps.UpdateLocksMean | apps/api/src/asset-accounting/asset-accounting.repository.ts:1903-1913 | which transactions hold an order's row, and in which mode |
| CostSteps.FreeMeans | apps/api/src/asset-accounting/asset-accounting.repository.ts:1971-1978 | when a row is free for update and for sharing |
| CostSteps.StartsAndAborts | apps/api/src/asset-accounting/asset-accounting.repository.ts:779-800 | transactions start at their beginning and may end at any point without effect |
| CostRetention.PreparedCloseLosesTheCost | apps/api/src/asset-operations/asset-operations.service.ts:552-566 | a run in which the prepared transition closes a cost-required order without a cost |
| WorkOrders.LogDeterminesStatusAndVersion | apps/api/src/asset-operations/asset-operations.repository.ts:424-511 | the status is the last one an event states and the version counts assignments and transitions |
| WorkOrders.DatesTellTheStory | apps/api/src/asset-operations/asset-operations.repository.ts:1461-1486 | closed orders were started, accepted and closed; the cost confirmation date is set exactly on closed cost-required orders |
| WorkOrders.CurrentExactlyWhenUnmoved | apps/api/src/asset-operations/asset-operations.repository.ts:312-335 | a header read earlier in a log is still the header if and only if nothing was assigned or moved since; otherwise its version is smaller |
| WorkOrders.TerminalIsForever | apps/api/src/asset-operations/asset-operations.repository.ts:103-135 | no log goes on to change a terminal status or version |
| WorkOrders.AppendKeepsJournal | apps/api/src/asset-operations/asset-operations.repository.ts:1331-1372 | the next event after the largest sequence keeps logs gap-free and the source index exact |
| WorkOrderHeaders.HeaderIsFoldOfItsLog | apps/api/src/asset-operations/asset-operations.repository.ts:337-511 | after any run every header is the fold of its log, with sequences 1 to n, last status, version and dates; creation and moves store the header they leave, every other event that of itself or of an earlier event |
| WorkOrderHeaders.StoredHeadersAreCurrentExactlyWhen | apps/api/src/asset-operations/asset-operations.repository.ts:898-916 | after any run every event holds the header as it then was if and only if no note, evidence, restriction or release used a handle older than the last move of its order |
| WorkOrderHeaders.ReceiptStoresTheOldHeader | apps/api/src/asset-operations/asset-operations.repository.ts:692-752 | a run of two handles, transition and restriction: the restriction's event holds the order as it was before the transition, and every later replay returns it |
| WorkOrderHeaders.TerminalOrdersStay | apps/api/src/asset-operations/asset-operations.repository.ts:1422-1440 | closed and cancelled orders keep status and version whatever follows, with whatever handles |
| WorkOrderHistory.SourceNamesOneCommand | apps/api/src/asset-operations/asset-operations.repository.ts:1768-1941 | a source names at most one command across create, assign, transition, note, evidence, restriction and release; that one replays its first outcome at any later state and with any handle, every other is refused, and the tables stay |
| WorkOrderHeaders.OutcomeIsTheStateReached | apps/api/src/asset-operations/asset-operations.repository.ts:1299-1329 | the restriction in an outcome is the one right after the command; the order in it is, if and only if the command did not use a handle older than the last move of the order |
| WorkOrderReplay.RecordedDecides | apps/api/src/asset-operations/asset-operations.repository.ts:2074-2084 | what the tables record under a source decides every command on it, with or without a handle |
| WorkOrderAnswers.StatusGraph | apps/api/src/asset-operations/asset-operations.repository.ts:108-135 | in every valid log: submission and waiting are entered from IN_PROGRESS alone, waiting ends in IN_PROGRESS or CANCELLED, no transition keeps the status, acceptance and closing go by the required costs |
| WorkOrderAnswers.TransitionWritesExactlyWhen | apps/api/src/asset-operations/asset-operations.repository.ts:470-511 | with the current header, a free source and row and a time not in the future, a transition is written if and only if it is an edge of the status graph; event, dates and header exactly |
| WorkOrderAnswers.CreateWritesExactlyWhen | apps/api/src/asset-operations/asset-operations.repository.ts:337-379 | when a creation writes, and the header and event it leaves |
| WorkOrderAnswers.AssignWritesExactlyWhen | apps/api/src/asset-operations/asset-operations.repository.ts:424-468 | when an assignment writes, and the header and event it leaves |
| WorkOrderAnswers.NoteWritesExactlyWhen | apps/api/src/asset-operations/asset-operations.repository.ts:521-559 | when a note writes, and the event it leaves |
| WorkOrderAnswers.EvidenceWritesExactlyWhen | apps/api/src/asset-operations/asset-operations.repository.ts:561-658 | when evidence writes: shape, order, row superseded, linked event; and the row and event it leaves |
| WorkOrderAnswers.RestrictWritesExactlyWhen | apps/api/src/asset-operations/asset-operations.repository.ts:668-759 | when a restriction writes, and the row and event it leaves |
| WorkOrderAnswers.ReleaseWritesExactlyWhen | apps/api/src/asset-operations/asset-operations.repository.ts:769-888 | when a release writes: the restriction active, its order accepted or a prepared recovery in progress; and the row and event it leaves |
| WorkOrderAnswers.CreationsReplayExactly | apps/api/src/asset-operations/asset-operations.repository.ts:1768-1779 | when a creation on a used source replays, whatever the tables hold |
| WorkOrderAnswers.EventsReplayExactly | apps/api/src/asset-operations/asset-operations.repository.ts:1875-1921 | when an assignment, transition or note on a used source replays, whatever the tables hold |
| WorkOrderAnswers.EvidenceReplaysExactly | apps/api/src/asset-operations/asset-operations.repository.ts:1922-1941 | when evidence on a used source replays, whatever the tables hold |
| WorkOrderAnswers.LoggedEvidenceGetsItsRow | apps/api/src/asset-operations/asset-operations.repository.ts:1311-1313 | an event of the same command without its row gets the row and no second event; any other is a conflict |
| WorkOrderAnswers.RestrictionsReplayExactly | apps/api/src/asset-operations/asset-operations.repository.ts:1780-1815 | when a restriction on a used source replays, whatever the tables hold |
| WorkOrderAnswers.ReleasesReplayExactly | apps/api/src/asset-operations/asset-operations.repository.ts:1816-1852 | when a release on a used source replays, whatever the tables hold |
| WorkOrderAnswers.StartsEmpty | apps/api/src/asset-operations/asset-operations.repository.ts:215-229 | nothing is there at first |
| WorkOrderAnswers.HandlesAreTakenExactly | apps/api/src/asset-operations/asset-operations.repository.ts:291-335 | what a handle keeps |
| WorkOrderAnswers.HandlesAreUsedExactly | apps/api/src/asset-operations/asset-operations.repository.ts:898-916 | which commands work with the header of a handle, and that it is then spent |
| WorkOrderSessions.PerformKeepsInv | apps/api/src/asset-operations/asset-operations.repository.ts:291-335 | taking a handle or executing a command keeps the tables consistent, lets logs only grow, and leaves every unspent handle the header its order had when it was taken |
| WorkOrderSessions.MovesNeedACurrentHandle | apps/api/src/asset-operations/asset-operations.repository.ts:1374-1388 | an assignment or transition that writes with a handle has one taken after the last move of its order |
| WorkOrderInvariants.ChangeKeepsInv | apps/api/src/asset-operations/asset-operations.repository.ts:561-888 | every allowed change, also one that stores an older header, keeps events, evidence, restrictions and source indexes consistent |
| EvidenceChains.EvidenceFormsChains | apps/api/src/asset-operations/asset-operations.repository.ts:561-658 | every row is in exactly one whole chain, rooted at an attached row, acyclic, within one order and type |
| EvidenceChains.EffectiveAreLastRows | apps/api/src/asset-operations/asset-operations.service.ts:1835-1853 | the effective rows are exactly the last rows of whole chains that do not end in a removal |
| EvidenceChains.ProjectEvidence | apps/api/src/asset-operations/asset-operations.service.ts:1835-1853 | the two passes of the projection compute the effective rows |
| AssetOperationsRepository.AssetOperationsRepository.CreateWorkOrder | apps/api/src/asset-operations/asset-operations.repository.ts:337-379 | the method refines the create command on the tables |
| AssetOperationsRepository.AssetOperationsRepository.AssignWorkOrder | apps/api/src/asset-operations/asset-operations.repository.ts:424-468 | the method refines the assign command on the tables, working with the header kept in the handle, and spends the handle |
| AssetOperationsRepository.AssetOperationsRepository.TransitionWorkOrder | apps/api/src/asset-operations/asset-operations.repository.ts:470-511 | the method refines the transition command on the tables, working with the header kept in the handle, and spends the handle |
| AssetOperationsRepository.AssetOperationsRepository.TransitionUpdate | apps/api/src/asset-operations/asset-operations.repository.ts:1461-1486 | the columns set one after another on the row give the transitioned header |
| AssetOperationsRepository.AssetOperationsRepository.AppendOrderNote | apps/api/src/asset-operations/asset-operations.repository.ts:521-559 | the method refines the note command on the tables, working with the header kept in the handle, and spends the handle |
| AssetOperationsRepository.AssetOperationsRepository.AppendEvidenceRow | apps/api/src/asset-operations/asset-operations.repository.ts:561-658 | the method refines the evidence command on the tables, working with the header kept in the handle, and spends the handle |
| AssetOperationsRepository.AssetOperationsRepository.CreateRestrictionRow | apps/api/src/asset-operations/asset-operations.repository.ts:668-759 | the method refines the restriction command on the tables, working with the header kept in the handle, and spends the handle |
| AssetOperationsRepository.AssetOperationsRepository.ReleaseRestrictionRow | apps/api/src/asset-operations/asset-operations.repository.ts:769-888 | the method refines the release command on the tables, working with the header kept in the handle, and spends the handle |
| AssetOperationsRepository.AssetOperationsRepository.LockWorkOrder | apps/api/src/asset-operations/asset-operations.repository.ts:291-335 | a new handle keeps the header as it is now, if the order exists |
| AssetOperationsRepository.AssetOperationsRepository.ConsumeLockedHeader | apps/api/src/asset-operations/asset-operations.repository.ts:898-916 | a lock handle is spent by its first use and yields the header it keeps in its own transaction and for its own order only |
| AssetFacts.AtMostOneActivePeriod | apps/api/src/asset-facts/asset-facts.repository.ts:57-72 | however opens and closes race, a vehicle has at most one active period at any instant |
| AssetFacts.HalfOpenMeansDisjoint | apps/api/prisma/migrations/20260818120000_stage1c_occupancy_ownership_facts/migration.sql:141-154 | the exclusion constraint's overlap of half-open ranges is the existence of a common instant |
| AssetFacts.EndIsWrittenOnce | apps/api/src/asset-facts/asset-facts.repository.ts:280-309 | the start of a period never changes and its end is written once |
| AssetFacts.RacingClosesAgree | apps/api/src/asset-facts/asset-facts.repository.ts:255-309 | of racing closes that succeed at most one wrote, and all return the same row with their own end |
| AssetFacts.LosingCloseConflicts | apps/api/src/asset-facts/asset-facts.repository.ts:282-309 | a close that finds at its write that another has closed the period always conflicts, because it holds the lock on its source |
| AssetFacts.CloseReplaysExactlyWhen | apps/api/src/asset-facts/asset-facts.repository.ts:255-262 | a close that looks its source up succeeds there if and only if a visible period records its very end, and then returns it unchanged |
| FactSteps.AdmittedExactlyWhen | apps/api/prisma/migrations/20260818120000_stage1c_occupancy_ownership_facts/migration.sql:141-154 | which rows the constraints admit: other sources, no instant in common for a vehicle, not two open periods of an order |
| FactSteps.RecordedMeans | apps/api/src/asset-facts/asset-facts.repository.ts:186-206 | when a command is the one on record, and when its source names a row |
| FactSteps.LocksMean | apps/api/src/asset-facts/asset-facts.repository.ts:123-160 | who holds the lock on a source |
| FactSteps.BeginsAndEnds | apps/api/src/asset-facts/asset-facts.repository.ts:113-122 | transactions begin waiting and may end at any time |
| FactSteps.FirstStepsExactly | apps/api/src/asset-facts/asset-facts.repository.ts:186-206 | waiting for the lock on the source, and what a visible row of that source decides |
| FactSteps.OpensExactly | apps/api/src/asset-facts/asset-facts.repository.ts:208-231 | when an open writes and what |
| FactSteps.ClosesExactly | apps/api/src/asset-facts/asset-facts.repository.ts:264-309 | when a close goes on, loses, writes or conflicts |
| AssetFacts.AssetFactsRepository.ClosePeriod | apps/api/src/asset-facts/asset-facts.repository.ts:255-309 | with anything committing in between, exactly when a close writes, replays or conflicts, from what its source names, what it read and what it met, and the table it leaves |
| AssetFacts.AssetFactsRepository.CompareAndSetEnd | apps/api/src/asset-facts/asset-facts.repository.ts:282-294 | the end is written exactly if the period is still open and the constraints admit it |
| AssetFacts.AssetFactsRepository.OpenPeriod | apps/api/src/asset-facts/asset-facts.repository.ts:186-231 | with anything committing in between, an open replays exactly if a visible period states it, writes exactly if its source names none and the constraints admit it, and conflicts otherwise |
| VehicleAvailability.Evaluate | apps/api/src/asset-operations/vehicle-availability.ts:84-139 | lists exactly the reasons that apply, each key once, in order; available if and only if there are none |
| AvailabilityAnswers.AvailableExactlyWhen | apps/api/src/asset-operations/vehicle-availability.ts:84-139 | a vehicle is available if and only if it exists, is not deleted, its status admits the purpose, its price is effective and positive (not for delivery), no period is active and no restriction stands against the purpose; reasons are in the order of their texts |
| AvailabilityAnswers.ReasonsMean | apps/api/src/asset-operations/vehicle-availability.ts:95-129 | when each reason applies and what it says |
| VehicleAvailability.QueryAgreesWithEvaluation | apps/api/src/asset-operations/vehicle-availability-query.ts:8-25 | the allocation query selects a vehicle if and only if the evaluation of its snapshot gives neither a subscription-period nor a restriction reason |
| VehicleAvailability.QueryReadsTheSnapshot | apps/api/src/asset-operations/asset-operations.repository.ts:918-977 | the rows the query looks for are the rows the snapshot loads |

## Left out

* The control server's sockets, packet checks in `handle`, listeners, `close`, and the container job behind the callbacks: a callback is a step that returns True or anything else.
* File identity, ownership and mode checks, `/proc` parsing, the Node authority child and the timeouts of single commands: they are results the environment chooses. The 120 s bound of the issuer is not needed by any result.
* Shell commands that fail half-way (a header written without its keyslots, a swap file half active): a command takes effect or does not, and may be reported as failed either way.
- AttemptVolume.Lifecycle: changes other programs make to swap and core pattern between the last check and the release of the lock are not modelled; the swap list after a swap command is arbitrary, and the one the kernel's priorities give where the call is undisturbed. Disabling core dumps by `setrlimit` and the LUKS UUID are not recorded.
- ReaderSession.AuthorityRunsWithinSessionLife: local work between the time check and the start of the child, and after its end, is a parameter below 25 s each, because the code does not bound it.
* Numbers in canonical JSON are integers (negative zero included), because fractions and exponents print by the JavaScript number algorithm; the parser refuses them. Proxies and objects changed while being walked are not modelled.
* SHA-256 is an arbitrary function; receipts compare payloads by value as well, which is what comparing canonical texts amounts to by `PrintIsInjective`. The encoding of each payload and outcome as JSON and its decoding (`outcomeFromReceipt`, `approvalOutcomeFromReceipt`, date formats) are not spelled out.
* Identifiers are taken as already lower-case; trimming counts space, tab, line feed and carriage return as blank.
* Accounting commands are transactions executed one after another, as the advisory lock on the source, the subject lock and the unique indexes make them; interleavings are modelled where the result depends on them (`CostRetention`, `AssetFacts`).
* The validity of an appended entry's other references (customer, contract, owner, evidence, order) and the state of the closure case are facts the command is given.
* Caller-owned variants of approval commands and of order creation: of these only the single-use capability
  is modelled. The prepared variants of work-order commands are the commands with a handle; they skip
  advisory and row locks, so that `busy` cannot arise, and the prepared release accepts a recovery order in
  progress. Row locks themselves are not modelled for work orders: the results hold for every order of
  steps, those included that the locks exclude.
* Closure authority sessions, attestations, audit rows, permissions and HTTP: plumbing without a result of this kind.
* Free-text columns of work orders and restrictions are one text each, because nothing computes with them; file rows copied into evidence are a check that they exist; the severity of a restriction appears only in `VehicleAvailability`.
* The order of projected evidence by recording time and the sanitizing of public values.
- SnapshotControl.H1SnapshotControl.Manage: covers a management run that no other thread interrupts; interleaved runs are what the run theorems of `SnapshotControl` are about.
- EvidenceChains.ProjectEvidence: the list of all rows and the sorting of both lists are not modelled.
* Ownership and subscription periods share one model; a subscription has an order and an ownership has none, and the two are separate tables.
* Two commands interleaved in one transaction, on one repository object; the methods of `AssetFactsRepository` allow any other commits, so that there the replay after a lost race is possible.
- AssetFacts.AssetFactsRepository.OpenPeriod: soft deletion of the referenced rows is an arbitrary set of hidden periods.
