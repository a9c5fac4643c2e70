# Batchline: a verified model of its core protocols and algorithms

Batchline runs ready-mix concrete plants: it releases batch tickets against
customers' reservations, records what was weighed, draws it from stock,
dispatches trucks, and orders material when a store runs low. This project
models the parts of it where correctness does not follow from reading one
function: the queue that carries readings taken offline, the stock ledger over
whole runs, the shortage approvals and the requisition outbox under
interleaving, the credit ceiling, the booking of trip resources, and five
algorithms with theorems of their own.

Quantities, money and statistics are exact reals, with the code's own
tolerances as constants. Identifiers are natural numbers. Clocks, fresh ids,
permissions and outside failures are parameters or nondeterministic events.

| module | what it models |
|---|---|
| LogicalKey | the key under which two queued edits are edits of one field |
| OfflineQueue | the stored queue, the methods of a tab on it, and the reading of the server's answer |
| ComponentEdits | the versioned rows those readings land in, single saves and bulk saves |
| ReplayProtocol, Leases | tabs, storage and server interleaved at lock granularity; no reading is lost, and no item is in two tabs' hands at once |
| NoFalseConflict, LostAnswers, ConflictExamples | when a replay can and cannot be refused as stale |
| InventoryLedger | one posted movement: clamping, refusals, the row it leaves |
| BatchCompletion | the completion loop and the dry run of its shortages |
| StockCredits, StockRuns | reversal and reclaim credits; completion, reversal, dispatch and measuring over whole runs |
| ShortageApprovals | completion, cancellation, edits, requests and decisions, statement by statement |
| Outbox, RetryQueue | the requisition outbox with competing and crashing workers; the fairness of its sweep |
| Reservations | edit, hold, approve, release, cancel, close, the tickets they govern, and delivery as trips close and rejections are decided |
| CreditPolicy, CreditMeaning, CreditCeiling | the credit decision, what it says exactly, and the ceiling it keeps over runs |
| TripResources | dispatch and reassignment of trucks, drivers, pumps and crew |
| LeastSquares, Cusum, Csv, Base32 | the regression, the drift chart, the CSV printer and reader, and Base32 |

State machines are functions on values, one step per committed statement or
transaction, and main results are lemmas over every run of them. Loops and
objects that the program updates in place are methods and classes proved equal
to the functions those lemmas are about.

## What turned out not to hold

- A replay can be refused as a conflict although nobody else wrote the field
  (`ConflictExamples.TwoTabsConflict`): two tabs share one item, the first keeps
  an older accepted version in memory after a storage failure, and `adoptVersion`
  puts that older version over the newer one the other tab had stored.
  `NoFalseConflict.StaleExactlyWhenLowered` is the exact condition.
- The same happens when an answer is lost (`ConflictExamples.LostAnswerConflicts`)
  and when two passes of one tab overlap (`ConflictExamples.TwoPassesConflict`).
  After a lost answer the next request is always stale, and settles as a conflict
  exactly when it carries another number (`LostAnswers.LostAnswerExactly`).
- Undoing a ticket can miss by up to twice the ledger's tolerance: a row of
  between one and two EPSILON credited to a store with less than EPSILON of room
  passes the shortfall check and is then too small to be recorded.
  `InventoryLedger.CreditRecorded` is the exact condition, `StockRuns.UndoCanMiss`
  a run that gets there once a level has been read in between.
- Above capacity a credit takes stock away (`InventoryLedger.CreditAboveCapacityIsNegative`),
  and a store can get there: correcting a silo's capacity leaves its level as it
  was. `StockRuns.UndoAfterResizeTakesAgain` is a run in which undoing a ticket
  then takes more stock; `StockRuns.InBoundsExactlyIfFits` says that nothing
  but a capacity set below the level does this.
- A delivered reservation is never reopened by what the code now does
  (`Reservations.DeliveredIsFinal`): it is not settled before its trips are closed
  and its rejections decided. On rows written otherwise the reopening can happen,
  asks for no credit decision, and can pass the limit (`CreditCeiling.ReopeningExceeds`).
- A load that quality rejected in full stops protecting its reservation's mix:
  the mix may then change under the ticket (`Reservations.RejectedLoadKeepsOldMix`).
- A value with a separator in it makes the keys of two different fields equal
  (`LogicalKey.SeparatorInValueCollides`); `LogicalKey.KeyIdentifiesField` says when keys are faithful.
- The comment on `applyReclaimCredit` allows for a component deleted after
  completion; no edit gets past a completed ticket, so the skip never happens
  (`StockRuns.ReclaimIsExact` holds without it).
- `PendingAutoRequisition.notificationDeliveredAt` is read but never written; the model leaves it out.

## Model

| member | source | states |
|---|---|---|
| LogicalKey.KeyIdentifiesField | src/lib/offlineQueue.ts:340-347 | for kinds, names and values free of the separators, two keys are equal exactly when the kind and every identifying field agree |
| LogicalKey.SeparatorInValueCollides | src/lib/offlineQueue.ts:340-347 | a concrete pair of different fields with one key |
| OfflineQueue.Tab.Enqueue | src/lib/offlineQueue.ts:468-516 | a repeated edit of one field keeps its item and lease and raises the generation; a failed read or write stores nothing |
| OfflineQueue.Tab.DismissRejected | src/lib/offlineQueue.ts:518-527 | only the dismissed copy leaves the rejected list, and only if storage works |
| OfflineQueue.Tab.ClaimForReplay | src/lib/offlineQueue.ts:536-553 | a lease of this tab is stored for an item whose lease is free, its own or expired; otherwise nothing changes |
| OfflineQueue.Tab.AdoptVersion | src/lib/offlineQueue.ts:559-570 | the version replaces the item's, while this tab holds it, and the edit stored meanwhile is kept |
| OfflineQueue.Tab.ReleaseClaim | src/lib/offlineQueue.ts:576-583 | only a lease of this tab is given up |
| OfflineQueue.Tab.SettleReplay | src/lib/offlineQueue.ts:596-625 | the sent generation is removed, with a copy if rejected; a newer edit is kept and rebased; the remembered outcome follows the settlement |
| OfflineQueue.ClaimsExactlyWhenFree | src/lib/offlineQueue.ts:536-553 | a claim goes through if and only if storage works, the item is pending, and its lease is nobody's, one's own, without an end, or over; it then ends 60000 ms from now |
| OfflineQueue.AdoptsExactlyWhenHeld | src/lib/offlineQueue.ts:559-570 | rebasing goes through if and only if this tab holds the item, and moves its version alone |
| OfflineQueue.ReleasesExactlyWhenHeld | src/lib/offlineQueue.ts:576-583 | a lease is cleared if and only if it is this tab's and the edit is the one sent |
| OfflineQueue.SettlesExactlyWhen | src/lib/offlineQueue.ts:596-625 | each settlement answer if and only if its ground holds, and what becomes of the item and the rejected list |
| OfflineQueue.DismissesExactly | src/lib/offlineQueue.ts:518-527 | exactly the copies of the dismissed item leave, and only if storage works |
| OfflineQueue.OutcomesAre | src/lib/recordActualFieldReplay.ts:32-67 | a stale answer is applied if and only if the number sent is the number held and the text is not blank; a refusal is rejected with its reason |
| OfflineQueue.ReadingsTakenExactly | src/lib/batchComponentEdits.ts:123-169 | a reading is accepted if and only if it is a number in range for a component of that unfinished ticket at the version held, and each refusal has its ground |
| Leases.LeaseExcludesOthers | src/lib/offlineQueue.ts:536-553 | in any run, after a tab claimed an item at t and until one of its passes releases or settles it, no other tab gets the item before t + 60000 |
| ReplayProtocol.ReadingIsTruthful | src/lib/recordActualFieldReplay.ts:32-67 | an answer turned into APPLIED means the field held the number sent at some version |
| ReplayProtocol.StepKeepsInv | src/lib/offlineQueue.ts:468-723 | every step of any tab, with storage failing at will, keeps what is pending, remembered, settled and rejected consistent |
| ReplayProtocol.NoReadingIsLost | src/lib/offlineQueue.ts:468-723 | after any run a reading whose edit was answered OK is pending, superseded by a newer edit, or settled under exactly its (id, generation): applied, and then held by the server at some version, or rejected, and then its copy is in the rejected list unless a person dismissed that very copy |
| ComponentEdits.ComponentTable.ClaimAndRecordActualField | src/lib/batchComponentEdits.ts:123-169 | the row update, the stale answer with what is held, and the claim of the ticket |
| ComponentEdits.ComponentTable.ClaimAndRecordActuals | src/lib/batchComponentEdits.ts:48-92 | the loop over the writes, its stale ids, and the rollback of everything |
| ComponentEdits.EveryVersionHasOneWrite | src/lib/batchComponentEdits.ts:73-83 | over any run each version of a field comes from exactly one accepted write that presented the version before it |
| ComponentEdits.SavesExactlyCurrent | src/lib/batchComponentEdits.ts:123-169 | a completed or cancelled ticket refuses; otherwise a save lands if and only if it presents the version held, and changes that field alone; a stale one gets what is held |
| ComponentEdits.RowsComeAndGo | src/lib/batchComponentEdits.ts:171-204 | components are added, empty and under a new id, and deleted on an unfinished ticket only |
| ComponentEdits.BulkIsAllOrNothing | src/lib/batchComponentEdits.ts:61-92 | a bulk save lands if and only if the ticket is unfinished and every component has both versions it was rendered with, each write in its own row; otherwise nothing changes and exactly the stale ids are named |
| ComponentEdits.SiblingSavesCommute | src/lib/batchComponentEdits.ts:123-158 | saves of the two fields of one component never make each other stale, in either order |
| NoFalseConflict.NoFalseConflict | src/lib/offlineQueue.ts:676-718 | in a run where no other write lands on a field the partition has queued, no accepted answer is lost or thrown away, no lease is taken over, one pass at a time holds an item, no tab forgets a version only it knows and no version is lowered, no request is refused as stale: whatever others write elsewhere, whatever edits coalesce in flight and whatever settlement writes fail |
| NoFalseConflict.StaleExactlyWhenLowered | src/lib/offlineQueue.ts:559-570 | after such a run the next request, its adopted version lowered or not, is refused as stale if and only if the remembered version is older than the item's |
| NoFalseConflict.OneTabIsQuiet | src/lib/offlineQueue.ts:636-723 | with one tab and one pass at a time, and the other conditions above, no version is ever lowered |
| NoFalseConflict.OnlyWritesToQueuedFieldsDisturb | src/lib/batchComponentEdits.ts:48-169 | single and bulk saves of fields nobody has queued, status changes, additions, and deletions of a queued field's own component all keep a run quiet |
| LostAnswers.LostAnswerExactly | src/lib/offlineQueue.ts:676-706 | after a quiet run, an accepted request whose answer is lost, and anything that sends the item no further and writes the field no further, the item's next acceptable request is stale, and settles REJECTED if and only if its number is not the one lost or its text is blank |
| ConflictExamples.TwoTabsConflict | src/lib/offlineQueue.ts:559-570 | a run of two tabs, with no foreign writer and no lost answer, that ends in a stale refusal |
| ConflictExamples.TwoPassesConflict | src/lib/offlineQueue.ts:636-723 | a run of two overlapping passes that ends in a stale refusal |
| ConflictExamples.LostAnswerConflicts | src/lib/offlineQueue.ts:676-706 | a lost answer and a new edit end in a stale refusal |
| InventoryLedger.Ledger.PostMovement | src/lib/inventoryLedger.ts:141-220 | the clamped level, the row, or a refusal that leaves no trace |
| InventoryLedger.PostsExactlyWhen | src/lib/inventoryLedger.ts:141-220 | each answer if and only if its ground holds, with tolerance 0.000001, and the level and row a movement leaves |
| InventoryLedger.PostConserves | src/lib/inventoryLedger.ts:114-139 | a post moves the level by its row, give or take EPSILON if it leaves none, and keeps the bounds |
| InventoryLedger.CreditRecorded | src/lib/inventoryLedger.ts:155-219 | what an accepted credit is short of, and exactly when it is within EPSILON |
| InventoryLedger.CreditAboveCapacityIsNegative | src/lib/inventoryLedger.ts:130-138 | a credit above capacity that applies a negative amount |
| BatchCompletion.PostCompletion | src/lib/batchCompletion.ts:255-287 | the posting loop: all movements and the shortages let through, or a refusal and nothing |
| BatchCompletion.ComputeShortageSnapshot | src/lib/shortageOverrideRequests.ts:44-68 | the entries of the running-balance dry run |
| BatchCompletion.DryRunPredictsCompletion | src/lib/shortageOverrideRequests.ts:44-68 | for components sharing any stores, the snapshot is empty exactly when completion needs no approval, and once approved completion succeeds with exactly its shortages, in order and amount |
| BatchCompletion.ApprovalCoversEqualOrMoreStock | src/lib/batchCompletion.ts:223-287 | with equal or more stock an approved completion is never refused and lets nothing through beyond the approved amount plus EPSILON |
| BatchCompletion.TotalShortage | src/lib/shortageOverrideRequests.ts:54-65 | a store's shortages add up to what is asked of it beyond its level |
| StockCredits.ReversePostings | src/lib/batchCompletion.ts:442-478 | the opposite of every completion row at its own store, or nothing |
| StockCredits.ApplyReclaimCredit | src/lib/tripDispatch.ts:126-175 | the carried-over share of every completion row, through kilograms and back, or nothing |
| StockCredits.CreditsRecorded | src/lib/inventoryLedger.ts:163-219 | a list of credits that goes through is recorded credit by credit, under new unique keys, and conserves stock |
| StockCredits.RepostingMovesNothing | src/lib/batchCompletion.ts:442-478 | credits already in the ledger are skipped by a reversal and refused to a reclaim, and move nothing |
| StockRuns.StockIsConserved | src/lib/inventoryLedger.ts:114-220 | over any run of completions, reversals, dispatches, level readings and capacity changes none of which goes below the level, levels stay in bounds and differ from the opening by the measured corrections and the ledger rows, within EPSILON per unrecorded post |
| StockRuns.InBoundsExactlyIfFits | src/lib/inventoryLedger.ts:114-139 | from within bounds a step of any kind stays within them if and only if it does not set a capacity below the level |
| StockRuns.UndoIsExact | src/lib/batchCompletion.ts:430-478 | in such a run a reversed ticket's completion and reversal rows cancel at each store within EPSILON, within twice that for a row of between one and two EPSILON, and it rides on no trip |
| StockRuns.UndoGoesThroughWithRoom | src/lib/batchCompletion.ts:430-478 | a completed ticket that drew anything and has not gone out is reversed whenever its stores have room for what they get back, and each then holds exactly that much more |
| StockRuns.UndoCanMiss | src/lib/inventoryLedger.ts:155-212 | a run with a level reading in which a reversed ticket keeps a net of -1.5 EPSILON |
| StockRuns.UndoAfterResizeTakesAgain | src/lib/inventoryLedger.ts:130-173 | a run with a capacity set below the level in which a reversal of 10 leaves a net of -50 |
| StockRuns.ReclaimIsExact | src/lib/tripDispatch.ts:262-298 | in such a run, after topping up r of V the ticket has drawn (1 - r/V) of each completion row, within the same tolerance |
| StockRuns.LeftoversUsedOnce | src/lib/reclaim.ts:10-26 | a kept leftover goes into one later load of its mix at most, never more than it held, and every topped-up load used exactly one |
| StockRuns.TopsUpOnLastLeftover | src/lib/reclaim.ts:14-25 | a dispatch uses the leftover of the truck's own last closed trip, and as much of it as the load takes |
| StockRuns.LeftoverIsUsed | src/lib/reclaim.ts:10-26 | a kept, unused leftover of the same mix from the truck's last closed trip is used by every dispatch of it that goes through |
| StockRuns.DispatchesOnlyWhen | src/lib/tripDispatch.ts:54-90 | a dispatch goes through only for a completed ticket not gone out or reversed and a truck that is in; without a leftover it does so always |
| StockRuns.YardMovesExactlyWhen | src/lib/tripLifecycle.ts:376-399 | when a ticket is cancelled, a trip closed or given another truck, a drum's fate decided and a level read, and what that changes |
| StockRuns.NothingIsUndoneTwice | src/lib/tripDispatch.ts:54-58 | reversed stays reversed and off every trip, a dispatched ticket is never reversed, a used leftover stays used, no row is removed |
| ShortageApprovals.PostAllWithinCeilings | src/lib/batchCompletion.ts:259-287 | whatever the locked stores show, every shortage let through exceeds EPSILON and stays within its material's approval |
| ShortageApprovals.StepKeeps | src/lib/batchCompletion.ts:194-333 | every statement of every interleaved transaction keeps locks exclusive and what each has read true |
| ShortageApprovals.NoOpenRequestOnFinishedTicket | src/lib/batchCompletion.ts:211-333 | no completed or cancelled ticket has a PENDING or APPROVED request, and no ticket ever has two |
| ShortageApprovals.ConsumedExactlyByShortage | src/lib/batchCompletion.ts:319-333 | a request is CONSUMED exactly by the one completion with a real shortage it covered; every completion was posted at the masses the ticket keeps |
| ShortageApprovals.CompletesExactlyWhenCovered | src/lib/batchCompletion.ts:194-333 | from any reachable state a completion left alone completes the ticket if and only if every shortfall, worked out from stock levels, is within 0.000001 or within the approved request's amount for the material; a needed approval ends CONSUMED, any other open request EXPIRED, and otherwise nothing is committed |
| ShortageApprovals.ApprovedShortageCompletes | src/lib/shortageOverrideRequests.ts:44-171 | with stock too short, asking, approving and completing in turn ends in a complete ticket with exactly the shortages asked for and a CONSUMED request |
| ShortageApprovals.RequestsExactlyWhenShort | src/lib/shortageOverrideRequests.ts:79-121 | a request is opened if and only if none is open and the dry run finds a real shortage, for exactly that |
| ShortageApprovals.DecidesExactlyWhenPending | src/lib/shortageOverrideRequests.ts:139-171 | a decision lands, as it was meant, if and only if the request is PENDING and its ticket open |
| ShortageApprovals.CancelsWithItsRequests | src/lib/batchCompletion.ts:521-552 | a cancellation cancels the ticket, expires each request open on it and changes nothing else |
| ShortageApprovals.ClaimsExactlyWhenOpen | src/lib/batchCompletion.ts:194-198 | a claim waits for the row, then goes through if and only if the ticket is neither complete nor cancelled |
| ShortageApprovals.EditsLand | src/lib/batchComponentEdits.ts:61-92 | an edit that has its ticket puts its masses there, and BATCHING with a reading |
| ShortageApprovals.DecisionsAreFinal | src/lib/shortageOverrideRequests.ts:139-171 | a rejected, consumed or expired request never changes, and a finished ticket keeps its components |
| Outbox.StepKeeps | src/lib/materialRequisition.ts:259-446 | every commit of every worker, and every crash, keeps intents, leases, announcements and open requisitions consistent |
| Outbox.RetiredOnlyWhenAnnounced | src/lib/materialRequisition.ts:403-432 | an intent with 0 < capacity, level < capacity and 100 level <= threshold capacity leaves the queue only with a requisition for its material and site, announced by exactly one transaction; any other leaves it without one |
| Outbox.OrdersOnlyWhenLow | src/lib/materialRequisition.ts:85-89 | in every run a worker orders only for an intent whose store ran low in those numbers, and asks for what fills it |
| Outbox.ClaimsExactlyWhenFree | src/lib/materialRequisition.ts:259-271 | a worker gets a row if and only if no lease on it is running, and for 300000 ms |
| Outbox.LeaseExcludesOthers | src/lib/materialRequisition.ts:259-271 | while a lease runs, and unless its worker records a failure, nobody else gets the row, in any run |
| Outbox.FailuresGiveBack | src/lib/materialRequisition.ts:447-480 | a worker that fails under its lease gives the row back with one failure more, due after the backoff, parked from the fourteenth |
| Outbox.BackoffDoubles | src/lib/retryBackoff.ts:15-28 | the backoff is one hour and doubles with each failure up to 48 hours |
| Outbox.PicksAndFailuresPushBack | src/lib/retryBackoff.ts:25-28 | a picked row is next due in an hour, a failed one after its backoff |
| Outbox.LoserTakesTheWinners | src/lib/materialRequisition.ts:91-140 | a worker that finds an open requisition takes it instead of making its own |
| Outbox.AnnouncedExactlyOnce | src/lib/materialRequisition.ts:412-446 | announced means notices from exactly one transaction, pushed at most once and only by the worker that wrote them |
| Outbox.LostLeaseWritesNothing | src/lib/materialRequisition.ts:359-432 | however long ago a worker lost its lease, it records no progress, no notice, no removal and no failure, and pushes nothing |
| Outbox.OneOpenPerMaterialAndSite | src/lib/materialRequisition.ts:103-147 | never two open requisitions for one material at one site |
| Outbox.FailuresAreCounted | src/lib/materialRequisition.ts:447-480 | attempts equal the failures recorded, whoever competed, and a row is parked exactly from the fourteenth on |
| Outbox.NoIntentIsStuck | src/lib/materialRequisition.ts:259-271 | from any reachable state any intent can still be drained once its last lease has run out, and if its store ran low the drain ends in an announced requisition for it |
| RetryQueue.Table.ClaimEligible | src/lib/materialRequisition.ts:514-530 | up to `limit` eligible rows, none left out that was due before one taken, each pushed one backoff step ahead |
| RetryQueue.NoStarvation | src/lib/materialRequisition.ts:514-530 | a row due by now, with m rows due no later, is claimed within ceil(m / limit) sweeps, even if every other row fails forever, as long as new rows are staged later than it fell due |
| RetryQueue.ParkedAfterFourteen | src/lib/materialRequisition.ts:447-470 | under one sweeper an always-failing row is parked by exactly its fourteenth recorded failure and never picked again |
| RetryQueue.PushedBack | src/lib/materialRequisition.ts:514-530 | a claim makes a row due in an hour; a recorded failure after its backoff, parked from the fourteenth |
| Reservations.SumAcceptedVolume | src/lib/reservations.ts:25-46 | the accepted volume of the tickets not cancelled |
| Reservations.StepKeeps | src/lib/reservationEdits.ts:98-189 | every operation, trip closes and decided rejections included, keeps accepted within requested, approvals bound to their terms and loads to their mix |
| Reservations.ReservationsHold | src/lib/reservationEdits.ts:130-165 | over any run, under any credit decisions: accepted volume never exceeds requested, a final approval is for the present project, site, mix and volume, never on a held reservation, and counted loads are of the present mix |
| Reservations.RejectedLoadKeepsOldMix | src/lib/reservationEdits.ts:130-139 | a fully rejected load whose reservation then changes its mix |
| Reservations.StatusMoves | src/lib/reservationEdits.ts:44-51 | the one operation and ground for every change of status: a held reservation is confirmed again by a passing final approval alone, though it may be closed, or settled as delivered, while held; delivered without a close means everything arrived and no rejection is open; only a hold or changed terms withdraw an approval |
| Reservations.EditsExactlyWhen | src/lib/reservationEdits.ts:98-165 | an edit, or the hold it places, is accepted if and only if each of its grounds holds; new terms withdraw both approvals, a hold the final one |
| Reservations.ApprovesExactlyWhen | src/lib/reservationEdits.ts:200-226 | final approval goes through if and only if initially approved, under way, not approved yet and in credit, and binds the terms as they are |
| Reservations.CancelsExactlyWhen | src/lib/reservationEdits.ts:237-258 | a reservation is cancelled if and only if it is under way and no ticket of it counts |
| Reservations.ClosesExactlyWhen | src/lib/reservations.ts:131-170 | a reservation is closed early if and only if it is under way |
| Reservations.BooksExactlyWhen | src/lib/manualBooking.ts:49-67 | confirmed in credit and on hold otherwise; signed off only for a walk-in in credit |
| Reservations.TripsSettle | src/lib/reservations.ts:226-244 | after a trip closes or a rejection is decided: the load's volume, and delivered if and only if everything arrived within 0.01 and nothing is undecided |
| Reservations.HoldStopsReleases | src/lib/reservationRelease.ts:104-116 | in any run, whatever else happens, no ticket is added for a reservation without its final approval, which a hold takes away, until a final approval passes |
| Reservations.DeliveredIsFinal | src/lib/reservations.ts:226-244 | from tables where nothing delivered has a trip or a rejection open, as from empty ones, every run leaves it so, and what is delivered stays delivered |
| Reservations.ReleasesExactlyWhen | src/lib/reservationRelease.ts:104-140 | a ticket is released exactly when approved, in credit, at an active station of the site, with volume left; the remainder falls by what was asked, down to nothing |
| CreditPolicy.EvaluateCustomerCredit | src/lib/creditPolicy.ts:183-280 | the tally of invoices, tickets and commitments, the proposal beside it, and the decision |
| CreditMeaning.WithinLimitExactly | src/lib/creditPolicy.ts:183-280 | within the limit if and only if the limit is positive, everything could be valued, one currency is met, and the sums of unpaid invoices, unbilled tickets and outstanding bookings stay under it, and with the proposal do not pass it |
| CreditPolicy.RoundingIsHalf | src/lib/money.ts:42-44 | rounding to minor units moves an amount by half a unit at most |
| CreditCeiling.PassesOnlyIfValued | src/lib/creditPolicy.ts:87-91 | a decision passes only with a limit, headroom, a usable price and tax rate for everything, and one currency, open invoices included |
| CreditCeiling.InvoicesTallied | src/lib/creditPolicy.ts:224-237 | the invoices' part of the tally is what they still ask for, within half a minor unit for each |
| CreditCeiling.CreditIsAsked | src/lib/reservationRelease.ts:119-140 | bookings, final approvals and releases act on a decision about themselves for their project's customer |
| CreditCeiling.PassingBounds | src/lib/creditPolicy.ts:196-279 | a passing decision bounds what is really due, loaded, booked and proposed by the limit and half a minor unit per item |
| CreditCeiling.CreditCeiling | src/lib/creditPolicy.ts:196-279 | over any run of bookings, approvals, releases, edits, holds, cancellations, closes, ended trips and decided rejections, from tables where nothing delivered has a trip or a rejection open, the unrounded commitment never exceeds the one at the start, or the limit and half a minor unit per item of some passing decision |
| CreditCeiling.CeilingWithLeftOver | src/lib/reservations.ts:226-244 | from any tables at all the same, with what delivered bookings still had left over on top |
| CreditCeiling.ReopeningExceeds | src/lib/tripLifecycle.ts:318-350 | from rows delivered with a rejection open, a run that commits 1400.00 against a limit of 1000.00 |
| CreditCeiling.WalkInBounded | src/lib/manualBooking.ts:49-67 | a self-approved booking stays within what its decision allows |
| CreditCeiling.ReleaseCommitsNothing | src/lib/reservationRelease.ts:119-140 | with one tax rate a site, a release moves a commitment into a ticket of the same worth |
| CreditCeiling.ReleaseRaisesExposureByOne | src/lib/creditPolicy.ts:162-167 | where station rates differ, a release raises rounded exposure by one minor unit at most |
| TripResources.StartsExactlyWhenFree | src/lib/tripDispatch.ts:54-90 | a dispatch goes through exactly when the ticket can go, every resource fits, and none of them, crew in either role included, is on another open trip |
| TripResources.ReassignsExactlyWhenFree | src/lib/tripAssignment.ts:178-229 | the same for a reassignment, the trip itself excepted, only while loading |
| TripResources.DispatchBooksAll | src/lib/tripDispatch.ts:265-276 | a dispatch that goes through adds one open trip with the ticket and all five ids asked for |
| TripResources.ReassignmentBooksAll | src/lib/tripAssignment.ts:193-229 | a reassignment that goes through puts the trip under what was asked for, pump and crew for a pump delivery only, and leaves every other trip |
| TripResources.NothingBookedTwice | src/lib/tripDispatch.ts:79-90 | over any run, until a trip is closed or itself reassigned, no dispatch and no reassignment of another trip that names its truck, driver, pump or any of its crew goes through |
| TripResources.StagesInOrder | src/lib/tripLifecycle.ts:54-86 | a trip moves one stage at a time, by an advance that knows its stage or the close of a discharging one |
| TripResources.TripsAreExclusive | src/lib/tripAssignment.ts:84-154 | in every reachable state no two open trips share a truck, driver, pump or crew member, pump ids on chute deliveries included |
| TripResources.AssignmentFrozenAfterLoading | src/lib/tripAssignment.ts:193-194 | a trip past LOADING keeps its assignment for good, and no trip goes back |
| TripResources.TripBoard.StartTripForTicket | src/lib/tripDispatch.ts:227-279 | the claim, the resource claim and the insert in order, keeping exclusivity |
| TripResources.TripBoard.ReassignTrip | src/lib/tripAssignment.ts:181-229 | the reassignment in order, keeping exclusivity |
| LeastSquares.FitRegressionsByAge | src/lib/strength-prediction.ts:39-70 | a line for exactly the ages 3, 7 and 14 with three pairs and a spread of 0.000001, each fitted to its own pairs |
| LeastSquares.OfAgeIs | src/lib/strength-prediction.ts:39-47 | the samples of an age are exactly its pairs, early strength against final |
| LeastSquares.FitMinimises | src/lib/strength-prediction.ts:49-60 | the fitted line has the least squared error of all lines, and no other line has it |
| LeastSquares.RSquaredExplains | src/lib/strength-prediction.ts:62-67 | 0 <= rSquared <= 1, and n times the error is denomY * (1 - rSquared) where denomY exceeds its threshold |
| Cusum.FindLastCusumSignal | src/lib/anomaly.ts:53-72 | the last signal of the two-sided chart |
| Cusum.ChartIsTrue | src/lib/anomaly.ts:57-69 | each side is the largest window sum since the sample after its own last signal, both stay within h, signals come in the order of their samples, and every signal stands for a window that left the interval |
| Cusum.NoSignalDropped | src/lib/anomaly.ts:62-68 | both sides never cross at one sample |
| Cusum.SignalsExactlyOnDrift | src/lib/anomaly.ts:53-72 | the chart signals if and only if some window leaves the decision interval |
| Cusum.DetectDrift | src/lib/anomaly.ts:84-121 | the flag is the last signal of the chart at 0.5 and 4 deviations of the baseline, if there are ten readings and it is among the last eight; a flag is true, and without drift there is none |
| Csv.ParseCsvRows | src/lib/bankReconciliation.ts:28-69 | the character loop computes the reader's recursive definition, less blank rows |
| Csv.RoundTrip | src/lib/csv.ts:7-21 | reading what was printed gives every row that is not blank, each field unchanged but for carriage returns in fields that needed no quotes |
| Csv.RowsComeBack | src/lib/bankReconciliation.ts:28-69 | position by position, exactly the rows with a character that is not white space come back, each field in its column |
| Csv.LineByLine | src/lib/csv.ts:13-21 | a byte order mark, the header line and a line for each row, CR LF between them |
| Csv.KeptUnchanged | src/lib/csv.ts:7-11 | a field comes back unchanged if and only if it has a comma, quote or line feed or no carriage return, and is printed as it is if and only if it has none of the three |
| Base32.Base32Encode | src/lib/totp.ts:16-30 | the loops on unmasked 32-bit words compute the unpadded encoding |
| Base32.Base32Decode | src/lib/totp.ts:32-48 | likewise the decoding of the cleaned text, letters beyond ASCII whose upper case falls in the alphabet included |
| Base32.EncodingIsNumeral | src/lib/totp.ts:16-30 | the encoding is the number the bytes make, written base 32 after the fewest zero bits that complete a symbol (section 6 of RFC 4648) |
| Base32.RoundTrip | src/lib/totp.ts:16-48 | decoding the encoding gives back every byte string |
| Base32.DecorationIgnored | src/lib/totp.ts:32-40 | characters that leave no symbol, put in or taken out anywhere, and characters for others that leave the same symbols, do not change what is decoded |
| Base32.KeptAre | src/lib/totp.ts:33-33 | what each character leaves: letters in either case, the digits 2 to 7, and the seventeen characters whose upper case expands to letters |

## Left out

- logicalKey: the queue identifies a field by its ticket, component and kind of reading; LogicalKey proves the string it renders equivalent to that for separator-free ids. Sorting the payload's entries is taken as done.
- flushQueue: its loop appears as separate steps of the protocol, so that passes, tabs and storage interleave freely; the order it lists items in is not modelled.
- Offline storage that cannot be parsed, queues of other identities and their adoption, subscriptions, and the dates kept for display. Taking over a foreign queue whose clear failed can leave one id in two partitions, and the no-loss result assumes ids unique.
- Blank readings: String.prototype.trim is modelled on ASCII white space in the queue, in full in Csv.
- Who may record a reading: the permission and scope checks in front of the server are one nondeterministic refusal.
- Storage matching and the sort of components, credits and rows: every result holds for every order.
- resolveTicketComponents: masses are given in the unit of their store; the conversion from kilograms is a positive factor.
- claimMovement: its conflict branch cannot be reached after the row check, and reads as such.
- reclaimCreditMassKg: the running counter on a component is not modelled; the ledger rows it mirrors are.
- getAvailableReclaimForTruck reads outside the dispatch transaction in the code; the truck's row lock makes that read the same as the one modelled.
- Trip resources inside stock runs are one nondeterministic outcome there; TripResources models them in full. A trip's states between loading and closing are one open state there.
- Stock runs start with all their stores: one registered later is one that nothing was posted to before. A sensor reading older than the last one changes nothing, and one above capacity is refused; both are readings that do not happen.
- ShortageApprovals: hard deletes of tickets, which the foreign key of a request forbids, and the audit rows.
- Outbox: requisition numbers and their retry loop, the text and recipients of notices, and the push itself, which is best effort.
- RetryQueue: overlapping sweeps. With two of them a row claimed by both can record a fifteenth failure; the outbox counts failures for any number of workers.
- Reservations: pour details, pump bookings, mix revisions and quotes; each operation is one step, as its row lock makes it, and so a function on the tables rather than a method on rows.
- Reservations: a trip is no state of its own there, only its close is; any completed ticket may close at any time.
- Initial approval is a plain update in the code and may land on a cancelled reservation; the model lets it.
- CreditCeiling: invoices stay as they are, so issuing one for a delivered trip, and payments, are not part of a run; prices, taxes, stations and limits do not change either.
- EvaluateCustomerCredit: always about a proposal; the form without one, which only asks whether any headroom is left, is not modelled. Amounts and volumes are finite.
- TripResources: photographs, delays, plant moves between sites beyond the site each transaction reads.
- Cusum: sorting the samples, the z-score outliers, and the square root itself, which is a parameter.
- Csv: dates and amounts read from the parsed rows. Here and in Base32, characters are Unicode scalar values rather than UTF-16 units.
- Floating point, retry jitter, logging and everything the user interface does.
