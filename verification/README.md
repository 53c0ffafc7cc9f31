# Verification of the live execution backend

A Dafny model of the parts of `apps/api/internal` on which money depends: the two-leg open
with crash recovery, the funding ledger, the account feed registry with its submission gate
and lock order, the lease that fences servers, the signing-request store, the signal
projection, order-book arithmetic and price limits, history pairing, and the rate limiters.

`dafny verify dfyconfig.toml` checks all of it.

| file | models |
|---|---|
| `LiveSession.dfy` | the session, decisions on fills, and what makes a point of a run safe to restart from |
| `LiveServer.dfy` | the server: advance, retry, abort, cleanup, recovery, restore and crashes |
| `Handover.dfy` | several servers with copies of one session: who may open it, and what a stale copy may finish |
| `FundingLedger.dfy`, `FundingStore.dfy` | funding totals, coverage and pruning; the store and the sync loop |
| `SubmissionGate.dfy` | the priority gate under all interleavings |
| `OrderedLocking.dfy` | the lock order of account feeds |
| `FeedRegistry.dfy` | reference counts, eviction and capacity of account feeds |
| `SessionLease.dfy` | leases on durable sessions |
| `SigningStore.dfy` | one-shot signing requests and close batches |
| `SignalProjection.dfy` | the versioned refresh worker |
| `OrderBook.dfy` | average price, worst price and impact of an order |
| `PriceLimits.dfy` | evaluation, constraint and validation of a plan's price limits |
| `HistoryPairing.dfy` | pairing and thinning price histories |
| `RateLimits.dfy` | the sliding log and the token buckets |
| `Basics.dfy` | optional values and other small shared notions |

## How the models are built

Code that changes things step by step is a class whose methods are tied to functions of the state
before; concurrent code is a system of atomic sections, and a run is any sequence of them. Replies
of venues, stores, builders and clocks are parameters or free choices, so a contract holds for all
of them. Beside the invariants over runs, lemmas named `...Exactly` say what a single operation does
and when, in terms of the state before it. History that the program does not keep (grants, inserts,
applied windows, every durable world visited) is ghost state or a field named as history.

### The open protocol

A `World` is what survives a crash: the durable row, the stored position and the truth at the
venues. Every store or venue call adds the world to `visited`, and a crash restarts from any
world in it, so a crash between any two calls is covered; a restart on another server is such a
crash. Two notes record who acted: `finishedFrom` is the session for which cleanup finished the row
as never sent, `judgedFrom` the session from which a recovery stored its verdict. The code loses
something in two cases, told by the session alone:

* a judged session, in any state after its orders, whose result the store refused stays in memory,
  and cleanup later finishes its row as never sent (`CleanupDropsExposure`);
* a session left in state recovering with more than 1e-9 of leg 2 on its record is recovered again
  without looking at leg 2 (`RecoveringForgetsLeg2`).

Contracts of the handlers say what a call does when no other server holds the lease (`leased`), and
what it may leave undone otherwise. The promises are proved as equivalences in these terms, for
every point of every run, and each method that can take such a branch says so from the session it
was given (`FinishSafe`, `TakeExpired`, `RecoverExposedSession`, `RestoreSession`); the others leave
both notes alone.

What the environment is assumed to do: an order fills at most its amount and a rejected one nothing;
orders are immediate-or-cancel, so a returned fill is final even when it is marked as timed out
(`ShortReportOverhedges` and `ShortReportLeavesLeg1` show what else happens), and it is marked as
filled exactly when its amount is positive; payload builders never round up, and the leg-1 open and
its unwind have equal amounts; a fill reported for the unwind belongs to that submission; only this
session's orders move the two positions, from zero; a snapshot that passes the freshness gate shows
every order already sent; exact order lookups return non-empty order ids; a store call succeeds or
reports another owner, which it does not to the server whose session in memory is the journaled one
and has not expired, since a lease of 90 seconds outlasts a session of 60; finishing right after a
granted claim takes effect; the account locks keep handlers of one session apart.

### Other assumptions

* Funding: a venue reports a payment with the same contents every time, and answers a window with
  all it has in it; observed payments are no older than seven days before the covered time; only
  positions not yet finalized are fetched, as the monitor does. `Admissible` states this.
* Leases and handover: the servers' clocks agree and never go back; a claim and the save, order or
  result it guards are one step; a session and its leg-1 requests are made at one time.
* Signing store: request ids are fresh, and a consumed request is given back or completed once.
  What happens when that comes too late for its batch is proved separately.
* Signals: the hash of the opportunities is injective.
* Prices and amounts are reals; the explicit tolerances of the code are kept. Times are whole
  milliseconds or seconds.

### Where code and description differ

* The comment on `ReuseOrStoreCloseBatch` (`apps/api/internal/domain/signing_store.go:36-38`) promises
  one active set per position; a request of an expired batch that is given back late breaks it
  (`LateGiveBackAllowsTwo`), so the exact condition is proved instead.
* Cleanup records `expired before any order submission` (`apps/api/internal/api/live_session_recovery.go:419-437`)
  for sessions that did submit: judged ones whose result was refused (`CleanupLosesExactly`) and, among
  several servers, ones that another server opened (`Handover.StepLosesExactly`).

## Model

| member | source | states |
|---|---|---|
| `LiveServer.Server.Run` | apps/api/internal/api/live_session_recovery.go:254-362 | for every sequence of client calls, expiries, cleanups, restarts, delayed recoveries, supersessions and crashes (each at any store or venue call ever made), with every possible reply, each handled as its own contract says: at every point exposure is off the record exactly when something is held and either cleanup finished the row of a session already judged or a recovery in state recovering with leg 2 on its record stored failed; a failed verdict means flat exactly when no such recovery gave it; an open position is a hedge, at most one leg-1 and two leg-2 orders were sent, and leg 2 never exceeds the leg-1 fill |
| `LiveServer.Server.Handle` | apps/api/internal/api/live_session_recovery.go:20-38 | what each event does to row, position, venues and memory, a crash losing exactly the memory |
| `LiveSession.ExposureRecordedExactly` | apps/api/internal/api/live_session.go:148-152 | exposure is on an active row flagged as exposed, or in an open or degraded position, if and only if nothing is held, or the row was not finished by cleanup for a judged session nor after a failed verdict from a session recovering with leg 2 on its record |
| `LiveSession.FailedVerdictExactly` | apps/api/internal/api/live_advance.go:866-871 | a position stored as failed left both legs flat up to the unwind tolerance if and only if it was not stored by a recovery that started in state recovering with leg 2 on its record |
| `LiveSession.OpenHedgeSize` | apps/api/internal/api/live_advance.go:414-448 | an open position holds at least half the leg-1 target, and on leg 2 at least 47.5% of it and never more than on leg 1 |
| `LiveSession.CleanupLosesExactly` | apps/api/internal/api/live_session_recovery.go:419-445 | finishing an unstored session takes exposure off the record if and only if the session was judged before and its orders left some |
| `LiveSession.CleanupDropsExposure` | apps/api/internal/api/live_session_recovery.go:419-445 | the steps from any fresh session, for any hedge outside the band, to a judged session whose row cleanup finishes while both legs are open |
| `LiveSession.RecoveringForgetsLeg2` | apps/api/internal/api/live_session_recovery.go:447-585 | the steps from any fresh session, for any hedge outside the band, to a recovery that stores failed while leg 2 is held |
| `LiveSession.StoreIsSafe` | apps/api/internal/executor/result_store_atomic.go:24-126 | storing a result allowed by the verdict keeps the world safe to restart from |
| `LiveSession.JournalIsSafe` | apps/api/internal/api/live_session_durable.go:287-312 | journaling a session that agrees with the venues keeps the world safe to restart from |
| `LiveSession.UnwindIsSafe` | apps/api/internal/api/live_advance.go:661-690 | a reduce-only fill, while leg 2 is no hedge, keeps the world safe to restart from |
| `LiveSession.SendLeg1IsSafe` | apps/api/internal/api/live_advance.go:302-321 | leg 1 may leave once it is journaled as being submitted and has never left before |
| `LiveSession.SendLeg2IsSafe` | apps/api/internal/api/live_advance.go:526-561 | a leg-2 order may leave once its attempt is journaled: the hedge first, its retry only after a definite answer to the hedge |
| `LiveSession.ConfirmedUnwindIsFlat` | apps/api/internal/api/live_leg2_recovery.go:281-287 | a confirmed unwind leaves leg 1 flat, also when the leg-1 fill was never learned |
| `LiveSession.AnyHedgeableFillIsHedged` | apps/api/internal/api/live_advance.go:302-492 | from any fresh session leg 1 may be sent, and any fill of at least half its target leads to a hedge of exactly that fill, ready to be sent |
| `LiveSession.AnyHedgeIsAnswered` | apps/api/internal/api/live_advance.go:546-591 | from there any fill of the hedge may be the answer, and the session then agrees with the venues |
| `LiveSession.AnyHedgeWithinBandOpens` | apps/api/internal/api/live_advance.go:592-606 | any fill of that hedge within 5% of leg 1 can be stored as open |
| `LiveSession.MismatchIsBand` | apps/api/internal/api/live_leg2_recovery.go:40-45 | the mismatch is within 5% exactly when leg 1 is positive and leg 2 lies between 95% and 105% of it |
| `LiveSession.ShortReportOverhedges` | apps/api/internal/api/live_advance.go:592-606 | what goes wrong without the assumption that a returned fill is final: a hedge seen short is retried and stored as open, and is a hedge if and only if at most 5% of leg 1 had gone unseen |
| `LiveSession.ShortReportLeavesLeg1` | apps/api/internal/api/live_advance.go:661-690 | the same for leg 1 seen short: an unwind that fills what was seen is confirmed, and is flat if and only if no more than the tolerance had gone unseen |
| `LiveSession.HedgeNeverOverfills` | apps/api/internal/api/live_leg2_recovery.go:232-244 | on the advance path the recorded leg 2 never exceeds leg 1, so the branch for an overfilled hedge is never taken |
| `LiveSession.InvalidHedgeUnwound` | apps/api/internal/api/live_leg2_recovery.go:47-60 | what is stored as failed after unwinding an invalid hedge is flat, and what stays in memory still agrees with the venues |
| `LiveSession.ReconciledHedgeIsOpen` | apps/api/internal/api/live_session_recovery.go:686-721 | two exposed legs whose recorded fills and sizes agree within 5% are an untouched hedge |
| `LiveSession.RetrySentFits` | apps/api/internal/api/live_leg2_recovery.go:18-38 | the merged fill of hedge and retry is what the venue holds |
| `LiveSession.RecoveryFacts` | apps/api/internal/api/live_session_recovery.go:484-523 | from any exposed state: unless leg 2 is held, the session may be unwound, and a leg 1 known to be unfilled means nothing is held |
| `LiveSession.UnwindAims` | apps/api/internal/api/live_advance.go:661-690 | an unwind must fill the known fill, or all that is armed when none is known; reduce-only, it fills at most what is held |
| `LiveSession.RemainingExactly` | apps/api/internal/api/live_leg2_recovery.go:47-60 | what is left of a fill after an unwind |
| `LiveSession.OnlyUnknownFillsTaken` | apps/api/internal/api/live_session_recovery.go:796-805 | recovery takes the sizes it found for fills it does not know, and no others |
| `LiveSession.FilledExactly` | apps/api/internal/api/live_session_recovery.go:641-651 | when a fill is present and when an order is fully filled |
| `LiveSession.ExposedStates` | apps/api/internal/api/live_session.go:148-152 | which states may have orders at a venue, and which may have leg 2 there |
| `LiveServer.Server.HandleAdvance` | apps/api/internal/api/live_advance.go:43-131 | by the state of the session in memory: an expired one is handed over, a server that is not ready and a state that waits for nothing change nothing; an abort, or a signature not in order, before the hedge unwinds leg 1, forgets the session and stores failed exactly when the unwind was confirmed, and before the retry unwinds and stores or keeps what is left; an unsigned call changes nothing; otherwise exactly the order that was waiting is sent |
| `LiveServer.Server.AdvanceLeg1` | apps/api/internal/api/live_advance.go:135-300 | leg 1 is sent exactly when sizes are unchanged, all is signed and in order, every leverage update succeeded, the depth is still there and the request in time; an unsigned call changes nothing, and in every other case the session is forgotten and its row finished unless another server owns it |
| `LiveServer.Server.ApplyLeverage` | apps/api/internal/api/live_advance.go:232-290 | with the lease, leverage is confirmed exactly when every update succeeded, and each is on record before the next; nothing but the journal is touched |
| `LiveServer.Server.ConfigureLeverage` | apps/api/internal/api/live_advance.go:205-300 | journaled with the unwind armed before anything is sent; leg 1 leaves exactly when leverage, depth and time allow |
| `LiveServer.Server.SubmitIfReady` | apps/api/internal/api/live_advance.go:292-317 | leg 1 leaves exactly when the depth is still there, the state was journaled and the request has not expired |
| `LiveServer.Server.EndUnsent` | apps/api/internal/api/live_session_durable.go:314-319 | nothing was sent: forgotten, and finished unless another server owns the row |
| `LiveServer.Server.EndWaiting` | apps/api/internal/api/live_advance.go:154-204 | changed sizes or a signature not in order: forgotten, and finished unless another server owns the row |
| `LiveServer.Server.SubmitAndAwaitLeg1` | apps/api/internal/api/live_advance.go:319-361 | exactly one leg-1 order leaves; a rejected one holds nothing and is stored as failed, one with an unknown outcome is queued for recovery, and an accepted one is judged by its fill |
| `LiveServer.Server.AwaitLeg1Fill` | apps/api/internal/api/live_advance.go:379-448 | without a confirmed fill, below half the target, or without a hedge payload, leg 1 is unwound and the verdict stored; otherwise the hedge of the fill, capped by what was built, waits for its signature |
| `LiveServer.Server.AwaitHedge` | apps/api/internal/api/live_advance.go:450-492 | the hedge of the fill, capped by the built amount, waits, journaled and with its request |
| `LiveServer.Server.AdvanceLeg2` | apps/api/internal/api/live_advance.go:497-545 | with its signature in order the hedge is sent and its request used up; a signature not in order gives up, and none changes nothing |
| `LiveServer.Server.SubmitHedge` | apps/api/internal/api/live_advance.go:546-562 | exactly one hedge leaves, of the size that waited; one with an unknown outcome is queued for recovery, a rejected one leaves all of it to a retry |
| `LiveServer.Server.AwaitLeg2Fill` | apps/api/internal/api/live_advance.go:563-591 | without its fill an accepted hedge is queued for recovery; with it the fill is journaled and the hedge judged |
| `LiveServer.Server.JudgeHedge` | apps/api/internal/api/live_advance.go:592-606 | from 95% to 105% of leg 1 it is stored as open; below, unless nothing filled in time, a retry is offered; anything else is invalid |
| `LiveServer.Server.PrepareLeg2Retry` | apps/api/internal/api/live_leg2_recovery.go:62-116 | exactly when something is open, the payload was built and is worth sending, a retry of what is open, capped by the built amount, waits, journaled and with its request; otherwise the hedge is invalid |
| `LiveServer.Server.AdvanceLeg2Retry` | apps/api/internal/api/live_leg2_recovery.go:126-160 | with its signature in order the retry is sent and its request used up; a signature not in order makes the hedge invalid, and none changes nothing |
| `LiveServer.Server.SubmitRetry` | apps/api/internal/api/live_leg2_recovery.go:161-173 | exactly one retry leaves, of the size that waited; one with an unknown outcome is queued for recovery, a rejected one leaves the hedge invalid |
| `LiveServer.Server.AwaitRetryFill` | apps/api/internal/api/live_leg2_recovery.go:174-188 | without its fill an accepted retry is queued for recovery; with it both fills together are journaled and judged |
| `LiveServer.Server.JudgeRetry` | apps/api/internal/api/live_leg2_recovery.go:189-200 | hedge and retry together are stored as open from 95% to 105% of leg 1, and are invalid otherwise |
| `LiveServer.Server.CompleteHedgeOpen` | apps/api/internal/api/live_leg2_recovery.go:202-226 | a hedge within the band is stored as open without touching the venues |
| `LiveServer.Server.RecoverInvalidHedge` | apps/api/internal/api/live_leg2_recovery.go:228-272 | leg 1 is unwound by exactly what the venue fills; what is left is stored, failed exactly when nothing is, or kept in memory in state recovering |
| `LiveServer.Server.StoreOrKeep` | apps/api/internal/api/live_leg2_recovery.go:251-272 | stored when no other server holds the lease; what cannot be stored stays in memory |
| `LiveServer.Server.FireUnwind` | apps/api/internal/api/live_advance.go:661-690 | not armed exactly without an armed unwind, and then nothing is sent; otherwise fills at most the armed amount and what is held, and is confirmed exactly for a reported fill of the expected amount up to the tolerance |
| `LiveServer.Server.UnwindAndPersist` | apps/api/internal/api/live_advance.go:866-871 | failed is stored exactly when the unwind was confirmed, degraded otherwise, with the fills that are left; always stored when no other server holds the lease |
| `LiveServer.Server.UnwindAndForget` | apps/api/internal/api/live_advance.go:621-637 | the abort path: leg 1 unwound, out of memory, stored by whether the unwind was confirmed; the request for the hedge stays where it is |
| `LiveServer.Server.PersistSession` | apps/api/internal/api/live_advance.go:784-816 | stored only under the lease and only once per session; a refusal changes nothing |
| `LiveServer.Server.Save` | apps/api/internal/api/live_session_durable.go:287-312 | journaled under the lease, never on a finished row; a refusal changes nothing |
| `LiveServer.Server.FinishLive` | apps/api/internal/api/live_session_durable.go:314-319 | leaves memory; the row is finished only if no other server owns it |
| `LiveServer.Server.RecoverExposedSession` | apps/api/internal/api/live_session_recovery.go:447-523 | recovery sends nothing but the reduce-only unwind; with the lease it is decided as its table says, without it nothing happens; a failed verdict is wrong if and only if the session came in state recovering with more than 1e-9 of leg 2 on its record; exposure goes off the record exactly then |
| `LiveServer.Server.RecoverClaimed` | apps/api/internal/api/live_session_recovery.go:459-523 | without accounts nothing happens; a recovery that another operation overlapped is queued again; any other ends in a verdict from what the exact orders and the sizes say |
| `LiveServer.Server.PutOff` | apps/api/internal/api/live_session_recovery.go:455-507 | an overlapped recovery stays in memory and runs again |
| `LiveServer.Server.ReconcileOrders` | apps/api/internal/api/live_session_recovery.go:593-639 | only fills are learned, by exact lookups of orders whose outcome was open, and they are what the venue executed |
| `LiveServer.Server.RecoverWithoutTruth` | apps/api/internal/api/live_session_recovery.go:525-557 | without fresh sizes leg 1 is unwound exactly when its fill is known and covered by the armed unwind and leg 2 was never sent; everything else is degraded, with nothing sent |
| `LiveServer.Server.RecoverFromTruth` | apps/api/internal/api/live_session_recovery.go:559-585 | with fresh sizes: where leg 2 may be held the hedge is reconciled; without leg 1 the verdict is failed and nothing is sent; with it leg 1 is unwound |
| `LiveServer.Server.ReconcileSubmittedHedge` | apps/api/internal/api/live_session_recovery.go:686-721 | neither leg exposed is a failure, leg 1 alone is unwound, both within 5% in fills and in sizes is open, and everything else is degraded |
| `LiveServer.Server.UnwindAndConclude` | apps/api/internal/api/live_session_recovery.go:576-585 | unwound by exactly what the venue fills; failed exactly when confirmed; what is left is stored, or kept in memory |
| `LiveServer.Server.Conclude` | apps/api/internal/api/live_session_recovery.go:509-523 | a verdict is stored with its fills, or kept in memory; the venues are left alone |
| `LiveServer.Server.FinishSafe` | apps/api/internal/api/live_session_recovery.go:439-445 | only an active row is finished, and only under the lease; exposure goes off the record if and only if the row is finished, the session was judged and its orders left some |
| `LiveServer.Server.TakeExpired` | apps/api/internal/api/live_session_recovery.go:419-437 | an expired session leaves memory; an exposed one is handed to recovery with its row untouched; any other loses exposure exactly as in FinishSafe |
| `LiveServer.Server.RestoreSession` | apps/api/internal/api/live_session_recovery.go:254-377 | one pass of the restore loop: finished rows and sessions in memory are left alone, an exposed row that cannot be read or an unstored one whose position belongs to others is only blocked, an unexposed unreadable row and one whose position is stored are finished, and any other session is taken up; it gives no wrong verdict, and takes exposure off the record exactly by finishing a row whose stored verdict was already wrong |
| `LiveServer.Server.ResumeSession` | apps/api/internal/api/live_session_recovery.go:331-361 | a session that only set leverage is finished, one waiting for leg-1 signatures waits again if they are in time and is finished otherwise, and every exposed one is recovered |
| `LiveServer.Server.RunFirstQueued` | apps/api/internal/api/live_session_recovery.go:447-523 | the oldest queued recovery runs, the others stay queued |
| `LiveServer.Server.SupersedeSafe` | apps/api/internal/executor/session_store.go:87-122 | finishes exactly an active unexposed row |
| `Handover.OneServerOpens` | apps/api/internal/api/live_advance.go:215-321 | over every run of any number of servers, with stale copies, crashes and takeovers, at most one server begins to open a session, and leg 1 is sent at most once, by that one |
| `Handover.RunKeepsInv` | apps/api/internal/api/live_session_recovery.go:254-362 | the invariant behind it: whoever began keeps the lease for as long as anyone could still begin |
| `Handover.EnabledExactly` | apps/api/internal/api/live_session_recovery.go:254-445 | a copy takes exactly the steps of its state, and only in time |
| `Handover.LeaseTakenExactly` | apps/api/internal/executor/session_store.go:324-345 | a step that claims takes the lease exactly when the row is active and nobody else's lease runs |
| `Handover.CopiesMoveExactly` | apps/api/internal/api/live_session_recovery.go:254-362 | other copies stay, and a server's own goes on only by what it was granted |
| `Handover.RowMovesExactly` | apps/api/internal/api/live_session_recovery.go:254-445 | what exposes a row, what finishes it, and with which verdict |
| `Handover.SenderHoldsLease` | apps/api/internal/api/live_advance.go:302-321 | leg 1 leaves only under a lease that runs, when no other server could claim the row |
| `Handover.StepLosesExactly` | apps/api/internal/api/live_session_recovery.go:419-445 | a step finishes a row without a verdict although leg 1 was sent if and only if a copy still waiting for signatures claims it in cleanup, or owns it when it is declined |
| `Handover.ForgetsOnlyLate` | apps/api/internal/api/live_session_recovery.go:419-445 | only a server that did not open can do so, and only more than 90 seconds after prepare |
| `Handover.RunLosesExactly` | apps/api/internal/api/live_session_recovery.go:419-445 | the same if and only if, over every run |
| `Handover.NothingLostInTime` | apps/api/internal/api/live_session_recovery.go:25-38 | nothing is ever lost when waiting copies are cleaned up within 90 seconds |
| `Handover.LateCleanup` | apps/api/internal/api/live_session_recovery.go:419-445 | the steps to it, from prepare: cleanup of the copy of the server that prepared loses the exposure of one that opened and crashed if and only if it comes after 90 seconds |
| `FundingLedger.PublishedTotalIsAccepted` | apps/api/internal/executor/store.go:864-920 | whenever a total is published it is the sum of the venues' payments accepted so far, each once, and those include all from the opening to the target, although raw rows were pruned and windows overlap |
| `FundingLedger.PublishedTotalIsHistory` | apps/api/internal/executor/store.go:864-920 | when no payment lies outside that time, it is the sum of all that the venues ever paid the position |
| `FundingLedger.RunKeepsExact` | apps/api/internal/executor/store.go:758-862 | over every run of plans, windows, observations and publications the ledger counts real payments, each once, and all that its windows asked for |
| `FundingLedger.WindowExactlyOnce` | apps/api/internal/executor/store.go:758-811 | a window counts every payment once if and only if it brings back none whose row was pruned |
| `FundingLedger.ObservedExactlyOnce` | apps/api/internal/executor/store.go:813-862 | the same for a batch of observed payments |
| `FundingLedger.StaleWindowCountsTwice` | apps/api/internal/executor/store.go:765-801 | a concrete window, allowed by the guards, that starts before the rows kept and counts a payment twice |
| `FundingLedger.RecentNotForgotten` | apps/api/internal/executor/store.go:708-712 | payments from seven days before the covered time on have kept their rows |
| `FundingLedger.BatchExactlyOnce` | apps/api/internal/executor/store.go:963-1018 | inserts stay distinct if and only if no payment of the batch was inserted before and lost its row |
| `FundingLedger.BatchStores` | apps/api/internal/executor/store.go:963-1018 | after a batch every payment of it is stored and all of them were valid; nothing else was inserted |
| `FundingLedger.RecordsNeverConflict` | apps/api/internal/executor/store.go:1003-1016 | payments from the venues' records never conflict with stored rows |
| `FundingLedger.WindowKeepsBooks` | apps/api/internal/executor/store.go:790-811 | totals equal the inserts of their key, covered time has no gap, only old rows are missing |
| `FundingLedger.ReconcileKeepsBooks` | apps/api/internal/executor/store.go:864-920 | publication and finalization keep the books |
| `FundingLedger.PlannedWindowAdvances` | apps/api/internal/executor/store.go:719-756 | a planned window passes the guards, never reaches back past the rows kept, and covers the target or six more days |
| `FundingLedger.NothingPlannedIffCovered` | apps/api/internal/executor/store.go:737-740 | nothing is planned exactly when the target is covered |
| `FundingLedger.PlannedExactly` | apps/api/internal/executor/store.go:719-756 | when a plan fails; a planned window starts a day before the covered time but not before the opening, and is as long as the target and seven days allow |
| `FundingLedger.EnsuredExactly` | apps/api/internal/executor/store.go:926-961 | coverage is refused exactly without a venue or account, or for another account or start; its first row counts what is stored |
| `FundingLedger.BatchSucceedsExactly` | apps/api/internal/executor/store.go:963-1018 | a batch succeeds if and only if every payment is the account's, has an id and a time, lies in the window, and conflicts with no stored one and none of the batch |
| `FundingLedger.WindowAppliesExactly` | apps/api/internal/executor/store.go:758-788 | a window is applied if and only if its account is covered, it leaves no gap, lies after the opening within seven days, and its batch succeeds |
| `FundingLedger.WindowStores` | apps/api/internal/executor/store.go:788-811 | exactly the payments not stored before are added to rows and total, coverage moves on, never back, and exactly the key's rows older than seven days are pruned; nothing else changes |
| `FundingLedger.ObservedAppliesExactly` | apps/api/internal/executor/store.go:813-843 | when observed payments are accepted, and that nothing changes once the position is final |
| `FundingLedger.ObservedStores` | apps/api/internal/executor/store.go:843-862 | the same for observed payments, with coverage left alone |
| `FundingLedger.PublishedExactly` | apps/api/internal/executor/store.go:864-920 | a total is published if and only if both venues cover the time; finalizing marks the position and leaves none of its rows that carry a time, and no other position changes |
| `FundingLedger.FinalTotalsStay` | apps/api/internal/executor/store.go:828-836 | over every run the totals of a final position never change again |
| `FundingLedger.DeleteKeeps` | apps/api/internal/executor/store.go:804-809 | pruning removes exactly the old rows of one key that carry a time |
| `FundingStore.Store.InsertFundingPayments` | apps/api/internal/executor/store.go:963-1018 | the insert loop is the batch function; the first invalid or conflicting payment fails it |
| `FundingStore.Store.EnsureFundingCoverage` | apps/api/internal/executor/store.go:926-961 | coverage is created once, seeded with the rows stored before, and its account and start never change |
| `FundingStore.Store.NextFundingWindow` | apps/api/internal/executor/store.go:719-756 | plans by the planning function |
| `FundingStore.Store.ApplyFundingWindow` | apps/api/internal/executor/store.go:758-811 | a window is applied as a whole or rolled back as a whole |
| `FundingStore.Store.ApplyObservedFunding` | apps/api/internal/executor/store.go:813-862 | a batch of observations is applied or rolled back as a whole; nothing once finalized |
| `FundingStore.Store.ReconcileFunding` | apps/api/internal/executor/store.go:864-920 | publishes and realizes the total; finalizing marks the position and deletes its rows that carry a time; without a total nothing changes |
| `FundingStore.Store.SyncVenue` | apps/api/internal/executor/funding_monitor.go:97-120 | four windows reach the target or move coverage on by 24 days; only a venue that does not answer validly makes it incomplete |
| `FundingStore.Store.SyncPosition` | apps/api/internal/executor/funding_monitor.go:72-136 | a total is published whenever both venues answer and are within four windows of the target; it is the sum of the accepted payments, among them all up to the target, the venues' own sum when none lies outside, and final exactly when asked |
| `SubmissionGate.RunKeepsInv` | apps/api/internal/api/live_account_registry.go:220-284 | over all interleavings: at most one caller owns the gate, a free gate has no queue, both queues are in order of arrival, every grant was fair |
| `SubmissionGate.WaitersAreServed` | apps/api/internal/api/live_account_registry.go:259-274 | somebody waiting means exactly one owner, whose unlock, or give-up after its grant, hands the gate to the first in line |
| `SubmissionGate.OwnersAreGranted` | apps/api/internal/api/live_account_registry.go:220-228 | ownership changes only by a recorded grant; an arriving caller takes the gate only when nobody waits |
| `SubmissionGate.QueueOrderIsKept` | apps/api/internal/api/live_account_registry.go:229-234 | within a class nobody is granted before an earlier one that still waits |
| `SubmissionGate.EveryCallerAccountedFor` | apps/api/internal/api/live_account_registry.go:220-284 | over every run each caller that arrived owns the gate, waits, or has left by its own unlock or cancel, and only one of these |
| `SubmissionGate.ArrivalQueues` | apps/api/internal/api/live_account_registry.go:228-234 | arriving at a held gate: last of its own class, and nothing else moves |
| `SubmissionGate.LeavesByItself` | apps/api/internal/api/live_account_registry.go:236-274 | a waiter leaves its queue only by its grant or its own cancel, an owner only by its unlock or cancel |
| `SubmissionGate.WaiterMayLeave` | apps/api/internal/api/live_account_registry.go:239-245 | whoever waits may give up at any time, which moves nobody else |
| `SubmissionGate.AccountSubmissionGate.Lock` | apps/api/internal/api/live_account_registry.go:220-234 | enters a free gate; at a held one the caller is in the queue of its class and the owner stays |
| `SubmissionGate.AccountSubmissionGate.GiveUp` | apps/api/internal/api/live_account_registry.go:239-245 | a cancelled waiter leaves its queue, or passes on the grant it already had |
| `SubmissionGate.AccountSubmissionGate.Collect` | apps/api/internal/api/live_account_registry.go:236-238 | a granted caller that receives becomes the holder |
| `SubmissionGate.AccountSubmissionGate.Release` | apps/api/internal/api/live_account_registry.go:249-257 | passes the gate on |
| `SubmissionGate.RemoveSubmissionWaiter` | apps/api/internal/api/live_account_registry.go:276-284 | removes the waiter and reports whether it was there |
| `OrderedLocking.NoDeadlock` | apps/api/internal/api/live_account_registry.go:430-440 | every state with an unfinished thread has a step that is not a cancellation |
| `OrderedLocking.EveryRunFinishes` | apps/api/internal/api/live_deps.go:476-520 | locks and gates stay exclusive over every run, with cancellations of any caller that is locking or waits for a gate; runs are bounded and can only stop with all threads finished |
| `OrderedLocking.MovesExactly` | apps/api/internal/api/live_deps.go:476-520 | a thread can move unless it has finished or waits for a lock or gate that one holds; it can be cancelled exactly while it takes its locks or waits for a gate |
| `OrderedLocking.MovedExactly` | apps/api/internal/api/live_account_registry.go:430-440 | what a move takes or gives back, one at a time, and that a cancelled thread still releases its locks |
| `OrderedLocking.BeforeExactly` | apps/api/internal/api/live_account_registry.go:455-457 | the order of keys: a proper prefix first, otherwise by the first character that differs |
| `OrderedLocking.LockEntries` | apps/api/internal/api/live_account_registry.go:442-459 | the list to lock holds each leased entry once, in strictly rising order of keys |
| `OrderedLocking.SortOrders` | apps/api/internal/api/live_account_registry.go:455-457 | sorting entries with distinct keys is a permutation in strictly rising order |
| `OrderedLocking.RepeatedKeyBlocks` | apps/api/internal/api/live_account_registry.go:442-459 | why keys must be distinct: two objects of one key block their own caller |
| `FeedRegistry.ReleaseKeepsInv` | apps/api/internal/api/live_account_registry.go:150-168 | releasing keeps every count equal to the unreleased leases and every leased entry alive |
| `FeedRegistry.ShareKeepsInv` | apps/api/internal/api/live_account_registry.go:178-188 | so does a further lease |
| `FeedRegistry.StartKeepsInv` | apps/api/internal/api/live_account_registry.go:199-211 | and a new entry |
| `FeedRegistry.EvictionKeepsInv` | apps/api/internal/api/live_account_registry.go:351-419 | idle and capacity eviction never remove a leased entry |
| `FeedRegistry.StaleReleaseTouchesNothing` | apps/api/internal/api/live_account_registry.go:155-166 | a lease whose entry is gone, or recreated under its key, changes no entry |
| `FeedRegistry.ReleaseIsOnce` | apps/api/internal/api/live_account_registry.go:154-167 | a second release changes nothing |
| `FeedRegistry.OneObjectPerKey` | apps/api/internal/api/live_account_registry.go:172-211 | two unreleased leases of a key are on one object, which ordered locking relies on |
| `FeedRegistry.StartedWithinLimits` | apps/api/internal/api/live_account_registry.go:331-349 | a new entry keeps both limits plus reserve; an ordinary one leaves the reserve alone |
| `FeedRegistry.FullExactly` | apps/api/internal/api/live_account_registry.go:331-349 | at capacity if and only if one more entry of the venue would exceed a limit that is set, which recovery may do by the reserve |
| `FeedRegistry.SharedExactly` | apps/api/internal/api/live_account_registry.go:178-188 | a further lease is on the same object and counts as use unless it is passive |
| `FeedRegistry.ReleasedExactly` | apps/api/internal/api/live_account_registry.go:150-168 | an entry goes exactly when it was started for this lease, is discarded, and nobody else refers to it; a release counts as use unless the lease is passive |
| `FeedRegistry.IdleGoesExactly` | apps/api/internal/api/live_account_registry.go:409-419 | exactly the entries without references that nobody used for the idle time go |
| `FeedRegistry.Registry.AtCapacityLocked` | apps/api/internal/api/live_account_registry.go:331-349 | counts a venue's entries and compares both limits |
| `FeedRegistry.Registry.OldestIdle` | apps/api/internal/api/live_account_registry.go:364-374 | the longest unused idle entry, of a venue or of all |
| `FeedRegistry.Registry.EvictForCapacityLocked` | apps/api/internal/api/live_account_registry.go:351-382 | terminates; only idle entries go, the longest unused first, of the venue if it is full, and no more than needed; still full means nothing idle could help |
| `FeedRegistry.Registry.CleanupIdleLocked` | apps/api/internal/api/live_account_registry.go:409-419 | removes exactly the idle entries past their time |
| `FeedRegistry.Registry.Acquire` | apps/api/internal/api/live_account_registry.go:178-211 | entries in use stay as they are; before a new feed is started expired ones go, and a new entry has one reference; an ordinary feed is refused only when the registry is full of feeds in use |
| `FeedRegistry.Registry.Lookup` | apps/api/internal/api/live_account_registry.go:297-313 | leases an existing feed, never starts one; a passive lease is no use |
| `FeedRegistry.Registry.ReleaseLease` | apps/api/internal/api/live_account_registry.go:150-168 | gives back a lease, dropping a feed started for it when nobody else uses it |
| `FeedRegistry.Registry.CloseAll` | apps/api/internal/api/live_account_registry.go:421-428 | shutdown drops every entry; leases can still be given back |
| `FeedRegistry.ClosedHasNothing` | apps/api/internal/api/live_account_registry.go:421-428 | after shutdown there is no entry and every lease is as before |
| `FeedRegistry.Registry.AcquireAccountContext` | apps/api/internal/api/live_deps.go:436-463 | one lease per venue, or none at all; never refused when the feeds exist already, nor without limits when all start |
| `SessionLease.AtMostOneHolder` | apps/api/internal/executor/session_store.go:326-342 | over every run of any number of servers, unexpired leases of different owners on one session never overlap |
| `SessionLease.HolderIsFenced` | apps/api/internal/executor/session_store.go:289-308 | while one server holds a session, no other can claim, save as exposed, or finish it |
| `SessionLease.RevivedExactly` | apps/api/internal/executor/session_store.go:51-62 | a terminal row is revived exactly by a save of an unexposed session; nothing leases it |
| `SessionLease.TerminalStays` | apps/api/internal/api/live_session_durable.go:287-312 | over every run of exposed saves a finished session stays finished |
| `SessionLease.FinishedExactly` | apps/api/internal/executor/session_store.go:87-122 | a row is finished exactly by its owner, by anyone while unowned, or, unexposed, by superseding its slot |
| `SessionLease.ClaimedExactly` | apps/api/internal/executor/session_store.go:324-345 | a claim is granted if and only if the row is active and unowned, its own or expired, and then lasts 90 seconds |
| `SessionLease.SavedExactly` | apps/api/internal/executor/session_store.go:22-85 | what a save writes, that it keeps the lease, and that an exposed one is refused with its claim |
| `SessionLease.MarkedExactly` | apps/api/internal/executor/session_store.go:87-122 | what a finish, a flag and a supersession write, and when |
| `SessionLease.OthersStay` | apps/api/internal/executor/session_store.go:22-345 | no other row ever changes |
| `SessionLease.OwnerChangesAfterExpiry` | apps/api/internal/executor/session_store.go:326-342 | an owner is replaced only after its lease ran out |
| `SessionLease.SessionStore.SaveLiveSession` | apps/api/internal/api/live_session_durable.go:287-312 | an exposed save holds the lease and never writes a terminal row; a refusal changes nothing |
| `SessionLease.SessionStore.ClaimDurableSession` | apps/api/internal/executor/session_store.go:326-342 | claims exactly an active row that is unowned, its own, or expired |
| `SessionLease.SessionStore.FinishDurableSession` | apps/api/internal/executor/session_store.go:289-308 | reports whether the row became terminal |
| `SessionLease.SessionStore.FlagDurableSession` | apps/api/internal/executor/session_store.go:310-322 | marks an active row without finishing it |
| `SessionLease.SessionStore.SupersedeSafeDurableSessions` | apps/api/internal/executor/session_store.go:87-122 | finishes exactly the active unexposed rows of a slot |
| `SigningStore.RunKeepsInv` | apps/api/internal/domain/signing_store.go:39-65 | over every run of the submit protocol, pending, in-flight and complete requests of a batch are disjoint and whatever can be consumed for a position is in its one batch |
| `SigningStore.OnlyTheBatchCanBeConsumed` | apps/api/internal/domain/signing_store.go:112-166 | while a batch is live no request outside it can be consumed for its position, nor one in flight or complete |
| `SigningStore.BatchStaysUntilComplete` | apps/api/internal/domain/signing_store.go:168-183 | a live batch keeps its requests until it expires or its last one completes |
| `SigningStore.PrepareAgainAddsNothing` | apps/api/internal/domain/signing_store.go:39-46 | preparing again while a batch is live makes nothing new consumable |
| `SigningStore.ConsumedStaysGone` | apps/api/internal/domain/signing_store.go:103-110 | one shot: a consumed request stays gone until it is given back |
| `SigningStore.GiveBackKeepsInvExactly` | apps/api/internal/domain/signing_store.go:75-93 | giving back keeps the store in order if and only if the request is of the present batch, or has expired, or closes nothing |
| `SigningStore.RemovedTooEarlyExactly` | apps/api/internal/domain/signing_store.go:168-183 | in any store, completing removes an unfinished batch if and only if the count becomes full and one that was counted is not of the batch |
| `SigningStore.CompleteKeepsInvExactly` | apps/api/internal/domain/signing_store.go:168-183 | completing keeps the store in order if and only if the request is of the present batch, or closes nothing, or has no batch, or removes a batch none of whose requests is pending |
| `SigningStore.RemovedUnfinishedOnlyAfterLateDone` | apps/api/internal/domain/signing_store.go:168-183 | over every run, whatever is given back: without a completion of a request outside its present batch, no unexpired batch is removed unfinished |
| `SigningStore.ClosedIsComplete` | apps/api/internal/domain/signing_store.go:178-182 | a batch is removed by one of its requests exactly when all are complete |
| `SigningStore.ConsumedExactly` | apps/api/internal/domain/signing_store.go:112-166 | a request is taken out if and only if it is stored, the action agrees with it and is signed, and it has not expired; an expired one is dropped, anything else changes nothing |
| `SigningStore.PutExactly` | apps/api/internal/domain/signing_store.go:75-93 | what storing a request drops, stores and takes out of flight |
| `SigningStore.CompletedExactly` | apps/api/internal/domain/signing_store.go:168-183 | completing counts a request of its position's batch, which goes exactly when the count is full |
| `SigningStore.PreparedExactly` | apps/api/internal/domain/signing_store.go:39-65 | preparing changes nothing while the position has a batch; otherwise the unexpired requests can be consumed and the batch expires with the first of them |
| `SigningStore.CleanedExactly` | apps/api/internal/domain/signing_store.go:209-223 | exactly the unexpired requests outside expired batches and the unexpired batches are kept |
| `SigningStore.ExistingExactly` | apps/api/internal/domain/signing_store.go:185-207 | nothing without a batch, in progress while one of its requests is in flight or none is left to sign, and what is left otherwise |
| `SigningStore.RemainingInOrder` | apps/api/internal/domain/signing_store.go:192-207 | what is left stands in the order of the batch |
| `SigningStore.SweptExactly` | apps/api/internal/domain/signing_store.go:234-244 | a sweep drops exactly what expired longer ago than its age |
| `SigningStore.OvertakenIsReachable` | apps/api/internal/domain/signing_store.go:209-223 | the steps by which a batch expires while one of its requests is being submitted and another is prepared |
| `SigningStore.LateGiveBackAllowsTwo` | apps/api/internal/domain/signing_store.go:75-93 | there, giving back the old request lets two closes be consumed |
| `SigningStore.LateCompleteClosesNewBatch` | apps/api/internal/domain/signing_store.go:168-183 | there, completing the old request removes the new batch, whose request can still be consumed |
| `SigningStore.OvertakenPairIsReachable` | apps/api/internal/domain/signing_store.go:209-223 | the same steps with two new requests |
| `SigningStore.LateCompleteSpoilsNextCount` | apps/api/internal/domain/signing_store.go:168-183 | there, completing the old request removes nothing, but the next completion, of a present request, removes the batch while the other can still be consumed |
| `SigningStore.SigningRequestStore.ReuseOrStoreCloseBatch` | apps/api/internal/domain/signing_store.go:39-65 | answers with the present batch, or stores this one with its earliest expiry |
| `SigningStore.SigningRequestStore.CleanupCloseBatches` | apps/api/internal/domain/signing_store.go:209-223 | drops exactly the expired requests, and expired batches with what is left of them |
| `SigningStore.SigningRequestStore.ExistingLocked` | apps/api/internal/domain/signing_store.go:185-207 | what is left to sign of a batch, or that it is in progress |
| `SigningStore.SigningRequestStore.ValidateAndConsume` | apps/api/internal/domain/signing_store.go:112-166 | accepts exactly an unexpired stored request with an action that agrees and is signed, once; a refusal consumes nothing |
| `SigningStore.SigningRequestStore.SweepExpired` | apps/api/internal/domain/signing_store.go:234-244 | drops what expired longer ago than the age |
| `SigningStore.SigningRequestStore.ExistingCloseBatch` | apps/api/internal/domain/signing_store.go:27-34 | cleans up and tells what is left to sign of the position's batch |
| `SigningStore.SigningRequestStore.CompleteCloseSubmission` | apps/api/internal/domain/signing_store.go:168-183 | counts the request as complete and removes a full batch |
| `SigningStore.SigningRequestStore.PutRequest` | apps/api/internal/domain/signing_store.go:75-93 | drops expired requests, stores this one and takes it out of flight |
| `SignalProjection.PublishedIsCurrent` | apps/api/internal/api/opportunity_signals.go:51-145 | over every run: one worker and one retry at most, equal versions mean signals for the present opportunities, and without a worker everything is published or the last build failed |
| `SignalProjection.RunKeepsInv` | apps/api/internal/api/opportunity_signals.go:180-297 | the invariant behind it, over every interleaving of requests, worker and timer |
| `SignalProjection.DueRequestStartsWorker` | apps/api/internal/api/opportunity_signals.go:80-105 | a failed build is not the end: the first request after the next check time starts a worker |
| `SignalProjection.OneRoundPublishes` | apps/api/internal/api/opportunity_signals.go:180-272 | a worker left alone whose build is answered publishes what is asked for in one round |
| `SignalProjection.StepKeepsLatestExactly` | apps/api/internal/api/opportunity_signals.go:246-272 | a step takes the published signals off the latest source revision if and only if a build that changed the source comes back for opportunities no longer wanted |
| `SignalProjection.StepBringsBackExactly` | apps/api/internal/api/opportunity_signals.go:351-363 | once off, they are back if and only if a build for the wanted opportunities recomputed them, or an unwanted one read the old revision again |
| `SignalProjection.AlwaysLatestExactly` | apps/api/internal/api/opportunity_signals.go:246-272 | over every run the published signals are always of the latest revision if and only if no such build was ever overtaken |
| `SignalProjection.OldRowsPublishedAsCurrent` | apps/api/internal/api/opportunity_signals.go:351-361 | a run from the start that publishes signals of an old source revision at the version asked for |
| `SignalProjection.StatusIsTrue` | apps/api/internal/api/opportunity_signals.go:404-432 | a response says ready exactly for a covered opportunity with nothing failed and signals for the present opportunities; refreshing or loading only while a worker runs |
| `SignalProjection.RequestedExactly` | apps/api/internal/api/opportunity_signals.go:74-145 | what a request asks for, and exactly when it starts a worker |
| `SignalProjection.BegunExactly` | apps/api/internal/api/opportunity_signals.go:180-200 | a worker stops exactly when nothing is wanted, and otherwise takes on what is wanted now |
| `SignalProjection.BuiltExactly` | apps/api/internal/api/opportunity_signals.go:299-363 | signals are computed anew exactly when rows changed, were never read, or opportunities are others than published |
| `SignalProjection.FailedExactly` | apps/api/internal/api/opportunity_signals.go:214-244 | what a failed build leaves, when the worker goes on and when the retry is scheduled |
| `SignalProjection.PublishedExactly` | apps/api/internal/api/opportunity_signals.go:246-272 | a build is published at the wanted version exactly when its opportunities are still wanted; when the worker goes on |
| `SignalProjection.RetriedExactly` | apps/api/internal/api/opportunity_signals.go:274-297 | the retry is used up, asks for a failed check again, and starts a worker exactly when one is needed |
| `SignalProjection.SectionOf` | apps/api/internal/api/opportunity_signals.go:51-297 | a step of a run is one of these sections |
| `SignalProjection.OpportunitySignalProjection.OpportunitiesWithSignals` | apps/api/internal/api/opportunity_signals.go:74-124 | one request is one step of the projection; it starts a worker exactly when there is one more, and says the status of each opportunity of the request |
| `SignalProjection.OpportunitySignalProjection.UpdateOpportunities` | apps/api/internal/api/opportunity_signals.go:126-145 | opportunities accumulate; reports whether their version changed |
| `SignalProjection.OpportunitySignalProjection.BeginRefresh` | apps/api/internal/api/opportunity_signals.go:180-196 | the worker takes on what is asked for, or stops when nothing is |
| `SignalProjection.OpportunitySignalProjection.RefreshFailed` | apps/api/internal/api/opportunity_signals.go:216-244 | a failed build goes on with newer work, or stops and schedules the one retry of its cycle |
| `SignalProjection.OpportunitySignalProjection.RefreshBuilt` | apps/api/internal/api/opportunity_signals.go:246-272 | a build for the present opportunities is published at the desired version, any other is not |
| `SignalProjection.OpportunitySignalProjection.RetryOpportunitySignals` | apps/api/internal/api/opportunity_signals.go:274-297 | the retry starts a worker unless one runs or nothing is wanted |
| `OrderBook.BuyingIsCheapest` | apps/api/internal/liquidity/capacity.go:98-109 | no other way to buy at least the amount from the levels costs less |
| `OrderBook.SellingBringsMost` | apps/api/internal/liquidity/capacity.go:98-109 | no other way to sell at most the amount brings more, but for the price of the slack |
| `OrderBook.BuyingPriceBounds` | apps/api/internal/liquidity/capacity.go:98-109 | an ask average lies between the best price less 1e-12 of it and the worst price |
| `OrderBook.SellingPriceBounds` | apps/api/internal/liquidity/capacity.go:98-109 | a bid average lies between the worst price less 1e-12 of it and the best price |
| `OrderBook.BuyingPriceRises` | apps/api/internal/liquidity/capacity.go:98-109 | a larger buy order has no better average price, but for the price of the slack |
| `OrderBook.SellingPriceFalls` | apps/api/internal/liquidity/capacity.go:98-109 | a larger sell order brings no better average price, but for the price of the slack |
| `OrderBook.ImpactRises` | apps/api/internal/liquidity/capacity.go:40-43 | with no slack the impact of a buy order rises with the amount |
| `OrderBook.SellImpactRises` | apps/api/internal/liquidity/capacity.go:40-43 | with no slack so does that of a sell order |
| `OrderBook.WalkSaves` | apps/api/internal/liquidity/capacity.go:98-109 | against any other parts the walk saves at least the worst price for every unit of difference |
| `OrderBook.FilledIffEnough` | apps/api/internal/liquidity/capacity.go:98-109 | an order is filled if and only if the side holds it up to the slack |
| `OrderBook.ValidSide` | apps/api/internal/liquidity/capacity.go:70-83 | 1 to 50 positive levels in strict order |
| `OrderBook.SideQuantity` | apps/api/internal/liquidity/capacity.go:90-96 | the sum of the quantities |
| `OrderBook.AveragePrice` | apps/api/internal/liquidity/capacity.go:98-109 | the loop computes the cost of the walk over the amount, or no price beyond the levels |
| `OrderBook.WorstPrice` | apps/api/internal/liquidity/capacity.go:46-56 | the loop finds the price of the level where the walk ends |
| `OrderBook.QuoteOrder` | apps/api/internal/liquidity/capacity.go:32-59 | a quote exists exactly for usable books; within the depth its impacts are those of the average prices of both sides, not negative, and at most those of the worst prices, on the short side plus 1e-12 of it |
| `OrderBook.QuotableExactly` | apps/api/internal/liquidity/capacity.go:32-36 | books can be quoted if and only if both are fresh, close in time, well formed and not crossed |
| `PriceLimits.SpreadKeptExactly` | apps/api/internal/scanner/execution_liquidity.go:119-128 | an evaluation leaves slippage less depth alone if and only if it is not negative |
| `PriceLimits.SpreadNeverDrifts` | apps/api/internal/scanner/execution_liquidity.go:119-128 | a leg whose slippage is at least its depth part, as every planned one, keeps the rest of it over any sequence of evaluations |
| `PriceLimits.OnlyLastQuoteCounts` | apps/api/internal/scanner/execution_liquidity.go:119-138 | any number of evaluations amounts to the last one |
| `PriceLimits.FitsIffMarginalApproved` | apps/api/internal/scanner/execution_liquidity.go:158-183 | a quoted leg fits if and only if its marginal price is inside the approved limit up to the noise |
| `PriceLimits.ConstraintTightens` | apps/api/internal/scanner/execution_liquidity.go:168-181 | a constrained limit is the tighter of the evaluated and the approved one |
| `PriceLimits.ConstraintIsIdempotent` | apps/api/internal/scanner/execution_liquidity.go:158-183 | constraining again never fails and changes nothing |
| `PriceLimits.ConstrainedLegValidates` | apps/api/internal/scanner/execution_liquidity.go:194-216 | a leg that passed its constraint validates against the same quote |
| `PriceLimits.QuotedBySide` | apps/api/internal/scanner/execution_liquidity.go:84-122 | which depth evaluates a leg, and that a long leg is quoted at the asks and a short one at the bids |
| `PriceLimits.AcknowledgementNeeded` | apps/api/internal/scanner/execution_liquidity.go:100-114 | impact has to be acknowledged exactly when both legs together go beyond 0.2% |
| `PriceLimits.LimitAllowsSlippage` | apps/api/internal/scanner/execution_liquidity.go:119-131 | the limit is the marginal price with the plan's allowance, above it for a long leg and below it for a short one |
| `PriceLimits.OnlyPositiveLimitsCount` | apps/api/internal/scanner/execution_liquidity.go:158-216 | a limit counts as approved, and a signed one is enforced, exactly when it is positive |
| `PriceLimits.OutsideExactly` | apps/api/internal/scanner/execution_liquidity.go:186-192 | outside a limit means worse by more than the noise |
| `PriceLimits.Plan.Evaluate` | apps/api/internal/scanner/execution_liquidity.go:88-138 | both legs are re-evaluated, or none |
| `PriceLimits.Plan.Constrain` | apps/api/internal/scanner/execution_liquidity.go:158-183 | accepts exactly when both legs fit; a refusal never loosens a limit |
| `PriceLimits.Plan.Validate` | apps/api/internal/scanner/execution_liquidity.go:194-216 | accepts exactly when the impact is acknowledged and both marginal prices are inside the signed limits; the plan is not modified |
| `PriceLimits.Plan.AcknowledgeImpact` | apps/api/internal/domain/execution_plan.go:77-83 | refused exactly when an acknowledgement is required and missing |
| `HistoryPairing.PairHistoryRows` | apps/api/internal/api/history_handlers.go:327-399 | the loop is the two-pointer walk; on histories that do not go back it equals pairing each row with its nearest one when no time is repeated before those |
| `HistoryPairing.ReachedExactly` | apps/api/internal/api/history_handlers.go:341-349 | on histories that do not go back, each row is taken at its nearest distance if and only if no time of the second history is repeated before its nearest row |
| `HistoryPairing.StoppedAtNearestExactly` | apps/api/internal/api/history_handlers.go:341-349 | the same for where one advance of the pointer stops |
| `HistoryPairing.WalkFollowsPointers` | apps/api/internal/api/history_handlers.go:338-399 | whatever the histories, the walk pairs each row with the one its pointer reached |
| `HistoryPairing.WalkIsNearest` | apps/api/internal/api/history_handlers.go:341-349 | with no time repeated before a nearest row the walk pairs every row with its nearest one |
| `HistoryPairing.NearestIsNearest` | apps/api/internal/api/history_handlers.go:341-349 | the reference finds the one nearest row, the earliest of two |
| `HistoryPairing.PairsAreMatches` | apps/api/internal/api/history_handlers.go:351-396 | whatever the histories, the walk pairs exactly the rows whose pointer stopped within tolerance, in order; with no time repeated before a nearest row those are the rows with any match, each with its nearest |
| `HistoryPairing.SameSegmentIffConnected` | apps/api/internal/api/history_handlers.go:374-392 | whatever the histories, two priced points of the walk share a segment if and only if no gap over 15 minutes and no invalid quote lies between them |
| `HistoryPairing.SpreadExactly` | apps/api/internal/api/history_handlers.go:351-372 | the spread relative to the middle of two positive prices, the basis relative to the first |
| `HistoryPairing.UnpricedBreaks` | apps/api/internal/api/history_handlers.go:374-392 | an invalid quote stays in the segment and breaks it for the next price |
| `HistoryPairing.RepeatedTimeSticks` | apps/api/internal/api/history_handlers.go:341-349 | a second history with a repeated time, whose exact match is missed |
| `HistoryPairing.Downsample` | apps/api/internal/api/history_handlers.go:246-256 | no result exactly when more than one point is to be reduced to one, which divides by zero; otherwise first and last are kept and the kept ones are evenly spread |
| `RateLimits.GrantKeepsLimit` | apps/api/internal/liquidity/service.go:162-182 | no minute, whenever it ends, holds more grants than the limit |
| `RateLimits.InMinuteCounts` | apps/api/internal/liquidity/service.go:169-172 | what a minute holds: the requests later than a minute before its end |
| `RateLimits.LimitsPerVenue` | apps/api/internal/liquidity/service.go:173-176 | 30 requests a minute for pacifica, 100 for any other venue |
| `RateLimits.EveryRunIsBounded` | apps/api/internal/telegrambot/rate_limit.go:92-102 | over every run of a bucket, grants from any one to any later one are at most burst plus rate times the time between |
| `RateLimits.WindowBound` | apps/api/internal/telegrambot/rate_limit.go:92-102 | the same for any window of time |
| `RateLimits.GrantKeeps` | apps/api/internal/telegrambot/rate_limit.go:57-61 | taking a token keeps the bound |
| `RateLimits.RefillExactly` | apps/api/internal/telegrambot/rate_limit.go:92-102 | a bucket earns its rate for the time passed, up to its capacity, and nothing when the clock goes back |
| `RateLimits.AskedExactly` | apps/api/internal/telegrambot/rate_limit.go:46-62 | granted exactly with a whole token, which it takes |
| `RateLimits.RingReplaces` | apps/api/internal/telegrambot/rate_limit.go:78-90 | a new chat takes the oldest place and the ring stays free of repeats |
| `RateLimits.Quota.Allow` | apps/api/internal/liquidity/service.go:162-182 | granted if and only if not paused and the last minute holds fewer grants than the limit |
| `RateLimits.Quota.Pause` | apps/api/internal/liquidity/service.go:184-191 | a pause is only ever extended |
| `RateLimits.ActionLimiter.AllowAction` | apps/api/internal/telegrambot/rate_limit.go:46-62 | lets an action through exactly when both buckets have a token, takes one of each exactly then, and touches no other chat but the oldest when the table is full |
| `RateLimits.ActionLimiter.AllowRefresh` | apps/api/internal/telegrambot/rate_limit.go:64-76 | lets a refresh through, and notes it, exactly five seconds after the chat's last one |
| `RateLimits.ActionLimiter.FindChat` | apps/api/internal/telegrambot/rate_limit.go:78-90 | a chat's own limit, or a full one and a place in the ring |

## Left out

- HTTP, JSON, server-sent events, logging, analytics and the user interfaces: input and output only.
- SQL text: tables are maps or sequences and each transaction is one step.
- Float rounding, NaN and infinities: amounts are reals.
- Signature cryptography, hashes and random ids: opaque values.
- `executor/live.go`, `paper/`, risk classifiers, monitor metrics and rollups: older duplicates of the protocol or plain arithmetic.
- Several sessions in one process: the model follows one session; the slot of an account and asset is modelled only in `SessionLease.dfy`.
- `LiveServer.Server.Run`: the two unconditional promises, exposure always on record and failed always flat, are false of the code and are stated with their exact conditions. Fills and verdicts are those of one server at a time; what several servers with copies of the session do to its row is in `Handover.dfy`, without fills.
- `LiveServer.Server.AwaitLeg1Fill`: a fill marked as timed out is exact, as is one that is not; `ShortReportOverhedges` gives what a short one does.
- `LiveSession.OpenHedgeSize`: holds for exact fills, as above.
- `LiveServer.Server.HandleAdvance`: handlers of one session do not interleave, because the account locks exclude it; the delayed recoveries they leave are separate events.
- `LiveServer.Server.AwaitHedge`: the depth and price checks before the hedge are not modelled beyond the built amount being present.
- `LiveServer.Server.ReconcileOrders`: the lookups themselves are calls into venue code; only what they return is modelled.
- `FundingStore.Store.SyncPosition`: the timers that space out syncs are left out, they only delay calls.
- `OrderedLocking.LockEntries`: the library sort is modelled as an insertion sort; the polling loop of `LockContext` is one step per attempt.
- `FeedRegistry.Registry.Acquire`: normalization of venue and account names is left out, keys are taken as normalized.
- `SigningStore.SigningRequestStore.ExistingLocked`: the remaining requests are in batch order; sorting them by leg is left out.
- `SignalProjection.OpportunitySignalProjection.RetryOpportunitySignals`: a retry after shutdown returns at once in the code; shutdown is not modelled.
- `PriceLimits.Plan.Evaluate`: margin, liquidation price, exposure and edge are single-branch arithmetic and are left out.
- `HistoryPairing.PairHistoryRows`: the annualized edge of a pair is left out.
- `RateLimits.Quota.Allow`: one quota per venue name; the map that holds them is left out.
- Weekly rates, candle rollups and the Telegram texts.
