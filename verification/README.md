# TrustFlow backend: verified model

Dafny models of the stateful protocols and the encoders of the backend, with proofs of what holds
over all inputs, all runs and all interleavings. Check everything with

    dafny verify dfyconfig.toml

## Shape

Each protocol is written twice. A state machine over values has one step per store command (a Redis
command, Lua script or MULTI/EXEC batch) or await point; the theorems about runs and interleavings
are about it. A class with the service's own fields and methods, run one call at a time, is proved
to make exactly those steps or to end in the state they lead to. What a call leaves is
also said field by field, with the statuses, delays and weights written out, in its contract or in a
predicate (`Is...`) that names no function of the machine.

| files | models |
|---|---|
| `OutboxStore`, `OutboxRelay`, `OutboxService` | the transactional outbox, its leases and retries, and the relay that feeds the queue it drains |
| `Escrow`, `EscrowRaces` | guarded escrow transitions, their corrections and versions, and what overlapping callers do |
| `Voting`, `Dispute`, `DisputeFrames`, `DisputeSteps`, `DisputeRuns` | the dispute saga over the escrow store, every escrow read and write a step of its own, with faults and crashes |
| `DisputeSettlement`, `DisputeReopening` | when what a completed saga settled stays settled, and how a settled escrow is reopened |
| `DisputePlans`, `DisputeOutcomes`, `DisputeService` | the saga's operations run alone, as paths of those steps, by what they leave, and as an object |
| `GigStore`, `GigRuns`, `GigSearch`, `GigService` | optimistic concurrency over WATCH and EXEC, the deadline index, the search and its cache |
| `EventHandling`, `EventSchedules`, `EventConflicts`, `EventBatches`, `EventIngestion`, `EventService` | chain events: handlers and dedup log, concurrent groups, batches, polling and the ledger cursor |
| `ConcurrentMap` | the bounded concurrent map |
| `Reputation`, `ReputationService` | incremental, decayed scores against the full history |
| `Cid`, `Csv` | the base32 encoder behind content identifiers, and the audit export |
| `Reconciliation`, `ReconciliationService` | sweeps that repair escrow rows from the chain |
| `Migration`, `MigrationService`, `MigrationSlots`, `MigrationTurns` | migration runs, their rollback, and the claiming of a name's active slot |
| `Amount`, `AmountSums` | XLM decimal strings and stroops |
| `Common`, `Sums`, `Division` | shared result types, sums over finite maps, and division |

Ids, clocks, scores, fresh random values, faults and the answers of the chain are inputs of the steps.
Addresses, contract ids and random ids are natural numbers. Decay is any function of elapsed time
that turns sums into products and is 1 at zero; the amount weight is any number. A digest is any
32-byte string.

## Where the code and its documentation part

The models follow the code. Each of these is a lemma with a run or an input, next to the exact
condition under which the promise does hold.

- A worker whose lease has lapsed can put an event back in the queue that another has delivered
  (`OutboxStore.DeliveredCanBeQueuedAgain`); it never does if it finds the id in the processing set
  (`OutboxStore.GuardedRetriesKeepDeliveries`, `OutboxStore.RetryReopensIffUnqueued`).
- Escrow transitions read a row and write it back whole with no comparison in between, so two
  settlements that overlap both go through (`EscrowRaces.OverlappingSettlementsBothCommit`). Funds move
  as the row says exactly if no write replaces a settled row
  (`EscrowRaces.FundsMoveOnceIffNoSettledRowIsReplaced`).
- For the same reason a saga that has completed and paid out can have its settlement replaced by a
  caller that read the escrow before (`DisputeReopening.PaidOutIsOverwritten`). The settlement is final
  exactly if no such write is in flight (`DisputeSettlement.FinalIffNoneDisagrees`).
- A payout that comes second to a direct release is compensated by putting the released escrow back
  to disputed (`DisputeReopening.ReleasedEscrowCanBeReopened`), exactly if the escrow was settled before
  the call and the revert meets no fault (`DisputeService.PayoutTakesBackIffSettled`).
- Lifting a failed escalation's dispute would check the row, then read it again and restore the old
  status over whatever it finds, a release included (`DisputeReopening.ReleasedEscrowIsLifted`,
  `DisputeReopening.LiftReopensIffSettledMeanwhile`). It takes a saga write that throws, and these fall
  back to memory instead, so the lift never happens (`DisputeReopening.NothingIsLifted`).
- WATCH protects a gig only from other connections. The service keeps one client for all callers
  (`backend/src/common/redis/redis.module.ts:36`), and on a shared connection an accepted gig can be
  overwritten as cancelled (`GigRuns.SharedConnectionCommitsStale`); the condition is
  `GigRuns.FreshIffExclusive`.
- Event groups are formed by the second topic, while handlers prefer the escrow id in the event's
  value; where the two differ, the result depends on the schedule
  (`EventSchedules.SharedEscrowDependsOnSchedule`), for any two events exactly as their kinds and what
  they find say (`EventConflicts.DeterministicIffHarmless`). Two disputes of one escrow are both recorded
  as successes in turn, and one as a failure when they overlap
  (`EventConflicts.OverlappingDisputesDiffer`).
- A reorganisation at or below the cursor is logged as a reprocessing, but the monotone guard ignores
  the rewind (`EventIngestion.ReorgIsNotReprocessed`), and one above it skips ledgers nobody has fetched
  (`EventIngestion.ForwardReorgLosesUnfetched`); `EventIngestion.HandledAfterReorg` says exactly what is
  handled.
- A contribution's time is taken before it queues, so a record's clock can go back
  (`Reputation.OverlapOverDecays`); the score of an address that has only earned is too low exactly if
  it does after a contribution of any weight (`Reputation.ScoreIsFullIffOrdered`).
- Claiming a migration's slot and writing its record are two commands, as are completing a run and
  clearing its slot, and reading a marker and the record behind it; calls that fall in between take
  the slot over and two runs of one migration work at once (`MigrationSlots.ClaimWindowAdmitsTwo`,
  `MigrationSlots.CompletionWindowAdmitsTwo`, `MigrationSlots.LateRefusalAdmitsTwo`), and a manual
  rollback clears a slot that another run holds (`MigrationSlots.ManualRollbackAdmitsTwo`). Beginning a
  run is safe exactly if no earlier one of its name may yet touch the slot, and beginning a rollback
  exactly if no earlier run may (`MigrationTurns.SafeIffInTurn`, `MigrationTurns.BeginIsSafeIffInTurn`).
- The audit export's checksum is never delivered when no database is configured (`Csv.ExportLogs`).
- An extra contract id named twice is backfilled into two rows
  (`Reconciliation.RepeatedExtraIsBackfilledTwice`), exactly if both of its reads find a record
  (`Reconciliation.OneRowEachIffNoneFoundTwice`), and a row that was never rewritten has no version
  to protect it from a stale repair (`Reconciliation.StaleRepairIsRefused`).

## Model

| member | source | states |
|---|---|---|
| OutboxStore.NoEventIsLost | backend/src/outbox/outbox.service.ts:101-277 | over every interleaving of appends, claims, reclaims, deliveries and retries by any workers, with live or lapsed leases, each event ever appended still has a body, queued in exactly one of the two sorted sets while it is pending or retrying, or was removed after delivery |
| OutboxStore.StepKeepsInv | backend/src/outbox/outbox.service.ts:134-277 | every single command keeps the queues disjoint, every unresolved event queued and every queued event stored |
| OutboxStore.DeliveredIsUndoneOnlyByLapsedRetry | backend/src/outbox/outbox.service.ts:203-277 | a delivered event leaves that state exactly when its body expires or a worker that no longer holds it reports a failure |
| OutboxStore.DeliveredCanBeQueuedAgain | backend/src/outbox/outbox.service.ts:233-277 | that second way is reachable: a late failure report queues an event that another worker has delivered |
| OutboxStore.GuardedRetriesKeepDeliveries | backend/src/outbox/outbox.service.ts:203-277 | over every run in which retries of an id find it in the processing set, a delivery of it lasts until its body expires |
| OutboxStore.RetryReopensIffUnqueued | backend/src/outbox/outbox.service.ts:233-277 | after any run, a late retry of a stored event hits a resolved one if it is in neither sorted set, reopens it exactly if attempts remain by the worker's copy, and never hits a delivered one that is in either |
| OutboxStore.ClaimKeepsSafe | backend/src/outbox/outbox.service.ts:29-41 | the claim script moves stored, due events only, and changes nobody's being queued |
| OutboxStore.ReclaimKeepsSafe | backend/src/outbox/outbox.service.ts:43-55 | the reclaim script moves lapsed members back and changes nobody's being queued |
| OutboxStore.Backoff | backend/src/outbox/outbox.service.ts:233-245 | the delay is 1, 2, 4, 8 and 16 seconds after the first five failed attempts and 30 seconds from the sixth on |
| OutboxStore.BackoffGrows | backend/src/outbox/outbox.service.ts:233-245 | the delay never shrinks with the attempts and doubles until it is capped |
| OutboxStore.AfterFailure | backend/src/outbox/outbox.service.ts:233-262 | a failed attempt counts once and is final exactly at the attempt limit; otherwise the event is due again after exactly the delay its attempts call for, counted from the failure, and nothing else of it changes |
| OutboxStore.RetryReschedules | backend/src/outbox/outbox.service.ts:233-277 | what a retry leaves: body, score and sets of its own event in full, and every other event as it was |
| OutboxStore.ExpiryRemoves | backend/src/outbox/outbox.service.ts:203-226 | the expiry of a delivered event removes its body and touches no other event |
| OutboxStore.RetriesWaitOutTheirDelay | backend/src/outbox/outbox.service.ts:233-277 | over every run: after a failure with attempts left the event waits in the pending set at the failure's time plus 1, 2, 4, 8, 16 or 30 seconds by its attempts, and no claim before that time takes it, whatever the other workers do |
| OutboxStore.ClaimsLastTheirLease | backend/src/outbox/outbox.service.ts:134-197 | over every run: a claimed event stays in the processing set until its lease lapses, unless it is reported on; no reclaim before that takes it |
| OutboxRelay.FanOutIsOneDeep | backend/src/outbox/outbox-relay.service.ts:44-64 | handling an event stores a new one exactly for a published domain event, with its payload and dedup key; handling that one, however it goes, stores nothing new |
| OutboxRelay.HandlingResolves | backend/src/outbox/outbox-relay.service.ts:43-64 | handling an event leaves it delivered exactly if publishing and dispatching worked, else with one more attempt and due after that attempt's delay, or failed at the limit; the spawned webhook event is due at once, and no other event changes |
| OutboxRelay.ResolveLowersWork | backend/src/outbox/outbox-relay.service.ts:43-64 | resolving a claimed event lowers the weighted work left, whatever its outcome and although it may spawn a webhook event |
| OutboxRelay.StepKeepsWork | backend/src/outbox/outbox-relay.service.ts:41-42 | claiming and reclaiming leave the work as it is |
| OutboxRelay.RelayTerminates | backend/src/outbox/outbox-relay.service.ts:37-67 | a run in which claims are resolved before their leases lapse holds at most as many resolutions as the work its first state left, and no event exceeds its attempt limit |
| OutboxRelay.NoWorkMeansDrained | backend/src/outbox/outbox-relay.service.ts:37-67 | no work is left exactly when both sorted sets are empty |
| OutboxRelay.RelayIsNeverStuck | backend/src/outbox/outbox-relay.service.ts:37-67 | while anything is queued, a claim or a resolution is possible |
| OutboxService.OutboxService.ClaimDue | backend/src/outbox/outbox.service.ts:134-166 | the returned events are stored, marked as processing, due, lowest scores first and at most a batch |
| OutboxService.OutboxService.ReclaimExpired | backend/src/outbox/outbox.service.ts:172-197 | exactly the chosen lapsed members go back to the pending set, due at once |
| OutboxService.OutboxService.Append | backend/src/outbox/outbox.service.ts:101-113 | the event is stored and queued, and every other event is as before |
| OutboxService.OutboxService.MarkDelivered | backend/src/outbox/outbox.service.ts:203-226 | the event leaves both sets and its body expires only if a time to live is configured |
| OutboxService.OutboxService.Retry | backend/src/outbox/outbox.service.ts:233-277 | the event leaves the processing set; with attempts left it is pending, due the delay of its attempt after the failure (1 s, doubling to 16 s, then 30 s), at the limit its body is failed and it is not queued again; no other event changes |
| OutboxService.OutboxService.SendWebhook | backend/src/outbox/outbox.service.ts:286-297 | one fresh webhook event is queued, or none when its append fails |
| OutboxService.OutboxRelayService.RunOnce | backend/src/outbox/outbox-relay.service.ts:37-67 | a sweep keeps the outbox safe and lowers the work left by at least the number of events it returns |
| OutboxService.OutboxRelayService.HandleEvent | backend/src/outbox/outbox-relay.service.ts:44-64 | publish, fan out, dispatch and resolve: the event is delivered or due again after its delay as the outcome says, the webhook event it spawns is due at once, no other event changes, and the work left is lower |
| Escrow.FundsMoveAtMostOnce | backend/src/escrow/escrow.service.ts:372-462 | however guarded transitions are ordered, an escrow is paid out at most once, exactly when it is settled; parties and amount never change and versions count the applied transitions |
| Escrow.DisputedWasFunded | backend/src/escrow/escrow.service.ts:372-462 | only a funded escrow can be active or disputed |
| Escrow.ConcurrentPatchIsRefusedIffVersioned | backend/src/escrow/escrow.service.ts:292-315 | a chain patch computed before another write is refused exactly if the row it read had a version |
| EscrowRaces.FundsMoveOnceIffNoSettledRowIsReplaced | backend/src/escrow/escrow.service.ts:372-428 | with reads and writes interleaved, funds move once if the escrow ends settled and never otherwise, exactly if no write replaced a settled row |
| EscrowRaces.SettlementsAreCounted | backend/src/escrow/escrow.service.ts:372-428 | every settlement written either still stands or was replaced by a later write |
| EscrowRaces.TurnsMoveFundsOnce | backend/src/escrow/escrow.service.ts:372-428 | so it is when no two callers have read without having written |
| EscrowRaces.FreshWritesMoveFundsOnce | backend/src/escrow/escrow.service.ts:372-428 | and whenever every write replaces the row it was computed from |
| EscrowRaces.OverlappingSettlementsBothCommit | backend/src/escrow/escrow.service.ts:383-428 | nothing enforces that: on any open escrow, any two settlements that both read before either writes both go through, and the version shows only one |
| Escrow.EscrowService.Fund | backend/src/escrow/escrow.service.ts:372-381 | succeeds exactly on a pending escrow, which becomes active with its version counted up and nothing else changed; each refusal has its error and changes nothing |
| Escrow.EscrowService.Release | backend/src/escrow/escrow.service.ts:383-407 | succeeds exactly on an unsettled escrow, which becomes released with nothing else but its version changed |
| Escrow.EscrowService.Cancel | backend/src/escrow/escrow.service.ts:409-417 | succeeds exactly on an unsettled escrow, which becomes cancelled with nothing else but its version changed |
| Escrow.EscrowService.Split | backend/src/escrow/escrow.service.ts:419-428 | succeeds exactly on an unsettled escrow, which becomes released with that percentage recorded |
| Escrow.EscrowService.RaiseDispute | backend/src/escrow/escrow.service.ts:430-462 | succeeds exactly on an active escrow and stamps the dispute; a second dispute conflicts |
| Escrow.EscrowService.CorrectStatus | backend/src/escrow/escrow.service.ts:323-335 | overwrites the status past the guards, keeping the review flag once set |
| Escrow.EscrowService.ApplyChainState | backend/src/escrow/escrow.service.ts:292-315 | patches status and amount, or refuses when the named version is not the stored one |
| Escrow.EscrowService.CreateFromChainState | backend/src/escrow/escrow.service.ts:338-370 | stores a row under a fresh id, linked to its contract id and without a version |
| Voting.ComputeVerdict | backend/src/dispute/dispute-saga.service.ts:677-688 | the tally loop computes the verdict of the counts |
| Voting.VerdictIgnoresOrder | backend/src/dispute/dispute-saga.service.ts:677-688 | the verdict depends on the choices cast and not on their order or on who cast them |
| Voting.WinnerHasStrictPlurality | backend/src/dispute/dispute-saga.service.ts:677-688 | a party wins exactly on a strict plurality, and on an odd panel a split means that at least one juror chose it |
| Voting.EveryVoteIsCounted | backend/src/dispute/dispute-saga.service.ts:677-688 | the three tallies add up to the votes |
| Voting.FullPanelHasVoted | backend/src/dispute/dispute-saga.service.ts:630-660 | when as many valid votes are in as there are jurors, every juror has voted |
| DisputeRuns.SagaSafety | backend/src/dispute/dispute-saga.service.ts:198-864 | over every interleaving of the reads and writes of escalations, panels, votes, payouts, compensations and other callers' escrow operations, with faults and crashes anywhere: at most one active saga per escrow and the index names it, and verdicts from payout on are those of a full panel |
| DisputeRuns.RunsKeepInv | backend/src/dispute/dispute-saga.service.ts:198-864 | the protocol invariant and the voting invariant (panel distinct, odd, at least three, no party; votes by distinct jurors, fewer than the panel while voting) hold after every run |
| DisputeSteps.StepKeepsInv | backend/src/dispute/dispute-saga.service.ts:198-864 | each read and each write of each operation keeps both invariants, however old the row a write was computed from |
| DisputeSteps.StepKeepsProtocol | backend/src/dispute/dispute-saga.service.ts:198-286 | every step keeps one active saga per escrow, what each lock protects, and the identity and parties of every row ever read |
| DisputeSteps.StepKeepsVoting | backend/src/dispute/dispute-saga.service.ts:514-674 | every step keeps jurors, votes and verdict consistent with the saga's step |
| DisputeSteps.VotesFitPanel | backend/src/dispute/dispute-saga.service.ts:630-660 | valid votes never outnumber their panel |
| DisputeSteps.FreezeWriteKeepsProtocol | backend/src/dispute/dispute-saga.service.ts:262-265 | freezing an escrow, over whatever has become of the row it read, keeps the protocol |
| DisputeSteps.UndoWriteKeepsProtocol | backend/src/dispute/dispute-saga.service.ts:428-446 | so does lifting a failed escalation's own dispute |
| DisputeSteps.RevertWriteKeepsProtocol | backend/src/dispute/dispute-saga.service.ts:834-864 | so does putting a refused payout's escrow back to disputed |
| DisputeSteps.PartiesAreKept | backend/src/escrow/escrow.service.ts:372-488 | escrow writes never change an escrow's parties or any saga |
| DisputeRuns.EndedSagasStay | backend/src/dispute/dispute-saga.service.ts:868-880 | over every run, no step, vote, verdict, panel or payment of a failed or completed saga changes |
| DisputeSettlement.CompletedArePaid | backend/src/dispute/dispute-saga.service.ts:725-813 | over every run in which no caller's late write replaces the escrow's settlement by another status, a completed saga's escrow is settled as its votes decided |
| DisputeSettlement.StepKeepsSettled | backend/src/dispute/dispute-saga.service.ts:725-864 | no other step of any kind takes a settlement back, from the payout's write on |
| DisputeSettlement.SettlementChangesOnlyByClobbering | backend/src/escrow/escrow.service.ts:372-488 | a step changes the status under a completed saga exactly if it is such a late write, and its row was read before the settlement |
| DisputeSettlement.FinalIffNoneDisagrees | backend/src/dispute/dispute-saga.service.ts:725-813 | a completed saga's settlement is final over every continuation exactly if no caller that read the escrow before is still to write another status |
| DisputeReopening.PaidOutIsOverwritten | backend/src/dispute/dispute-saga.service.ts:725-813 | whenever a payout waits on an open escrow, a caller's operation can straddle it: the saga completes and pays, and the escrow ends with the caller's status, so that a completed saga is not paid out |
| DisputeReopening.SettledIsReopenedOnlyByCompensation | backend/src/dispute/dispute-saga.service.ts:428-864 | a settled escrow changes status only by a write computed from a row that is no longer there, or by one of the two compensations; a write whose row is still there changes it exactly if it is a compensation |
| DisputeReopening.ReleasedEscrowCanBeReopened | backend/src/dispute/dispute-saga.service.ts:725-864 | without any fault or lost write, a direct release ahead of a waiting payout ends with the released escrow disputed again and open to a second dispute |
| DisputeReopening.NothingIsLifted | backend/src/dispute/dispute-saga.service.ts:428-446 | unless the saga write at the end of an escalation throws, which the service's writes never do, no escalation ever lifts a dispute, over any run |
| DisputeReopening.ReleasedEscrowIsLifted | backend/src/dispute/dispute-saga.service.ts:254-446 | if that write did throw: the run of an escalation from its lock on in which a release between the check and the lifting of its dispute is undone |
| DisputeReopening.LiftReopensIffSettledMeanwhile | backend/src/dispute/dispute-saga.service.ts:428-446 | whatever runs between that check and the lifting write, the write reopens a settled escrow exactly if the escrow, disputed at the check, is settled by then |
| DisputePlans.EscalationPlan | backend/src/dispute/dispute-saga.service.ts:198-286 | an escalation run alone takes these steps of the interleaved protocol, from its lock to its end, and they lead to the stores computed from its guards and faults |
| DisputePlans.PayoutPlan | backend/src/dispute/dispute-saga.service.ts:725-864 | so does a payout, paid or refused and reverted |
| DisputeService.PayoutTakesBackIffSettled | backend/src/dispute/dispute-saga.service.ts:725-864 | a payout from an unpaid payout step fails exactly if the escrow was settled before the call or a fault hit it, and takes that settlement back exactly if the revert meets no fault |
| DisputeOutcomes.UniqueIsInOrder | backend/src/dispute/dispute-saga.service.ts:514-567 | a panel lists its addresses in the order in which they first occur |
| DisputeOutcomes.PayoutSettlesByVerdict | backend/src/dispute/dispute-saga.service.ts:816-864 | the stores of a payout run alone hold the settlement of its verdict, by status and split percentage, or the reverted row, and nothing else changes |
| DisputeOutcomes.VotesSettleTheEscrow | backend/src/dispute/dispute-saga.service.ts:677-832 | from the votes to the money: with a strict plurality for the beneficiary the escrow ends released whole, with one for the depositor cancelled, and with neither released with the percentage asked for |
| DisputeService.TransitionKeepsSound | backend/src/escrow/escrow.service.ts:372-462 | a guarded transition that nothing overlaps keeps every completed saga paid |
| DisputeService.DisputeSagaService.Escalate | backend/src/dispute/dispute-saga.service.ts:198-286 | opens one saga and freezes an active escrow, or adopts a disputed one as it is; a fault fails the saga and lifts again only a dispute it raised; each refusal has its own error (conflict, not found, bad request, forbidden, in this order) and changes nothing |
| DisputeService.DisputeSagaService.CompensateEscalation | backend/src/dispute/dispute-saga.service.ts:392-456 | lifts only a dispute this saga raised and nobody has touched since, and fails the saga |
| DisputeService.DisputeSagaService.AssignJurors | backend/src/dispute/dispute-saga.service.ts:514-567 | accepts exactly panels whose distinct members are odd in number, at least three and no parties; refusals change nothing |
| DisputeService.DisputeSagaService.CastVote | backend/src/dispute/dispute-saga.service.ts:603-674 | accepts exactly a first vote of a juror by that juror and adds it, each refusal with its own error; the last vote also sets the verdict of the plurality and moves on to the payout |
| DisputeService.DisputeSagaService.ExecutePayout | backend/src/dispute/dispute-saga.service.ts:725-813 | on an open escrow and without a fault, a beneficiary's win releases the whole, a depositor's win cancels, both leaving the split percentage as it was, and a split releases with that percentage; otherwise the escrow goes back to disputed, flagged for review, unless that meets a fault too, and the saga fails; nothing else changes |
| DisputeService.DisputeSagaService.Settle | backend/src/dispute/dispute-saga.service.ts:816-864 | the same for the saga at hand: each verdict's own settlement, or the revert for a manual review |
| DisputeService.DisputeSagaService.AtStep | backend/src/dispute/dispute-saga.service.ts:868-880 | succeeds exactly when the saga exists and is at the expected step, and tells missing from misplaced |
| DisputeService.DisputeSagaService.CreateSaga | backend/src/dispute/dispute-saga.service.ts:924-942 | stores the record and points the escrow's index at it |
| GigRuns.WritesAreSerialised | backend/src/gig/gig.service.ts:245-344 | with a connection per caller, every committed write was computed from the version it replaced, versions count commits, and at most one accept, cancel or expiry of a gig commits |
| GigRuns.StatusIsTheResolution | backend/src/gig/gig.service.ts:302-398 | with a connection per caller, over every run: a stored gig is accepted exactly if an accept was committed on it, cancelled exactly if a cancel was, and expired exactly if an expiry was |
| GigRuns.FreshIffExclusive | backend/src/gig/gig.service.ts:245-299 | writes are always computed from what they replace exactly when no two callers share a connection |
| GigRuns.SharedConnectionCommitsStale | backend/src/gig/gig.service.ts:245-299 | two callers on one connection: the first EXEC ends the second's watch and an accepted gig is overwritten as cancelled |
| GigRuns.StepKeepsSerial | backend/src/gig/gig.service.ts:245-299 | each WATCH, read and EXEC keeps serialisation |
| GigStore.StepKeepsGuarded | backend/src/gig/gig.service.ts:245-299 | a watch that survives still covers exactly what was read under it |
| GigRuns.SweepEqualsScan | backend/src/gig/gig.service.ts:192-206 | in every reachable state the index holds exactly the open gigs by their current deadline, so the indexed sweep equals a full scan exactly when no open gig is due before the epoch |
| GigRuns.SweepFindsNonNegative | backend/src/gig/gig.service.ts:192-206 | the sweep finds exactly the due open gigs with a deadline from the epoch on |
| GigRuns.WriteKeepsIndex | backend/src/gig/gig.service.ts:391-443 | every mutation's batch keeps the index exact |
| GigRuns.AddKeepsIndex | backend/src/gig/gig.service.ts:81-121 | creating a gig keeps the index exact |
| GigSearch.Clamped | backend/src/common/pagination.ts:1-44 | values in range are kept, a page below one is the first, limits go to the nearest of 1 and 100, and absent values are page 1, limit 20 and open gigs |
| GigSearch.MatchingIsExact | backend/src/gig/gig.service.ts:213-243 | the matches are exactly the gigs of that status and budget, each as often as stored, newest first |
| GigSearch.TiesKeepTheirOrder | backend/src/gig/gig.service.ts:213-243 | matches created at the same time stay in the order in which they are listed |
| GigSearch.PagesTileMatches | backend/src/gig/gig.service.ts:213-243 | pages read one after another list every match once and in order |
| GigSearch.PageHolds | backend/src/gig/gig.service.ts:213-243 | a page holds the matches from its offset on, up to its limit and as many as there are, and tells the number of all of them |
| GigService.HonestIsExactIffUnconfused | backend/src/gig/gig.service.ts:478-531 | a cached page always equals the uncached one exactly when the budget hash confuses the bounds with none that give another page |
| GigService.GigService.Search | backend/src/gig/gig.service.ts:213-243 | a search over any history of searches and mutations returns a page some query under the same key gives now; the uncached page if the hash separates bounds |
| GigService.GigService.Create | backend/src/gig/gig.service.ts:81-121 | stores an open gig under a fresh id, indexes it, empties the cache, and puts it into the listing so that this names every gig once, oldest first |
| GigService.GigService.MutateWithRetry | backend/src/gig/gig.service.ts:245-299 | unless three attempts abort, an open gig accepted is stored and returned as accepted, cancelled as cancelled, expired as expired, and updated as open with exactly the named fields replaced, each with its version one up and its id, creator and creation time kept; removal takes any gig but an accepted one; refusals and aborts leave store, listing and cache alone |
| GigService.GigService.Persist | backend/src/gig/gig.service.ts:346-443 | the batch of each operation: the gig's new status and fields, the deadline index, the listing and the emptied cache, and no other gig |
| GigService.GigService.InvalidateSearchCache | backend/src/gig/gig.service.ts:522-531 | no cached page survives a mutation |
| EventSchedules.EveryScheduleIsSequential | backend/src/event-ingestion/event-ingestion.service.ts:206-224 | if groups share neither rows nor ids, every schedule of their log checks, reads, row and saga writes, waits for an escalation's lock and log writes that finishes leaves the rows and the log of running the groups one after another |
| EventSchedules.StepKeepsInv | backend/src/event-ingestion/event-ingestion.service.ts:206-224 | each such step keeps every group looking, to its own events, as if it ran alone |
| EventSchedules.FairSchedulesFinish | backend/src/event-ingestion/event-ingestion.service.ts:206-224 | with separate groups, any schedule that gives each runner six steps an event finishes the batch |
| EventSchedules.RoundsFinish | backend/src/event-ingestion/event-ingestion.service.ts:206-224 | with groups that share escrows and wait for each other's escalations, any schedule of more rounds than there are steps finishes it |
| EventSchedules.EscalationsExclude | backend/src/dispute/dispute-saga.service.ts:198-212 | over any schedule, also of groups that share escrows, no two runners are within escalations of the same escrow |
| EventConflicts.DeterministicIffHarmless | backend/src/event-ingestion/event-processor.service.ts:72-193 | for any two new events of different groups that work on one row, all finishing schedules end alike exactly if their kinds do not clash on the status and saga found there; otherwise two of them end with different rows or records |
| EventConflicts.HarmlessWritersAreAlike | backend/src/event-ingestion/event-processor.service.ts:111-184 | two that would both change the row clash, unless both create the very same row, drawing the same random id |
| EventConflicts.OverlappingDisputesDiffer | backend/src/dispute/dispute-saga.service.ts:198-212 | two disputes routed through the saga: in turn the second finds the saga and succeeds, overlapping it meets the saga under the lock and fails |
| EventSchedules.SharedEscrowDependsOnSchedule | backend/src/event-ingestion/event-processor.service.ts:186-193 | handlers prefer the id in the event's value to the grouping topic, and such a pair exists: a funding and a release under different topics |
| EventBatches.BatchIsSequential | backend/src/event-ingestion/event-ingestion.service.ts:177-227 | a batch in any page order, under any finishing schedule, ends in the state of id-less events first, then each group in (ledger, id) order |
| EventBatches.PlanKeepsEvents | backend/src/event-ingestion/event-ingestion.service.ts:179-201 | sorting and bucketing keep each event exactly as often as it came |
| EventBatches.PlanIsInTurn | backend/src/event-ingestion/event-ingestion.service.ts:178-201 | in the plan the events without a key come first, and events of one key never go back in ledger and id |
| EventBatches.PlanIgnoresPageOrder | backend/src/event-ingestion/event-ingestion.service.ts:178-182 | the plan does not depend on the order in which the RPC returned the events |
| EventBatches.GroupsAreSorted | backend/src/event-ingestion/event-ingestion.service.ts:178-201 | each group is handled in (ledger, id) order |
| EventBatches.SecondBatchIsNoOp | backend/src/event-ingestion/event-processor.service.ts:72-80 | handling any events of a batch again changes no row and no record |
| EventBatches.BatchRecords | backend/src/event-ingestion/event-processor.service.ts:72-109 | a finished batch adds exactly its own ids to the log, under any keys and schedule |
| EventHandling.HandlerOutcome | backend/src/event-ingestion/event-processor.service.ts:111-184 | what each handler leaves and answers when nothing interrupts it, by field: a creation that finds no row stores the event's depositor, beneficiary and amount as a pending escrow under the drawn id, linked to the contract id; funding, release and dispute rewrite status and version, or fail and change nothing |
| EventHandling.OpenedDisputeOutcome | backend/src/dispute/dispute-saga.service.ts:198-286 | a routed dispute that has opened its saga freezes the escrow exactly if that is active by then, whatever row it meets; else it closes its saga and fails |
| EventHandling.LateCreationReplaces | backend/src/event-ingestion/event-processor.service.ts:130-151 | a creation whose write comes after another one replaces that row by its own, and has a saga only if both drew the same id |
| EventHandling.RowIsFirstCreations | backend/src/event-ingestion/event-processor.service.ts:72-151 | over any sequence of events: a contract id without a row gets one exactly if a creation event for it is handled, and its parties, amount and ids stay those of the first such event |
| EventHandling.RunIsLocal | backend/src/event-ingestion/event-processor.service.ts:111-193 | what a sequence of events does to its own rows and records depends on those alone |
| EventHandling.RunLeavesOthers | backend/src/event-ingestion/event-processor.service.ts:111-193 | events leave rows and records that are not theirs as they are |
| EventHandling.RunRecords | backend/src/event-ingestion/event-processor.service.ts:72-109 | every handled event is recorded, and no earlier record changes |
| EventHandling.ReplayIsNoOp | backend/src/event-ingestion/event-processor.service.ts:72-80 | handling recorded events again changes nothing |
| EventHandling.RetryKeepsSuccesses | backend/src/event-ingestion/event-processor.service.ts:255-276 | retrying failures loses no record, turns no success into a failure, and changes no row but those of failed events |
| EventHandling.SuccessIsNotRetried | backend/src/event-ingestion/event-processor.service.ts:203-205 | a retry forgets a failed record and handles its event once more; an event that has succeeded is not handled again |
| EventIngestion.HandledUpToCursor | backend/src/event-ingestion/event-ingestion.service.ts:73-137 | after any polls on any ledger bounds, failing or not, an event of the chain has been handled exactly when its ledger lies between the first window's start and the cursor and was not jumped over by a fast-forward |
| EventIngestion.FetchingAdvances | backend/src/event-ingestion/ledger-cursor.service.ts:72-110 | every poll that fetches moves the cursor strictly forward, to a ledger of its window |
| EventIngestion.FetchesIffDue | backend/src/event-ingestion/event-ingestion.service.ts:83-109 | a poll fetches exactly if nothing throws and some closed ledger is due |
| EventIngestion.FetchedUpToReached | backend/src/event-ingestion/event-ingestion.service.ts:108-130 | the window's events are exactly the chain's from its start to the ledger the cursor moves to |
| EventIngestion.HandledFromCursor | backend/src/event-ingestion/event-ingestion.service.ts:73-137 | from any cursor, polls handle exactly the ledgers between it and where they come to, less those jumped over, and lose no record |
| EventIngestion.HandledAfterReorg | backend/src/event-ingestion/event-ingestion.service.ts:354-367 | after a reorganisation and any polls, an event is in the log exactly if it was recorded in an earlier ledger, or was fetched past the later of the old cursor and the ledger before the one announced |
| EventIngestion.ForwardReorgLosesUnfetched | backend/src/event-ingestion/event-ingestion.service.ts:354-367 | announced above the cursor, a reorganisation moves it forward, and the unfetched ledgers in between are never handled |
| EventIngestion.ReorgIsNotReprocessed | backend/src/event-ingestion/event-ingestion.service.ts:354-367 | after a reorganisation at or below the cursor the guard drops the rewind, and no later poll handles the cleared events again |
| EventService.EventIngestionService.FetchEvents | backend/src/event-ingestion/event-ingestion.service.ts:229-283 | the paging loop returns exactly the contract's events in the window, in order, and ends |
| EventService.EventIngestionService.ProcessEventBatch | backend/src/event-ingestion/event-ingestion.service.ts:177-227 | whatever order the groups' steps take, the state is that of the finished schedule, and of the sequential plan when keys identify escrows |
| EventService.EventIngestionService.Bucket | backend/src/event-ingestion/event-ingestion.service.ts:184-201 | the loop's buckets are the id-less events and one group per key in order of first appearance |
| EventService.EventIngestionService.RunGroups | backend/src/event-ingestion/event-ingestion.service.ts:208-224 | any choice of the next runner ends with all groups finished |
| EventService.EventIngestionService.ProcessEvent | backend/src/event-ingestion/event-processor.service.ts:72-109 | an unrecorded creation event that meets no row leaves one with its depositor, beneficiary and amount, pending, linked to its contract id, under the drawn id and without a version or a saga; any unrecorded event changes its row as its handler's fields say and is recorded with its outcome, a recorded one changes nothing |
| EventService.EventIngestionService.UpdateCursor | backend/src/event-ingestion/ledger-cursor.service.ts:72-110 | the cursor becomes the larger of the stored and the given ledger |
| EventService.EventIngestionService.ChooseWindow | backend/src/event-ingestion/event-ingestion.service.ts:83-109 | the window starts at the first ledger that is due (after the checkpoint, else from the configured ledger or a thousand back, and still kept), holds only due, closed ledgers, at most a hundred, and fewer only up to the latest |
| EventService.EventIngestionService.IngestEvents | backend/src/event-ingestion/event-ingestion.service.ts:73-137 | one poll: nothing while another is in flight, the fetch throws or no closed ledger is due, else the batch is handled and the cursor moves to a due, closed ledger |
| ConcurrentMap.EveryRunIsBounded | backend/src/common/concurrency/map-with-concurrency.ts:14-39 | for every interleaving at most as many calls are in flight as runners were started, which are at most the limit asked for and the items, no item is called twice, and the map returns after exactly two steps an item and one a runner |
| ConcurrentMap.ReturnsEveryOutcome | backend/src/common/concurrency/map-with-concurrency.ts:14-39 | once every runner has returned, each item was called exactly once and its slot holds its own outcome, rejected or not |
| ConcurrentMap.StepKeepsInv | backend/src/common/concurrency/map-with-concurrency.ts:23-34 | a runner that has not returned can step; items before the cursor are each held by one runner or settled |
| ConcurrentMap.EachStepCounts | backend/src/common/concurrency/map-with-concurrency.ts:23-34 | every step is one of the steps left |
| ConcurrentMap.MapWithConcurrency | backend/src/common/concurrency/map-with-concurrency.ts:14-39 | whichever runner goes next, the shared array ends with every item's own outcome |
| ConcurrentMap.CountRejected | backend/src/common/concurrency/map-with-concurrency.ts:41-44 | the fold counts the rejected results |
| Reputation.ScoreIsFullHistory | backend/src/reputation/reputation.service.ts:171-225 | with nondecreasing times the incremental score read at any time is the sum over the address's whole history of weight, amount weight, 1/k for the k-th event with that counterparty, and decay by its age |
| Reputation.ScoreIsAgedHistory | backend/src/reputation/reputation.service.ts:171-225 | without any assumption on the clock it is that sum with each entry aged by what its record's clock advanced since |
| Reputation.ScoreIsFullIffOrdered | backend/src/reputation/reputation.service.ts:171-225 | for an address that has only earned, the incremental score is never above the full history's, and equals it exactly if its contributions reached the queue in the order of their times from the first one of any weight on |
| Reputation.AgesAreExactIffOrdered | backend/src/reputation/reputation.service.ts:205-225 | entries are aged by exactly their age if and only if times never go back |
| Reputation.OverlapOverDecays | backend/src/reputation/reputation.service.ts:69-91 | that does happen: two overlapping calls can reach a common party in the opposite order of their times, and its score is then below its history's |
| Reputation.CountsAreHistory | backend/src/reputation/reputation.service.ts:182-189 | the event count is the number of the address's events and the sum of its counts per counterparty |
| Reputation.CountsAreSymmetric | backend/src/reputation/reputation.service.ts:69-119 | however the halves of any calls are queued, two parties have counted each other equally often, and nobody themselves |
| Reputation.SharesMakeTheWhole | backend/src/reputation/reputation.service.ts:180-184 | the dampened weight after k events with a counterparty, taken k + 1 times, is the weight |
| Reputation.CompletionMovesScores | backend/src/reputation/reputation.service.ts:69-91 | a completed escrow adds 5 times the amount weight to both, dampened the same |
| Reputation.DisputeMovesScores | backend/src/reputation/reputation.service.ts:93-202 | for any history, a resolved dispute adds 2 times the amount weight to a winner's score as read at the call, takes 10 times from a loser's and 2 times from each party's of a split, over one more than the earlier events with that counterparty; in full for an address without history, and nobody else's record changes |
| Reputation.RecentIsNewest | backend/src/reputation/reputation.service.ts:190-193 | the audit trail holds the newest twenty events, newest first, each with what it added |
| Reputation.RecordIsFolded | backend/src/reputation/reputation.service.ts:162-202 | a record depends on its own address's contributions alone |
| ReputationService.ReputationService.ApplyContribution | backend/src/reputation/reputation.service.ts:171-202 | appends one contribution to the history the record stands for |
| ReputationService.ReputationService.RecordEscrowCompleted | backend/src/reputation/reputation.service.ts:69-91 | adds 5 times the amount weight, over one more than their earlier events, to both parties' scores; nothing when they are the same, and nobody else's record changes |
| ReputationService.ReputationService.RecordDisputeResolved | backend/src/reputation/reputation.service.ts:93-119 | moves each party's score by its own outcome (2 times the amount weight for won, minus 10 for lost, minus 2 for split, over one more than their earlier events); nothing when they are the same, and nobody else's record changes |
| ReputationService.ReputationService.GetScore | backend/src/reputation/reputation.service.ts:122-128 | returns the history's score at the time asked, its event count, its counts per counterparty and its newest twenty events, and stores nothing |
| Cid.Base32Encode | backend/src/ipfs-pinning/cid.util.ts:16-38 | the bit-buffer loop, its buffer never above twelve bits, computes the encoding: the bytes' bits, zero-padded, in groups of five, in ceil(8n/5) symbols |
| Cid.DecodedIsInverse | backend/src/ipfs-pinning/cid.util.ts:16-38 | decoding as in section 6 of RFC 4648, unpadded, gives back every byte string |
| Cid.KnownTexts | backend/src/ipfs-pinning/cid.util.ts:1-38 | the encodings of two of the texts that section 10 of RFC 4648 lists, in lower case and without padding |
| Cid.EmitSymbol | backend/src/ipfs-pinning/cid.util.ts:25-28 | emitting a symbol keeps the emitted number and the buffered bits equal to the bytes read |
| Cid.ReadByte | backend/src/ipfs-pinning/cid.util.ts:22-23 | so does reading a byte |
| Cid.MaskBuffer | backend/src/ipfs-pinning/cid.util.ts:30-30 | so does masking, which leaves fewer than five bits |
| Cid.FlushBuffer | backend/src/ipfs-pinning/cid.util.ts:33-35 | the last, partly filled symbol completes the encoding |
| Cid.CidsAreInjective | backend/src/ipfs-pinning/cid.util.ts:47-56 | content identifiers are equal exactly when their digests are, and each passes the validity check |
| Cid.EveryCidStartsAlike | backend/src/ipfs-pinning/cid.util.ts:1-57 | every identifier has 59 characters and starts with bafkrei: base32, version 1, raw, sha2-256 |
| Cid.ValidityIsNotMembership | backend/src/ipfs-pinning/cid.util.ts:54-57 | a text is some digest's identifier exactly if it passes the check, its padding bits are zero and it starts with the header |
| Cid.SomeValidTextIsNoCid | backend/src/ipfs-pinning/cid.util.ts:54-57 | the check also accepts texts that no content has |
| Cid.ComputeCidV1Raw | backend/src/ipfs-pinning/cid.util.ts:47-51 | the identifier of a 32-byte digest under the fixed header |
| Csv.CsvRoundTrip | backend/src/audit/audit.service.ts:249-273 | a parser for section 2 of RFC 4180 with LF row ends gives back every exported table's field strings, for any content |
| Csv.TablesAreInjective | backend/src/audit/audit-export.service.ts:33-44 | different tables are exported differently |
| Csv.ParseQuoted | backend/src/audit/audit.service.ts:268-273 | quoted content is read back up to its closing quote, whatever it contains |
| Csv.ParseBare | backend/src/audit/audit.service.ts:268-273 | a field without special characters is read back up to what ends it |
| Csv.ParseField | backend/src/audit/audit.service.ts:268-273 | an escaped field reads as the field |
| Csv.ParseRow | backend/src/audit/audit.service.ts:249-262 | a printed row reads as the row |
| Csv.HeaderLineIsRow | backend/src/audit/audit-export.service.ts:127-127 | the unescaped header line is a row like any other |
| Csv.ExportLogs | backend/src/audit/audit.service.ts:129-205 | over an unchanging table the paged loop ends with the header and every row once, in order, and hashes exactly that; a failing query leaves the pages before it, and without a database no checksum is ever delivered |
| Reconciliation.SecondRunIsQuiet | backend/src/escrow-reconciliation/escrow-reconciliation.service.ts:61-206 | a second run against the same chain reports a status, amount or missing-in-DB drift only for ids whose read failed in the first |
| Reconciliation.SecondRunWritesNothing | backend/src/escrow-reconciliation/escrow-reconciliation.service.ts:61-206 | after a run without failed reads a second one changes nothing |
| Reconciliation.OnlyFoundRowsChange | backend/src/escrow-reconciliation/escrow-reconciliation.service.ts:95-132 | a row changes only if its own read found a differing record: failed, invalid and absent reads never write |
| Reconciliation.SweepIsRight | backend/src/escrow-reconciliation/escrow-reconciliation.service.ts:92-174 | after any part of a sweep every old row is as its own target demands and the new rows are exactly the backfilled ones |
| Reconciliation.OneRowEachIffNoneFoundTwice | backend/src/escrow-reconciliation/escrow-reconciliation.service.ts:72-80 | a run leaves at most one row per contract id exactly if no two targets without a row name the same id and both find its record |
| Reconciliation.RunKeepsOneRowEach | backend/src/escrow-reconciliation/escrow-reconciliation.service.ts:72-80 | with distinct extra ids no contract id gets a second row |
| Reconciliation.RepeatedExtraIsBackfilledTwice | backend/src/escrow-reconciliation/escrow-reconciliation.service.ts:72-80 | an extra id named twice is backfilled twice |
| Reconciliation.StaleRepairIsRefused | backend/src/escrow-reconciliation/escrow-reconciliation.service.ts:257-282 | a repair of a row that guarded transitions changed since it was listed is refused exactly unless they left it alone or it had no version |
| ReconciliationService.EscrowReconciliationService.Reconcile | backend/src/escrow-reconciliation/escrow-reconciliation.service.ts:61-206 | the loop leaves the rows of the whole sweep, reports its drifts in order and lists exactly the failed reads as errors |
| ReconciliationService.EscrowReconciliationService.ReconcileOne | backend/src/escrow-reconciliation/escrow-reconciliation.service.ts:92-174 | one target, by what its read found: which row is written and with which fields, and which drifts are reported, each marked repaired exactly if its write went through |
| ReconciliationService.EscrowReconciliationService.Repair | backend/src/escrow-reconciliation/escrow-reconciliation.service.ts:257-282 | goes through exactly if the row still has the listed version or that had none, and then sets the chain's status and amount and nothing else but the version |
| ReconciliationService.EscrowReconciliationService.RepairMissingInDb | backend/src/escrow-reconciliation/escrow-reconciliation.service.ts:284-302 | a fresh row with the chain's depositor, beneficiary, amount and status, linked to the id, without a version |
| Migration.ContractFollowsBackfill | backend/src/migration/migration-runner.service.ts:110-125 | contract is called only with nothing pending or after the backfill call that reported done, all its calls before it |
| Migration.RollbackMirrorsAttempts | backend/src/migration/migration-runner.service.ts:213-255 | rollbackContract is called exactly if contract was and the run failed, after it and before rollbackExpand, which is last and left out only if the former threw |
| Migration.FinalStatusIsExact | backend/src/migration/migration-runner.service.ts:110-125 | a run ends completed exactly if no action threw, failed exactly if a compensating action threw, and never in progress |
| Migration.BackfillEnds | backend/src/migration/migration-runner.service.ts:156-197 | the backfill calls its batches in turn up to the first that is done or throws |
| Migration.TakenIsExact | backend/src/migration/migration-runner.service.ts:156-197 | batches are taken in turn up to the first that reports done or throws, and none without pending rows; a run's counters are the sums over these |
| Migration.LastRecordIsLast | backend/src/migration/migration-runner.service.ts:278-280 | the last record of a phase is found |
| MigrationService.MigrationRunnerService.RunMigration | backend/src/migration/migration-runner.service.ts:61-125 | refused exactly while the slot's run is in progress; otherwise makes exactly the calls of its plan, ends in its final status with its row counts and the history of the phases attempted, each marked as it went and a rollback last, and its slot is free |
| MigrationService.MigrationRunnerService.RunBatches | backend/src/migration/migration-runner.service.ts:168-188 | the loop makes exactly the backfill's calls and counts the rows of the batches they took |
| MigrationService.MigrationRunnerService.Compensate | backend/src/migration/migration-runner.service.ts:213-255 | undoes what the history says was attempted, marks the failed phase, records the rollback with its outcome and frees the slot |
| MigrationService.MigrationRunnerService.RollbackRun | backend/src/migration/migration-runner.service.ts:128-140 | missing, running and already rolled back runs are told apart; others are undone |
| MigrationService.MigrationRunnerService.Begin | backend/src/migration/migration-runner.service.ts:93-108 | a run begins exactly if the slot is free or its marker is stale |
| MigrationService.MigrationRunnerService.ClaimAndCreate | backend/src/migration/migration-state.store.ts:175-201 | takes a free slot and stores the run, or names the run that has it |
| MigrationService.EndCloses | backend/src/migration/migration-runner.service.ts:264-280 | completing or failing the open phase leaves every record closed in exactly one way |
| MigrationTurns.TurnsKeepExclusion | backend/src/migration/migration-runner.service.ts:61-140 | over every interleaving in which each run of a name begins only when the earlier runs and rollbacks are past their slots, and each manual rollback when the earlier runs are: at most one holds the slot, none is refused, and a slot is marked exactly while it is held |
| MigrationTurns.SafeIffInTurn | backend/src/migration/migration-runner.service.ts:61-140 | after any such history, manual rollbacks included, beginning a run or a rollback leaves every continuation without two holders and without a held slot that is free exactly if it is its turn |
| MigrationTurns.BeginIsSafeIffInTurn | backend/src/migration/migration-state.store.ts:175-227 | for runs alone, after any history in which no marker was overwritten as stale and nothing rolled back by hand: beginning a run is safe in every continuation exactly if no earlier run of its name may yet claim, hold or clear the slot |
| MigrationTurns.BeginningEarlyAdmitsTwo | backend/src/migration/migration-state.store.ts:175-227 | after such a history, with such a run around, beginning one more has a continuation, with nothing else begun, in which two are between claiming and clearing the slot |
| MigrationSlots.OneRunPerName | backend/src/migration/migration-state.store.ts:175-227 | over every interleaving in which no marker is overwritten as stale and no manual rollback runs, at most one call of a name is between its claim and the clearing of its slot |
| MigrationSlots.NoSlotIsLeaked | backend/src/migration/migration-state.store.ts:216-227 | and a slot is marked exactly while some call holds it |
| MigrationSlots.ClaimWindowAdmitsTwo | backend/src/migration/migration-state.store.ts:178-189 | between a call's SET NX and its record the marker passes for stale, and two runs work at once |
| MigrationSlots.CompletionWindowAdmitsTwo | backend/src/migration/migration-runner.service.ts:115-118 | between the completed record and the clearing of its slot too, through the clearing of another run's marker |
| MigrationSlots.LateRefusalAdmitsTwo | backend/src/migration/migration-state.store.ts:178-201 | and a refused call that has read whose marker it is may overwrite a third call's marker once that run has completed |
| MigrationSlots.ManualRollbackAdmitsTwo | backend/src/migration/migration-runner.service.ts:128-140 | a manual rollback clears its name's slot even while another run holds it |
| MigrationSlots.ClaimWindowIsReached | backend/src/migration/migration-state.store.ts:178-189 | the first of these windows is open to the first two calls ever made |
| Amount.StroopsRoundTrip | backend/src/common/amount.ts:84-95 | every integer number of stroops comes back from its XLM text |
| Amount.OneStroop | backend/src/common/amount.ts:84-95 | one stroop is 0.0000001 XLM |
| Amount.XlmInStroops | backend/src/common/amount.ts:3-95 | n XLM are 10,000,000 n stroops, both ways and with either sign |
| Amount.TruncatesToSevenPlaces | backend/src/common/amount.ts:46-95 | XLM text to stroops and back is the text cut to seven places, digit by digit, for every decimal string that is read |
| Amount.StroopsAreDigits | backend/src/common/amount.ts:92-95 | the stroops of a decimal are its digits with the fraction cut, or filled with zeros, to seven |
| Amount.ShapesAreRead | backend/src/common/amount.ts:18-27 | a sign or none, digits and a point or none, with digits on either side of it or on both, is read as the decimal it shows |
| Amount.OnlyShapesAreRead | backend/src/common/amount.ts:18-27 | and no other text is read |
| Amount.ParsedAsWritten | backend/src/common/amount.ts:18-27 | a written decimal is read back as it is |
| AmountSums.SumAmounts | backend/src/common/amount.ts:73-79 | fails exactly if an amount does not parse; else prints the exact sum cut to seven places |
| AmountSums.SumOfStroops | backend/src/common/amount.ts:73-95 | with at most seven places each, the stroops of the sum are the sum of the stroops |
| AmountSums.SumKeepsStroopsIff | backend/src/common/amount.ts:73-95 | in general they are so exactly when the parts the separate conversions drop add up to less than a stroop and not against the sign of the whole |
| AmountSums.HalvesAddUp | backend/src/common/amount.ts:73-95 | two half stroops sum to one though each is worth none |
| AmountSums.CompareIsStroopOrder | backend/src/common/amount.ts:62-68 | amounts of at most seven places compare as their stroops do |
| AmountSums.CompareAtAnyPlace | backend/src/common/amount.ts:62-68 | the comparison is that of the exact values |

## Left out

- OutboxRelay.RelayTerminates: assumes that each claim is resolved before its lease lapses and that nothing else appends; the append of a spawned webhook event, which the relay does not await, is part of the step that resolves its parent.
- OutboxService.OutboxRelayService.RunOnce: a failing store command inside a resolution is not modelled, only failing publishing, dispatching and the loss of the spawned event.
- DisputeRuns.SagaSafety: does not say that completed sagas' escrows are settled as voted, because that fails in some runs; `DisputeSettlement.CompletedArePaid` and `DisputeSettlement.FinalIffNoneDisagrees` say when it holds. Faults of the webhook dispatch inside a vote, and with them the compensation of voting, are not steps, because dispatching does not wait for its outcome. The mutexes of sagas and escalations are per process, and so are these runs: several instances over one store are not modelled.
- DisputeRuns.EndedSagasStay: a completed saga is written once more with its archive id, which the saga here does not carry.
- DisputeSettlement.FinalIffNoneDisagrees: writes from outside the sagas are the guarded transitions; a chain patch, which copies the chain's status past the guards, is not one of them.
- DisputeService.DisputeSagaService.CastVote: the compensation of a failed webhook dispatch is not modelled, because dispatching does not wait for its outcome.
- Escrow.ConcurrentPatchIsRefusedIffVersioned: a chain patch's version check and its later write are one step here; in the code they are separate commands, and a write that lands between them is not refused.
- DisputeService.DisputeSagaService.Escalate: also covers a saga write that throws (the fault `commit`), for which the code has a compensation although its own writes fall back to memory.
- DisputeService.DisputeSagaService.CompensateEscalation: the optional chain sync before the local revert is not modelled, because the dispute module supplies no chain client.
- GigRuns.WritesAreSerialised: the limit of three attempts and the backoff between them are in `GigService.GigService.MutateWithRetry` only; a caller of the machine may retry without end.
- GigService.GigService.Search: searches and mutations run one at a time; a search that computes its page across a mutation can cache a stale one.
- GigService.GigService.Create: gigs created in the same millisecond are listed in the order of their calls; Redis orders them by id, which is random.
- EventIngestion.HandledUpToCursor: assumes an RPC that returns every event of the requested ledgers in ledger order with a cursor after each full page, ids that do not repeat, and batches whose runners all finish.
- EventSchedules.EveryScheduleIsSequential: the row of a contract id is the one linked to it, and its saga marker says whether one is active: rows unlinked by a second creation and what else sagas hold are not followed. The first lookup of the row and the guard's read of it are one step, since a row once linked stays. So are an escalation's guards and its saga's first write, since under the lock nobody else writes that saga. Only the schedules are free, the limit on runners is in `ConcurrentMap`.
- Reputation.ScoreIsFullHistory: over real numbers; the rounding of floating point, of `toView` and the square root of the amount weight are not modelled.
- ReputationService.ReputationService.GetScore: the rounding of the returned view is not modelled.
- Cid.Base32Encode: shifts and masks are multiplications, divisions and remainders by powers of two, which agree on the twelve bits the buffer is proved to stay within; SHA-256 is an arbitrary digest.
- Csv.CsvRoundTrip: about the nine field strings; an absent value and an empty string print alike, and the printing of JSON values is not modelled.
- Csv.ExportLogs: the table does not change during the export.
- Reconciliation.SecondRunIsQuiet: nothing else writes rows between listing and repair; `StaleRepairIsRefused` covers guarded transitions that do.
- Reconciliation.StaleRepairIsRefused: the same holds for a repair: its version check and its write are one step here, and a write between the two, which the code does not refuse, is not modelled.
- ReconciliationService.EscrowReconciliationService.ReconcileOne: a backfill that throws and is reported unrepaired is not modelled; neither is a store fault in a repair.
- ReconciliationService.EscrowReconciliationService.RepairMissingInDb: creating the row always works.
- MigrationService.MigrationRunnerService.RunMigration: dry runs, batch delays and pruning of old runs are not modelled, and a backfill call past the end of its listed outcomes counts as throwing, so a migration that never reports done is left out.
- Amount.TruncatesToSevenPlaces: for the texts `Amount.OnlyShapesAreRead` describes; exponents, hexadecimal, infinities and surrounding blanks, which the big-number library also reads, are not modelled.
- AmountSums.SumAmounts: refuses the same other texts.
- In-memory fallback stores of every service: they diverge per process and treat leases differently.
- `replayAll`, the legacy outbox API and the webhook processor: other consumers of the same queue.
- `ingestSingleLedger`, which can move the cursor past unfetched ledgers, and clearing events before a ledger.
- Milestones, escrow creation by users, linking contract ids and listings of the escrow service.
- Step histories and timestamps of the dispute saga, its notifications and metrics.
- Leaderboards, gig listings by creator and status, and their pagination.
- HTTP controllers, DTO validation, authentication, rate limits, WebSocket, e-mail, Discord, storage providers, configuration and logging.
- The Soroban event indexer and escrow analytics, whose results depend on providers.
