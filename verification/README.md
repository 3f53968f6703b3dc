# A verified model of the multi-camp logistics backend

The backend keeps a stock ledger, a roster of people and a set of approval protocols for several camps. This
project models those parts in Dafny and proves what they promise over whole runs.

**The database** is one object, `Store.Database`, whose tables the service methods update in place. Its value at
one moment is a `Tables.World`. Every service is a method proved against a specification function from world to
world (`Transfers.CompleteTransfer` against `Transfers.Complete`, and so on), refusals with their HTTP status
included. A database transaction is one step that happens fully or not at all.

**Runs** (`Runs`) are sequences of events, one per service call or job step, in any interleaving. Most calls check a
row first and write later, under no lock; another request may come in between. `LateWrites` names the writes of
each such call without its checks, and `Late` events perform them in a state the checks never saw: approving,
declining, every transfer call, every expedition call and the person update. A ration job is two events: it reads
stock in one and consumes in the other. `TransferRuns`, `ExpeditionRuns` and `PeopleRuns` prove invariants of
runs, and `History` collects them for a database that starts without history: what holds in any run (`AnyRun`) and
what holds besides when no check is overtaken (`SerialRun`). `ClosedRows` adds that decided and closed rows never
change. For each of these invariants, and each overtaken write that can break it, there is the exact condition under
which it does not; `Overtaken` holds concrete runs in which such writes do harm.

**What each call means** is told over requests and rows, without the specification functions: `Answers` says which
calls are accepted and with what code the others are refused, `Effects` what an accepted call does to people and rows,
and `Lifecycles` that an accepted request can be driven to its end and what it then leaves behind.

**The jobs** exist twice in the system. `Rations` and `Production` prove what each computes and that the two
production jobs agree; `RationLaws` and `ProductionLaws` spell out their rules, down to a day in numbers.

**The queue worker** (`Worker`, `WorkerRuns`, `WorkerOrder`) and **the cache** (`CacheKeys`, `Cache`, `CacheLaws`, `CacheRaces`) are machines of
their own: job conservation, retries and termination; coherence one call at a time, and what a race can and
cannot leave behind.

Quantities are integer hundredths, the resolution of the DECIMAL(12,2) columns.

## What turned out not to hold

Each with an input that fails and the exact condition.

- A generated identification code follows the greatest code of its prefix in string order. It is new whatever the
  other codes are if and only if the greatest suffix is a number that is zero, or that has three digits or more and is
  not all nines, or is no number and sorts below `001` (`Codes.AlwaysNewIff`); otherwise it is taken if and only if that
  one follower is in use (`Codes.CollidesIff`; inputs: `Codes.ShortCodeCollides`, `Codes.HandMadeCodeCollides`). Codes
  that are all generated are new for the first 1000 and collide from then on: `PPP-1000` sorts below `PPP-999`
  (`Codes.NewExactlyBelowThousand`).
- Decided requests, closed transfers and closed expeditions never change while no check is overtaken. A late write
  leaves them alone if and only if it lands harmlessly, a condition on the row it finds
  (`ClosedRows.LateWriteKeepsClosedIff`; inputs: `Overtaken.CompletedAfterRejection`, `Overtaken.ApprovedAfterDecline`,
  `Overtaken.ReturnedAfterCancellation`).
- An approval on an overtaken check keeps requests booked once if and only if the request is not approved yet
  (`Runs.LateApprovalBooksOnceIff`; input: `Runs.OvertakenApprovalPostsTwice`). A decline does if and only if the
  request has not been approved in between (`Runs.LateDeclineKeepsBooksIff`; input: `Overtaken.DeclinedAfterApproval`).
- A transfer completed on an overtaken check stays booked once if and only if it is not completed yet or has no goods
  (`TransferRuns.LateCompletionShipsOnceIff`; input: `Overtaken.CompletedTwice`), and its people moved once if and only
  if it is not completed yet or carries nobody (`PeopleRuns.LateCompletionMovesOnceIff`). Late approvals and
  rejections keep goods and people booked once under the same two conditions (`TransferRuns.LateApprovalsAndRejections`,
  `PeopleRuns.LateApprovalsAndRejectionsUnsay`; input: `Overtaken.RejectedAfterCompletion`).
- A status update of an expedition on an overtaken check keeps log and rows in agreement if and only if it credits no
  resource credited before (`ExpeditionRuns.CommitKeepsAccountsIff`; input: `Overtaken.ReturnedTwice`); it
  leaves sound rows if and only if it is a return or nothing was credited (`ExpeditionRuns.LateUpdateKeepsRowsIff`;
  input: `Overtaken.CancelledAfterReturn`), and a deletion if and only if nothing was credited
  (`ExpeditionRuns.LateDeletionKeepsRowsIff`; input: `Overtaken.DeletedAfterReturn`).
- A person update on an overtaken camp check keeps the camp trail if and only if the person is still there or has
  never moved (`People.StaleUpdateKeepsCampChainIff`; input: `Overtaken.UpdatedAfterMove`).
- Cancelling an expedition without a default member status agrees with deleting it without one if and only if every
  unlisted member is HEALTHY already (`Expeditions.DeleteIsBareCancelIff`; input:
  `Overtaken.BareCancellationLeavesThemAway`).
- A job that fails for the nth time is due again after `baseDelay · 2^(n−1)` seconds, up to half a second, if and only
  if the clock plus that many milliseconds is below 2^63 (`WorkerRuns.DueOnTimeIff`), and on the millisecond if and
  only if besides that sum is a double (`WorkerRuns.DueExactIff`), as all sums up to 2^53 are. With the default base of
  5 seconds, until 2039, that means on the millisecond up to attempt 41, within half a second up to attempt 51, and at
  once at attempt 52 (`WorkerRuns.DefaultBackoff`); a base of 9223372036854775 seconds fails at attempt 1
  (`WorkerRuns.HugeBaseIsDueAtOnce`); from attempt 65 on no base gives any delay (`WorkerRuns.BackoffVanishes`).
- Jobs are not conserved when equal ones are queued: the delayed set keeps one of two equal retries
  (`WorkerRuns.EqualJobsMerge`). The jobs lost are exactly those merges (`WorkerRuns.JobsAreConserved`), and different
  jobs never merge (`WorkerRuns.DistinctJobsAreSingle`). A payload `null` is lost and ends the worker.
- Scarce rations go to ascending ids, not down the priority list. The people served outrank those who are not,
  however few the portions, if and only if ids ascend with ranks, which for people read in id order means that the
  list is in priority order already (`Rations.PriorityRespectedIff`, `Rations.PriorityRespectedIffSorted`; input, an
  adult with id 1 and a child with id 2: `Rations.ScarceRationPassesTheChild`).

## Model

| member | source | states |
|---|---|---|
| History.AnyRun | src/modules/inventory/inventory.service.ts:78-215 | from a database without history, after any interleaving and with any checks overtaken: stock never negative and equal to opening plus log, every status trail unbroken, accepted admissions linked |
| History.SerialRun | src/modules/inventory-adjustment-requests/inventory-adjustment-requests.service.ts:81-205 | and when no check is overtaken: approved requests, expeditions, goods and people of completed transfers are each booked exactly once, camp trails are unbroken, approved transfers sound |
| Runs.LedgerAlwaysBalances | src/modules/inventory/inventory.service.ts:78-215 | in every reachable state of any interleaving, stale stock readings and every late write included, no slot is negative, each equals its opening balance plus its logged changes, and the log only grows |
| Runs.ChecksFirst | src/modules/transfers/transfers.service.ts:542-670 | the link between a call and its late form: a checked call is refused with nothing changed, or its effect is exactly that of its own late write |
| Runs.PostedAmount | src/modules/transfers/transfers.service.ts:158-241 | which origins an event can post: outside manual adjustments, rations and production only its own record, and what that adds up to in each slot |
| LateWrites.LatePosts | src/modules/explorations/explorations.service.ts:477-681 | a late write changes stock by exactly the log rows it appends, in whatever state it lands |
| LateWrites.LateOverdrawsNothing | src/modules/transfers/transfers.service.ts:542-670 | and takes no more than a slot then holds, because the stock guards are evaluated with the writes |
| Runs.NothingOverdrawn | src/jobs/daily-rations.job.ts:94-126 | no event takes more than the slot holds at that moment, however old the reading it acts on |
| Runs.StepPosts | src/modules/inventory/inventory.service.ts:390-494 | every step changes stock by exactly the log rows it appends |
| Runs.StaleRationIsAllOrNothing | src/jobs/daily-rations.job.ts:94-150 | a job on an outdated reading consumes all it planned or nothing; with at least as much stock as it read it succeeds |
| Runs.RequestsPostOnce | src/modules/inventory-adjustment-requests/inventory-adjustment-requests.service.ts:81-252 | over serial runs an approved request is in the log once, signed, at its camp, any other never |
| Runs.RequestStep | src/modules/inventory-adjustment-requests/inventory-adjustment-requests.service.ts:10-252 | the only ways a request row appears or changes in a serial step: once, from awaiting, by a user then in its camp |
| Runs.LateApprovalBooksOnceIff | src/modules/inventory-adjustment-requests/inventory-adjustment-requests.service.ts:90-185 | an approving transaction on an overtaken check keeps every request booked once if and only if the request is not approved yet |
| Runs.LateDeclineKeepsBooksIff | src/modules/inventory-adjustment-requests/inventory-adjustment-requests.service.ts:207-252 | a declining write on an overtaken check keeps requests and log in agreement if and only if the request has not been approved in between |
| Overtaken.DeclinedAfterApproval | src/modules/inventory-adjustment-requests/inventory-adjustment-requests.service.ts:207-252 | concrete run: a decline checked before an approval leaves a declined row whose quantity is in stock |
| Runs.OvertakenApprovalPostsTwice | src/modules/inventory-adjustment-requests/inventory-adjustment-requests.service.ts:90-185 | concrete run in which two approvals of 5 on one awaiting request, both of which pass their checks in the first state, book 10 |
| Overtaken.ApprovedAfterDecline | src/modules/inventory-adjustment-requests/inventory-adjustment-requests.service.ts:81-205 | concrete run: an approval checked before a decline books a declined request |
| ClosedRows.LateWriteKeepsClosedIff | src/modules/inventory-adjustment-requests/inventory-adjustment-requests.service.ts:90-252 | a late write of any of the services leaves every decided request, closed transfer and closed expedition as it is if and only if it finds: for a completion no REJECTED, for a rejection no COMPLETED, for an approval of a transfer no closed row; for a date no closed row with another date; for an approval of a request no DECLINED, for a decline no APPROVED; for a status update no closed expedition on which it writes something new, for a deletion no RETURNED one |
| ClosedRows.ClosedRowsStay | src/modules/transfers/transfers.service.ts:126-156 | over any run whose late writes meet that condition when they land, decided requests, closed transfers and closed expeditions stay as they are |
| Ledger.AggregateResources | src/modules/explorations/explorations.service.ts:29-40 | the Map loop yields one line per resource in order of first mention with the summed amount |
| Ledger.MergedIsMerged | src/modules/explorations/explorations.service.ts:29-40 | aggregating twice is aggregating once: same order, same sums, positivity kept |
| Ledger.FirstsInOrder | src/modules/explorations/explorations.service.ts:29-40 | the order of the aggregated lines is that of first mention |
| Ledger.PostEffect | src/modules/inventory/inventory.service.ts:96-141 | posting rows moves each slot by their net and appends exactly them |
| Inventory.ConsumeInventoryWithLog | src/modules/inventory/inventory.service.ts:78-144 | takes the quantity and logs it, or is refused with nothing changed |
| Inventory.IncreaseInventoryWithLog | src/modules/inventory/inventory.service.ts:146-215 | adds to the row or creates it, with one log row |
| Inventory.CreateManualAdjustment | src/modules/inventory/inventory.service.ts:390-514 | checks references, then one guarded change with one log row |
| Inventory.ApproveRequest | src/modules/inventory-adjustment-requests/inventory-adjustment-requests.service.ts:81-205 | only an awaiting request of the reviewer's camp; status, stock and log change together or not at all |
| Inventory.RejectRequest | src/modules/inventory-adjustment-requests/inventory-adjustment-requests.service.ts:207-252 | same checks; only the status changes |
| Effects.StockAdjusted | src/modules/inventory/inventory.service.ts:390-494 | a manual adjustment moves its quantity in or out of one slot with one row that says so, and nothing else |
| Effects.RequestFiled | src/modules/inventory-adjustment-requests/inventory-adjustment-requests.service.ts:10-79 | a filed request is awaiting, with the camp, resource, direction and quantity asked for |
| Answers.ManualAnswers | src/modules/inventory/inventory.service.ts:390-514 | accepted exactly for known references, a positive quantity and, outwards, enough stock; 404 exactly for unknown references |
| Answers.FilingAnswers | src/modules/inventory-adjustment-requests/inventory-adjustment-requests.service.ts:10-79 | who may file, and when it is 404 or 403 |
| Answers.ReviewAnswers | src/modules/inventory-adjustment-requests/inventory-adjustment-requests.service.ts:81-252 | who may review what, whether an approval succeeds, and when it is 404 or 403 |
| Lifecycles.RequestCanBeApproved | src/modules/inventory-adjustment-requests/inventory-adjustment-requests.service.ts:10-205 | a filed request can be approved by any user of its camp and then exactly its quantity has moved |
| Transfers.ApplyResourceTransfer | src/modules/transfers/transfers.service.ts:158-241 | the decrement-then-credit loop succeeds exactly when every summed request is covered and then posts one outflow and one inflow row per resource |
| Transfers.ShipmentNet | src/modules/transfers/transfers.service.ts:180-240 | net of a shipment per slot, per origin, for any item list with duplicates and any two camps |
| Transfers.ApplyPeopleTransfer | src/modules/transfers/transfers.service.ts:243-313 | all listed people move with status and camp rows, or none: 404 for duplicates or missing people, 400 for people elsewhere |
| Transfers.CreateTransfer | src/modules/transfers/transfers.service.ts:315-412 | the checks and their codes; a new transfer is PENDING between two different camps |
| Transfers.ScheduleTransferDelivery | src/modules/transfers/transfers.service.ts:414-443 | only open transfers, only by the requesting camp, never in the past |
| Transfers.ApproveTransferBySource | src/modules/transfers/transfers.service.ts:445-493 | PENDING to APPROVED_SOURCE by a user of the requesting camp, with a delivery date not in the past |
| Transfers.ApproveTransferByTarget | src/modules/transfers/transfers.service.ts:495-540 | APPROVED_SOURCE to APPROVED_TARGET by a user of the target camp |
| Transfers.CompleteTransfer | src/modules/transfers/transfers.service.ts:542-670 | goods, people and status change together or the database is as before |
| Transfers.RejectTransfer | src/modules/transfers/transfers.service.ts:672-713 | any open transfer, by either camp |
| Effects.LateArrivals | src/modules/transfers/transfers.service.ts:243-313 | each listed person is in the target camp with the status reported on arrival, HEALTHY if none was, one camp row each and one status row where it changed; nobody else is touched |
| Effects.Arrivals | src/modules/transfers/transfers.service.ts:547-640 | the same for an accepted completion in a run |
| Effects.TransferProposed | src/modules/transfers/transfers.service.ts:315-412 | the new row says what was proposed; everybody named is HEALTHY in the requesting camp and of the profession required |
| Answers.ProposalAnswers | src/modules/transfers/transfers.service.ts:315-400 | accepted exactly when camps differ and are known, the proposer is of the requesting camp, everybody named is HEALTHY there and of the profession required |
| Answers.ScheduleAnswers | src/modules/transfers/transfers.service.ts:414-443 | accepted exactly for an open transfer of the own camp and no past date; when 404, when 403 |
| Answers.SourceApprovalAnswers | src/modules/transfers/transfers.service.ts:445-493 | accepted exactly for a PENDING transfer of the own camp with a date given or set, not past; when 404, when 403 |
| Answers.TargetApprovalAnswers | src/modules/transfers/transfers.service.ts:495-540 | accepted exactly for an APPROVED_SOURCE transfer to the own camp with a date not past; when 404, when 403 |
| Answers.RejectAnswers | src/modules/transfers/transfers.service.ts:672-713 | accepted exactly for an open transfer of either camp; when 404, when 403 |
| Answers.CompletionAnswers | src/modules/transfers/transfers.service.ts:542-632 | accepted exactly for an APPROVED_TARGET transfer of either camp with positive goods, stock, packed rations and people listed once and present; when 404, when 403 |
| Answers.RationsAnswer | src/modules/transfers/transfers.service.ts:592-624 | travel rations are judged on the first ration line: heads × rations per day × days |
| Lifecycles.TransferRowWritten | src/modules/transfers/transfers.service.ts:414-540 | an approval, a rejection or a date writes its own columns of its own row and nothing else anywhere |
| Lifecycles.TransferCanComplete | src/modules/transfers/transfers.service.ts:315-670 | an accepted proposal whose goods are there goes through two approvals and a completion, and then goods and people have arrived and nobody else moved |
| TransferRuns.CoversMeansEnough | src/modules/transfers/transfers.service.ts:158-214 | for positive items the loop's success is: for every resource the summed request is at most the source's stock |
| TransferRuns.CompletionConserves | src/modules/transfers/transfers.service.ts:542-670 | refused: nothing moved; completed: each slot moves by the summed request, and over all camps every resource total is unchanged |
| TransferRuns.TransferStep | src/modules/transfers/transfers.service.ts:315-713 | the only ways a transfer row appears or changes in a serial step: which event, from which status, by a user then in which camp, with a delivery date not in the past, for HEALTHY people of the requesting camp |
| TransferRuns.ClosedTransfersStayClosed | src/modules/transfers/transfers.service.ts:126-156 | COMPLETED and REJECTED rows never change again in any serial run |
| TransferRuns.TransfersMoveOnce | src/modules/transfers/transfers.service.ts:542-670 | over any serial run a transfer's goods are logged out and in exactly once if it completed and never otherwise; approved ones have a delivery date; completed ones with people carried the travel rations |
| TransferRuns.CompletionIsRationed | src/modules/transfers/transfers.service.ts:584-632 | a completion with people implies ration total of at least people × rations per day × days |
| TransferRuns.CompletedTransfersWereApproved | src/modules/transfers/transfers.service.ts:445-670 | over serial runs a completed transfer was completed by exactly one event, after a target approval by a user then in the target camp, after a source approval by a user then in the requesting camp |
| TransferRuns.LateCompletionShipsOnceIff | src/modules/transfers/transfers.service.ts:554-670 | a completion on a status read earlier keeps goods booked once if and only if the transfer is not completed yet or has no goods |
| TransferRuns.LateApprovalsAndRejections | src/modules/transfers/transfers.service.ts:445-540 | late approvals (and rejections, lines 672-713) keep the log in agreement if and only if the transfer was not completed in between or has no goods |
| TransferRuns.LateKeepsSoundIff | src/modules/transfers/transfers.service.ts:445-670 | a late write on transfers keeps delivery dates and travel rations in order if and only if it brings or finds them |
| PeopleRuns.LateApprovalsAndRejectionsUnsay | src/modules/transfers/transfers.service.ts:445-540 | late approvals (and rejections, lines 672-713) keep people moved once if and only if the transfer was not completed in between or carries nobody |
| Overtaken.CompletedTwice | src/modules/transfers/transfers.service.ts:554-670 | concrete run: two completions, both checked while approved, deliver 1200 of a transfer of 600 |
| Overtaken.CompletedAfterRejection | src/modules/transfers/transfers.service.ts:554-670 | concrete run: a completion checked before a rejection ships the goods of a rejected transfer |
| Overtaken.RejectedAfterCompletion | src/modules/transfers/transfers.service.ts:672-713 | concrete run: a rejection checked before the completion leaves a rejected row whose goods have arrived |
| Expeditions.HandleResourceOutflow | src/modules/explorations/explorations.service.ts:177-256 | all aggregated resources leave with one row each, exactly when all are covered |
| Expeditions.HandleResourceReturn | src/modules/explorations/explorations.service.ts:259-309 | credits each aggregated resource with one row each |
| Expeditions.LastOutcomeWins | src/modules/explorations/explorations.service.ts:507-520 | a person is in the outcome map exactly when listed, with the last outcome listed |
| Expeditions.SetMemberHealth | src/modules/explorations/explorations.service.ts:141-174 | updating rows one by one in any order is the simultaneous update; a log row only where the status differs |
| Expeditions.CreateExploration | src/modules/explorations/explorations.service.ts:360-445 | members eligible, dates in order, stock covered; rows, outflow and AWAY statuses together or not at all |
| Expeditions.ValidateStatusTransition | src/modules/explorations/explorations.service.ts:81-98 | accepts exactly the edges of the lifecycle and the stay-put |
| Expeditions.UpdateExpeditionStatus | src/modules/explorations/explorations.service.ts:477-681 | checks, member statuses, returned and found resources; a refusal inside the transaction leaves no trace |
| Expeditions.DeleteExploration | src/modules/explorations/explorations.service.ts:740-814 | the checks and the cancelled state it leaves |
| Expeditions.DeleteIsCancel | src/modules/explorations/explorations.service.ts:740-805 | deleting is cancelling with the default status made explicit: same acceptance, same state; the code differs only for a closed expedition and an unknown user |
| Expeditions.DeleteIsBareCancelIff | src/modules/explorations/explorations.service.ts:505-554 | leaving the default out agrees exactly when every unlisted member is HEALTHY already |
| Overtaken.BareCancellationLeavesThemAway | src/modules/explorations/explorations.service.ts:505-554 | concrete expedition with one AWAY member: deleting it makes the member HEALTHY, cancelling it with nothing said leaves the member AWAY |
| Expeditions.AwayAfterClosing | src/modules/explorations/explorations.service.ts:505-554 | who is AWAY once an expedition is closed, as an if-and-only-if over reports, default and status before; nobody but its members changes |
| Effects.LateMemberStatuses | src/modules/explorations/explorations.service.ts:497-554 | sent out, members are AWAY; back or cancelled, what was reported last, else the default, else HEALTHY when back and as before when cancelled; one status row where it changed; nobody else is touched |
| Effects.MemberStatuses | src/modules/explorations/explorations.service.ts:497-554 | the same for an accepted update in a run |
| Effects.MembersOfTheDeleted | src/modules/explorations/explorations.service.ts:757-800 | after a deletion: what was reported last, else the default, else HEALTHY |
| Effects.LaunchedRow | src/modules/explorations/explorations.service.ts:360-445 | the new row: camp, members and summed allotment as asked for, PLANNED unless said otherwise |
| Effects.LaunchedMembers | src/modules/explorations/explorations.service.ts:360-445 | members are AWAY exactly when the expedition starts ONGOING |
| Answers.LaunchAnswers | src/modules/explorations/explorations.service.ts:360-445 | accepted exactly for known references, eligible members, ordered dates and covered stock; when 404 |
| Answers.UpdateAnswers | src/modules/explorations/explorations.service.ts:477-560 | accepted exactly along the lifecycle, with reports on members only and returns within the allotment; when 404 |
| Answers.DeletionAnswers | src/modules/explorations/explorations.service.ts:740-770 | accepted exactly for an open expedition with reports on members only; when 404 |
| Lifecycles.ExpeditionCanReturn | src/modules/explorations/explorations.service.ts:360-627 | an accepted plan can set out and come home; stock is then less by what was taken and more by what came back and was found, members are HEALTHY where they were |
| ExpeditionRuns.ExpeditionStep | src/modules/explorations/explorations.service.ts:360-627 | the only ways an expedition row appears or changes in a serial step; members set out HEALTHY and from its camp |
| ExpeditionRuns.ClosedExpeditionsStayClosed | src/modules/explorations/explorations.service.ts:81-98 | RETURNED and CANCELLED rows never change again in serial runs |
| ExpeditionRuns.ExpeditionsAreAccountedFor | src/modules/explorations/explorations.service.ts:177-309 | over any serial run the log holds each allotment going out once, returns and finds coming in as the rows say, returns within the allotment, duplicates summed |
| ExpeditionRuns.NetEffectOfAnExpedition | src/modules/explorations/explorations.service.ts:556-627 | its effect on stock is −allotted + returned + found at its camp and zero elsewhere; only a returned one gives anything back |
| ExpeditionRuns.ReturnedExpeditionWasOngoing | src/modules/explorations/explorations.service.ts:81-98 | a return is only accepted from ONGOING |
| ExpeditionRuns.ReturnedAtMostOnce | src/modules/explorations/explorations.service.ts:556-627 | the return credit happens at most once in a serial run |
| ExpeditionRuns.CommitKeepsAccountsIff | src/modules/explorations/explorations.service.ts:483-627 | a late commit keeps log and rows in agreement if and only if it credits nothing credited before |
| ExpeditionRuns.LateDeletionKeepsRowsIff | src/modules/explorations/explorations.service.ts:740-805 | a late deletion never touches the books; it leaves sound rows if and only if the expedition was credited nothing in between |
| ExpeditionRuns.LateUpdateKeepsRowsIff | src/modules/explorations/explorations.service.ts:483-627 | a late status update leaves sound rows if and only if it is a return or the expedition has no credits |
| Overtaken.CancelledAfterReturn | src/modules/explorations/explorations.service.ts:483-554 | concrete run: a cancellation checked before the return leaves a cancelled row with credits |
| Overtaken.ReturnedAfterCancellation | src/modules/explorations/explorations.service.ts:483-627 | concrete run: a return checked before a cancellation credits a cancelled expedition |
| Overtaken.ReturnedTwice | src/modules/explorations/explorations.service.ts:483-627 | concrete run: two returns, both checked while ONGOING, credit 1000 of an allotment of 500 |
| Overtaken.DeletedAfterReturn | src/modules/explorations/explorations.service.ts:740-805 | concrete run: a deletion checked before the return leaves a cancelled row with credits |
| Census.CheckEligible | src/modules/explorations/explorations.service.ts:113-139 | accepts exactly existing HEALTHY people of the camp, 404 before 400 |
| Census.SetHealthKeepsChains | src/modules/explorations/explorations.service.ts:141-174 | status updates extend unbroken trails to unbroken trails |
| Census.RelocateKeepsChains | src/modules/transfers/transfers.service.ts:273-312 | so do moves of people who are where the row says |
| PeopleRuns.TrailsStayUnbroken | src/modules/people/people.service.ts:250-266 | over any run in which no person update goes through on an overtaken camp check, other checks overtaken as one likes, every person's status log and camp log is a chain of real changes ending at the current value |
| PeopleRuns.StatusTrailsStayUnbroken | src/modules/people/people.service.ts:239-275 | over any run at all, every late write included, every status log is a chain of real changes ending at the current status |
| PeopleRuns.TransfersMovePeopleOnce | src/modules/transfers/transfers.service.ts:273-312 | over serial runs the camp log of a person is exactly the completed transfers that list the person, each once, with their two camps |
| PeopleRuns.LateCompletionMovesOnceIff | src/modules/transfers/transfers.service.ts:554-670 | a completion on a status read earlier keeps people moved once if and only if the transfer is not completed yet or carries nobody |
| People.CreatePerson | src/modules/people/people.service.ts:169-219 | a given code must be free; a random one is redrawn at most twice; 409 otherwise |
| People.CreationKeepsCodesDistinct | src/modules/people/people.service.ts:169-219 | codes stay unique; a given code is used as it is; 409 exactly when it, or all three draws, are taken |
| People.UpdatePerson | src/modules/people/people.service.ts:221-285 | the row and, if the status changes, its log row |
| People.CreatePersonStatusLog | src/modules/people/people.service.ts:376-445 | a real change of status only, with its log row |
| Effects.PersonAdded | src/modules/people/people.service.ts:169-219 | the new person is as the request says, HEALTHY by default, with the given code or the first free draw; nobody else is touched |
| Effects.PersonUpdated | src/modules/people/people.service.ts:221-285 | an update writes profession and status as given and keeps the rest, with a status row where it changed |
| Effects.StatusChanged | src/modules/people/people.service.ts:376-410 | the status becomes the one given, with its row; nobody else is touched |
| Answers.AddPersonAnswers | src/modules/people/people.service.ts:169-219 | the answer to every creation: 400, 404, 409 or done |
| Answers.UpdatePersonAnswers | src/modules/people/people.service.ts:221-245 | accepted exactly for a person of the camp and known references; when 409, when 400 |
| Answers.ChangeStatusAnswers | src/modules/people/people.service.ts:376-402 | accepted exactly for a person of the camp and another status; when 404, when 409 |
| People.StaleUpdateKeepsCampChainIff | src/modules/people/people.service.ts:221-285 | committed on an overtaken camp check, an update keeps the camp trail if and only if the person is still there or never moved; the status trail always |
| Overtaken.UpdatedAfterMove | src/modules/people/people.service.ts:221-285 | concrete run: an update checked before a transfer moved the person sets the old camp again, against the camp log |
| Codes.GenerateIdentificationCode | src/modules/admission/admission.service.ts:38-62 | follows the greatest existing code of the prefix in string order |
| Codes.LettersMeans | src/modules/admission/admission.service.ts:47-48 | piece by piece, other characters vanish and letters become capitals |
| Codes.PrefixMeans | src/modules/admission/admission.service.ts:47-48 | the prefix is the first three letters of the name as capitals, filled up with X |
| Codes.NextIsNew | src/modules/admission/admission.service.ts:45-61 | while all codes of a prefix have three digits, string order is number order and the next code differs from every existing one |
| Codes.AlwaysNewIff | src/modules/admission/admission.service.ts:51-61 | after a given greatest code the next code is new whatever the other codes are, if and only if the suffix is safe: zero, three digits or more and not all nines, or no number and below 001 |
| Codes.CollidesIff | src/modules/admission/admission.service.ts:51-61 | for any codes: the next one is taken if and only if the greatest is unsafe and its follower is in use |
| Codes.ShortCodeCollides | src/modules/admission/admission.service.ts:57-61 | concrete input: after `DOC-5` and `DOC-006` the next code is `DOC-006` |
| Codes.NewExactlyBelowThousand | src/modules/admission/admission.service.ts:38-62 | codes used in a row are 1, 2, 3, ...; the next is new if and only if fewer than 1000 are in use |
| Codes.AttemptsIssue | src/modules/admission/admission.service.ts:38-62 | any number of attempts issues codes 1 up to at most 1000 |
| Codes.HandMadeCodeCollides | src/modules/admission/admission.service.ts:57-59 | concrete input: after `DOC-001` and `DOC-ABC` the next code is `DOC-001` |
| Codes.NoNumberCollidesIff | src/modules/admission/admission.service.ts:38-62 | when the greatest code does not end in a number, the next code is number 1 and collides if and only if that is in use |
| Text.PaddedReadsBack | src/modules/admission/admission.service.ts:61-61 | padding and reading back is the identity; three characters exactly below 1000 |
| Text.LexFractions | src/modules/admission/admission.service.ts:51-55 | the order of the query on numerals of any length: a string that sorts no later spells no greater decimal fraction |
| Admissions.CreateAdmission | src/modules/admission/admission.service.ts:119-177 | files undecided, or enrols at once for a confident acceptance, all or nothing |
| Admissions.ReviewAdmission | src/modules/admission/admission.service.ts:211-270 | overwrites the decision; enrols only an accepted applicant without a person |
| Admissions.ReviewKeepsLinks | src/modules/admission/admission.service.ts:211-259 | a review keeps every accepted admission linked to a person of its own, changes no link, creates only linked people |
| Effects.ReviewEnrols | src/modules/admission/admission.service.ts:211-259 | an accepting review of an unlinked admission creates one person: HEALTHY, in its camp, of the corrected profession if there is a correction, else of the evaluator's, with a new code of that profession's prefix; any other review only decides |
| Effects.FilingEnrols | src/modules/admission/admission.service.ts:119-177 | a new admission is accepted with such a person exactly for an acceptance with a confidence above 0.85, and undecided otherwise |
| Answers.ReviewAdmissionAnswers | src/modules/admission/admission.service.ts:211-259 | a review is accepted exactly when the correction is known and, if somebody is to be enrolled, the profession is and its next code is free |
| Answers.FileAdmissionAnswers | src/modules/admission/admission.service.ts:119-177 | the same for filing; when 404, when 409 |
| PeopleRuns.LinksHoldForever | src/modules/admission/admission.service.ts:64-117 | over any run every accepted admission has its person, nobody is shared, a link once set never changes |
| PeopleRuns.OnePersonPerAdmission | src/modules/admission/admission.service.ts:211-259 | however often its decision flips, an admission creates at most one person |
| Rations.BuildPriorityPeople | src/jobs/daily-rations.job.ts:37-63 | four times filter, then take whom the filter found: a permutation, ordered by rank, input order kept inside a rank |
| Rations.GoBuildPriorityPeople | services/worker-go/main.go:747-785 | four passes that check and take one person at a time meet the same specification |
| Rations.StableOrderUnique | services/worker-go/main.go:747-785 | a permutation ordered by rank with input order kept inside a rank is unique, so both implementations build the same list |
| Rations.PriorityIsForgotten | src/jobs/daily-rations.job.ts:65-104 | equal sets of people get equal recipients, whatever the priority order was |
| Rations.PriorityRespectedIff | src/jobs/daily-rations.job.ts:65-104 | for every number of portions no unserved person outranks a served one, if and only if ids ascend with ranks |
| Rations.PriorityRespectedIffSorted | src/modules/people/people.service.ts:328-336 | for people read in ascending id order: if and only if the list read is in priority order already |
| Rations.ScarceRationPassesTheChild | src/jobs/daily-rations.job.ts:94-104 | concrete input: one portion, an adult with id 1 and a child with id 2; the child heads the priority list, the adult is served |
| Rations.DistributeResource | src/jobs/daily-rations.job.ts:81-137 | serves the first min(people, ⌊seen/need⌋) ids in ascending order and consumes need times as much |
| Rations.NeverOverdraws | services/worker-go/main.go:810-842 | never takes more than was read, and leaves less than a portion when someone goes without |
| Rations.RationingIsExhaustive | src/jobs/daily-rations.job.ts:94-126 | over any days without income portions served are at most ⌊stock/need⌋, with equality once a day leaves someone unserved (the arithmetic) |
| Rations.DaysAreTheRecursion | src/jobs/daily-rations.job.ts:81-137 | days of the job on the database leave the stock of that recursion, and the log shows what went |
| Rations.DaysAreExhaustive | src/jobs/daily-rations.job.ts:81-137 | so on the database: the log rations need times a number of portions that never exceeds ⌊stock/need⌋ and equals it once a day leaves someone unserved |
| Rations.ServedIsTheMaximum | src/jobs/daily-rations.job.ts:77-118 | recipient sets are nested, so the people counted as served are those of the most plentiful resource |
| Rations.ProcessCampRations | src/jobs/daily-rations.job.ts:139-167 | a whole camp day: every resource of the camp loses need times its number served, no other slot changes, every row is posted, and the count is that maximum |
| Lifecycles.RationIsServed | src/jobs/daily-rations.job.ts:81-137 | reading and consuming with nobody in between takes need × min(heads, ⌊stock/need⌋) from one slot and moves nothing else |
| RationLaws.RankMeans | src/jobs/daily-rations.job.ts:18-63 | rank 0 exactly for a known age up to the limit, then a profession that includes doctor or medic, then explorer or scout |
| RationLaws.PortionsMeans | src/jobs/daily-rations.job.ts:94-112 | the portions are the most the stock row covers, none without a row, stock or ration |
| RationLaws.EachGets | src/jobs/daily-rations.job.ts:114-122 | a recipient holds the ration of a resource exactly when it reached that many recipients |
| Production.ProcessCampProduction | src/jobs/daily-production.job.ts:62-118 | each resource grows by the positive part of yields plus overrides, with the log saying so and nothing else changed |
| Production.GoProcessCampProduction | services/worker-go/main.go:432-494 | the rescanning job meets the same specification |
| Production.GainIgnoresOrder | src/jobs/daily-production.job.ts:26-60 | the gain depends on people, yields and overrides as multisets only |
| Production.JobsAgree | services/worker-go/main.go:438-481 | both jobs, reading their rows in any order, leave the same stock and the same log totals |
| ProductionLaws.OneMoreOverride | src/jobs/daily-production.job.ts:88-118 | one more override of x on a resource makes the stock left behind grow by x more, never below zero, and no other slot differ |
| ProductionLaws.OneMorePerson | src/jobs/daily-production.job.ts:26-60 | one more person of a profession makes each resource grow by the positive amounts of that profession's rows |
| ProductionLaws.FirstPerson | src/jobs/daily-production.job.ts:72-118 | one person alone: the positive part of that plus the overrides |
| ProductionLaws.NobodyNothing | services/worker-go/main.go:439-441 | a camp without active people gains nothing, whatever rows and overrides say |
| ProductionLaws.ADayInNumbers | services/worker-go/main.go:432-494 | a day with two professions, a negative amount and overrides of both signs, in numbers |
| Worker.Daemon.MoveDueDelayedJobs | services/worker-go/main.go:164-203 | moving a batch is releasing its members one by one, each to its own list |
| Worker.Daemon.PopJob | services/worker-go/main.go:211-236 | pops the right end of the first non-empty list; what is no JSON object goes to the dead-letter list, `null` ends the process |
| WorkerOrder.PopOrder | services/worker-go/main.go:162-212 | a pop takes the payload pushed last on RATIONS, if that is empty on PRODUCTION, then ALERTS, then CLEANUP, else nothing |
| WorkerOrder.NobodyOvertakes | services/worker-go/main.go:162-212 | in no run does a production, alerts or clean-up job start while anything waits in a list before its own |
| WorkerOrder.LastInFirstOut | services/worker-go/main.go:212-222 | the job just pushed on the first list is popped next |
| Worker.Daemon.SettleJob | services/worker-go/main.go:238-293 | finished, delayed with one more attempt under a 64-bit sum made a double, or dead |
| WorkerOrder.WhatBecomes | services/worker-go/main.go:256-293 | finished exactly if the work succeeded and the type is known, dead exactly if it failed with no retry left, delayed otherwise |
| WorkerOrder.HomesByType | services/worker-go/main.go:633-646 | the list of each job type, and the one a job names first |
| WorkerOrder.RetryGoesHome | services/worker-go/main.go:246-255 | a retry, once released, is in the list its job names, else in that of its type, else where it was popped, one attempt on |
| Worker.Daemon.Turn | services/worker-go/main.go:205-295 | one turn of the loop is a run of those steps |
| WorkerRuns.ReleasesArePossible | services/worker-go/main.go:164-203 | the moves of one batch form a possible run: each member is due and still there when its turn comes |
| WorkerRuns.JobsAreConserved | services/worker-go/main.go:164-293 | over every run, equal payloads included, each payload is as often in lists, delayed set, execution, finished, dead-letter list or lost as it was enqueued, less one for each retry that landed on an equal one in the delayed set |
| WorkerRuns.DistinctJobsAreSingle | services/worker-go/main.go:164-293 | pairwise different payloads never merge and are in exactly one place |
| WorkerRuns.EqualJobsMerge | services/worker-go/main.go:284-287 | concrete run: two equal jobs fail one after the other and one retry is left |
| WorkerRuns.JobsRunAsOftenAsAllowed | services/worker-go/main.go:238-293 | over runs of pairwise different payloads attempt numbers count failures, dead jobs failed exactly maxRetries + 1 times, finished ones ran once more than they failed, executions never overlap, no retry starts before it is due, only `null` is lost |
| WorkerRuns.ExecutionsAreBounded | services/worker-go/main.go:273-293 | no job runs more than maxRetries + 1 times |
| WorkerRuns.DelaySumClosed | services/worker-go/main.go:280-285 | without overflow the computed delays sum to baseDelay · (2^n − 1) seconds |
| WorkerRuns.DeadJobsHadTheirChances | services/worker-go/main.go:273-293 | while no due time reaches 2^63, a dead job spent at least that long between its first failure and its last, less half a second for each retry if the latest possible due time exceeds 2^53 |
| WorkerRuns.BackoffVanishes | services/worker-go/main.go:282-282 | from attempt 65 on the delay is zero and the job due at once, whatever the base |
| WorkerRuns.DelayExactIff | services/worker-go/main.go:282-282 | the computed delay of attempt n is baseDelay · 2^(n−1) seconds if and only if that many milliseconds are below 2^63 |
| WorkerRuns.DueOnTimeIff | services/worker-go/main.go:286-286 | the score is within half a second of clock plus delay if and only if that sum is below 2^63 |
| WorkerRuns.DueExactIff | services/worker-go/main.go:286-286 | it is exactly that sum if and only if besides the sum is a double |
| WorkerRuns.HugeBaseIsDueAtOnce | services/worker-go/main.go:282-286 | concrete input: a delay that fits 64 bits and a sum with the clock that does not |
| WorkerRuns.DefaultBackoff | services/worker-go/main.go:282-286 | with base 5 and a clock before 2039: due on the millisecond up to attempt 41, within half a second up to 51, at once at 52 |
| WorkerRuns.WorkIsBounded | services/worker-go/main.go:205-295 | a measure that every move, pop and execution lowers: work is bounded by the enqueues, equal payloads included |
| WorkerRuns.WholeRuns | services/worker-go/main.go:131-297 | from empty lists, for pairwise different payloads: one place per payload, at most maxRetries + 1 runs, at most 3R + 2 worker actions per enqueue |
| WorkerRuns.RetriesComeHome | services/worker-go/main.go:246-285 | jobs pushed to the list they name are only ever retried in that list |
| CacheKeys.PrefixIsFamily | src/shared/cache/cacheKeys.ts:10-37 | an invalidation prefix matches a key if and only if the key is of that family: `role:` hits no role list |
| CacheKeys.KeysAreUnique | src/shared/cache/cacheKeys.ts:10-37 | two reads share a key only if they are the same read |
| Cache.InvalidatesExactly | src/modules/permissions/permissions.service.ts:25-32 | deleting by key text hits exactly the reads the write concerns |
| Cache.WritesCoverWhatTheyChange | src/modules/permissions/permissions.service.ts:25-32 | whatever read a write can change, roles after permissions and the catalogue after professions and resources included, it invalidates |
| CacheLaws.InvalidatesWhatCanChange | src/modules/camps/camps.service.ts:30-35 | a write invalidates exactly the reads some write of its row could change, and besides only the camp lists narrowed to other camps |
| CacheLaws.SinglesAnswer | src/modules/roles/roles.service.ts:160-167 | single reads answer the row if it exists, a role with exactly its granted permissions |
| CacheLaws.ListsAnswer | src/modules/camps/camps.service.ts:90-136 | lists carry page and page size; the camp list follows its filter, the camp catalogue lists the active ones, the profession catalogue the amounts of rows that exist |
| Cache.WritesKeepCoherence | src/modules/professions/professions.service.ts:25-30 | a write with its invalidation leaves only entries that are still true |
| Cache.CachedIsCurrent | src/lib/cache.ts:91-102 | a hit in a coherent cache is what the getter would return |
| Cache.Services.GetOrSet | src/lib/cache.ts:91-102 | serves the current answer, hit or miss, never caches a 404, keeps coherence |
| Cache.Services.DeleteByPrefix | src/lib/cache.ts:116-136 | the cursor loop removes exactly the matching keys, whatever pages the scan returns |
| Cache.Services.InvalidatePermissionCache | src/modules/permissions/permissions.service.ts:25-32 | removes exactly the entries a permission write concerns |
| Cache.Services.InvalidateRoleCache | src/modules/roles/roles.service.ts:76-81 | removes exactly the entries a role write concerns |
| Cache.Services.InvalidateProfessionCache | src/modules/professions/professions.service.ts:25-30 | removes exactly the entries a profession write concerns |
| Cache.Services.InvalidateResourceCache | src/modules/resources/resources.service.ts:31-36 | removes exactly the entries a resource write concerns |
| Cache.Services.InvalidateCampCache | src/modules/camps/camps.service.ts:30-35 | removes exactly the entries a camp write concerns |
| Cache.Services.Commit | src/modules/roles/roles.service.ts:116-158 | one call at a time, a write keeps every cached entry equal to what its getter would return |
| CacheRaces.NothingInvented | src/lib/cache.ts:91-136 | with fills landing any time later and invalidations in pieces, every cached or served value was the database's answer at some moment |
| CacheRaces.EverythingServedWasTrue | src/lib/cache.ts:91-136 | started on an empty cache, every answer ever served was the database's answer at some moment of the run |
| CacheRaces.StaleEntriesAreLateFills | src/lib/cache.ts:91-136 | after a write's invalidation, an entry read before the write that the write changes was stored after it committed, and is not served past its time-to-live |
| CacheLaws.Lifetimes | src/shared/cache/cacheKeys.ts:1-8 | permissions, roles and camps live an hour, professions six, resources a day; a hit is served only before that |
| CacheRaces.StaleMeansOvertaken | src/lib/cache.ts:97-102 | with all invalidations over, an entry that is not true now was overtaken by a write between its query and its landing |
| CacheRaces.QuietWritesAreSeenByAll | src/lib/cache.ts:104-136 | if no older reading is on its way when the invalidation starts, no entry misses the write from its end on |

## Left out

- Express routing, request schemas beyond positive quantities and the return date, controllers, authentication,
  audit logs, notifications, achievements, metrics, pagination: plumbing or easy members.
- The evaluator of admissions, CV parsing and embeddings are not part of this model; a verdict is a parameter.
- Rounding: `toFixed`, `Math.round` and a floored quotient of binary fractions (0.3 / 0.1) can differ from the
  hundredths used here.
- Notes, reasons, descriptions, actors and dates of log rows; a row keeps its slot or person, its change and what
  it was written for.
- One id sequence stands for those of all tables; deletion of people and camps, soft deletion, profession
  reassignment and contribution-override writes are absent.
- Status logs and camp logs are one sequence per person, because only the order of one person's rows means anything.
- Person rows keep camp, profession, status and code; an update does not change the code.
- Rows of a result without a promised order are taken in any order; errors of parallel lookups are raised in the
  order they are written.
- A late write is one step: the status check of its call may be outdated, but the reads that the writing part makes
  itself (stock guards, rows of people) and its writes are one moment. Checks on reference rows and on the acting user's
  camp are made in the checked event only. `createPersonStatusLog` and admission reviews read and write in one
  transaction and have no late form.
- `Rations.RecipientIds` stands for both enumeration orders: integer keys of an object ascend (section 10.1.11.1 of
  ECMA-262), and the Go job sorts.
- The two jobs select different people (one leaves AWAY people out); both take them as a parameter here.
- Codes.NoNumberCollidesIff, Codes.AlwaysNewIff, Codes.CollidesIff: a suffix is a number here if it is all digits.
  JavaScript's `Number` also reads signs, decimal points, exponents, hexadecimal, `Infinity` and blanks (after `-5`
  follows `0-4`, after `1.5` follows `2.5`; `Infinity` restarts at 1), and numerals from 2^53 on lose digits.
- The collation of the database: codes are compared character by character.
- The worker: crashes other than by a `null` payload, Redis failures, several workers, negative attempt numbers,
  payloads that name the delayed set or the dead-letter list as their queue, and clocks before 1970.
- The cache: unavailability, seeds that write behind the services, and the rows on one page of a list; a list entry
  records the page number, the page size and the rows its query selects from.
- Writes refused by unique or foreign keys change nothing and invalidate nothing, so they are no events of the cache.
