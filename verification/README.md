# HRMS backend: verified model

A Dafny model of the parts of the backend where state is shared between requests, and proofs of
what every run of them keeps.

- **Outbox** (`outbox/`). Events are rows of a table that any number of pods poll. `OutboxRows`
  gives each SQL statement as a function on the table; `OutboxProtocol` interleaves statements,
  handler calls, lost writes, crashes, cleanup and clock ticks of any number of pods;
  `OutboxManyPods` proves what survives all of that, `OutboxStaleWrites` exactly when a finished
  row can still change and how long a dead-lettered one is kept, `OutboxLiveReclaims` exactly
  when many pods stay out of each other's way, `OutboxAccounting` the exact accounting they then
  share with one, `OutboxSoleDispatcher` and `OutboxFairness` what one dispatcher adds: no live
  reclaim, finality, bounded waiting. `OutboxCounts` counts what happens in a run,
  `OutboxHistory` reads a row as the story of its steps, and from when on it is due.
  `OutboxServices` holds the services as objects, `OutboxRefinement` shows that any sequence of
  writes, polls and cleanups is a run of the transition system, with the same counts, and what
  follows, and `OutboxPlans` that the objects carry out such sequences. `Idempotency` and
  `TenantOnboarding` do the same for the check / act / mark handler.
- **Departments and employees** (`department/`, `organisation/`). `DepartmentForest` is the theory
  of the parent relation, `DepartmentRepository` the table with the breadth-first search,
  `DepartmentTree` the tree that is shown. `Organisation` says what each request does to the
  two tables and the event log, `OrganisationInvariants` what every run of requests keeps,
  `OrganisationEffects` which requests are granted and what a granted one leaves behind,
  `OrganisationReplay` that the events tell the whole story, and `OrganisationServices` has the
  services as objects, each method equal to its request.
- **Authentication** (`auth/`). `AuthModel` is the state machine of users, refresh tokens and reset
  tokens; `TokenFamilies` and `SessionRevocation` prove the rotation, reuse and revocation
  properties that section 10.4 of RFC 6749 and section 4.14.2 of RFC 9700 ask for, and
  `TokenLifetimes` how long each token works; `Lockout` bounds failed logins and `AccountHistory`
  reads an account as the story of its requests; `AuthServices` has the services as objects.
- **Helpers** (`helpers/`). The settings merge, the search pattern and the page arithmetic.

`dafny verify dfyconfig.toml` checks everything.

## Assumptions

- One clock that does not go back, shared by the database and all pods.
- A database statement either applies or fails without effect. In the outbox every statement is a
  step of its own. Outside it, one request is one step, although the code takes no transaction
  around the statements of a request.
- Row ids, family ids and raw tokens are fresh, hashing is injective, so a stored token is found by
  its raw value. Answers that come from elsewhere (does the password match, is the tenant
  active, is the name or number taken, did the handler throw) are inputs, and the theorems hold
  for every answer.
- Handlers run inside the dispatcher's pod; whether they return or throw is an input.

Fields called `audit`, `deleted` and `issued` are history. No modelled statement reads them, and
lemmas tie them to the run itself: `AuditMatchesRun`, `DeliveriesMatchRun` and `CountsMatchRun` the
first, `DeletedMatchesRun` the second, `IssuedMatchesRun` the third. `Idempotency` keeps no history:
what happened is counted on the run.

## Where comments and code differ

The model follows the code.

- `outbox-dispatcher.service.ts:149-156` says SKIP LOCKED keeps concurrent pods from processing an
  event twice. It keeps two claims apart, but a row is reclaimed by age alone while its worker may
  still be alive. `ReclaimIsSafeIff`: as long as nothing fails, the age test keeps every event from
  being delivered twice if and only if it finds no row that some pod still holds; without such a
  reclaim, failures or not, any number of pods keeps rows apart, leaves finished rows alone and
  balances its claims as one does (`RunKeepsExclusive`, `FinishedStaysWithoutLiveReclaim`, `ClaimsBalance`).
  `DeliveredTwiceWithoutFailure` is a concrete run with two deliveries, and
  `FinishedRowCanChangeIff` says exactly when a processed or dead-lettered row can still change.
- `outbox-dispatcher.service.ts:317-318` gives the delays as 5, 10, 20, 40 and 80 seconds. The code
  multiplies by two to the power of the new retry count, so the first delay is 10 seconds, and
  the fifth failure dead-letters: the waits add up to 150 seconds (`ClaimsBalance`).
- `idempotency.service.ts:20-22` calls the unique index the real guarantee. It guards the mark, not
  the body. Once the mark is there the body can complete again if and only if some delivery has
  checked and not acted, and as often as there are such deliveries (`AnotherBodyIff`,
  `MarkedCanCompleteIff`); while there is no mark nothing limits it (`BodiesAreLimitedIff`).
- `outbox-cleanup.service.ts:17-25` gives dead-lettered events 30 days for manual review. The code
  counts from creation: a dead-lettered row nobody can still write to is kept until a time if and
  only if that comes before creation plus 30 days (`DeadLetterKeptIff`), so the review lasts 30
  days if and only if the row was dead-lettered in the instant of its creation (`FullReviewIff`).
  Without a live reclaim it never is: 150 seconds have gone by (`NoFullReview`). A row that took 30
  days to fail may be gone in the instant it is dead-lettered (`DeadLetteredAndGone`).
- The search escaping leaves the backslash alone, so a search text is literal exactly if it has
  none: `SearchIsLiteralIff`.
- The settings merge is not associative in general: `AssociativeIffNoClash`, `NotAssociative`.
- A repository test is titled as if an unknown root gave an empty list; `findSubtreeIds` answers with
  the root id alone, and so does the model.

## Model

| member | source | states |
|---|---|---|
| OutboxServices.OutboxService.WriteEvents | src/modules/outbox/outbox.service.ts:95-109 | the new rows are pending, with no attempts used, five allowed and no times set; nothing else changes |
| OutboxServices.OutboxDispatcher.ProcessOutbox | src/modules/outbox/outbox-dispatcher.service.ts:109-138 | a poll that finds another one running changes nothing; otherwise the table is reclaimed, a batch of oldest eligible unlocked rows is claimed, and each record's outcome is written in turn up to the first error that escapes; a failing reclaim or claim ends the poll with what was written before it; the flag is down again in every case |
| OutboxServices.OutboxDispatcher.ProcessBatch | src/modules/outbox/outbox-dispatcher.service.ts:126-129 | the loop writes the outcome of every record in order and stops at the first error that escapes, leaving the rest claimed |
| OutboxServices.OutboxDispatcher.ReclaimStuckEvents | src/modules/outbox/outbox-dispatcher.service.ts:354-369 | exactly the rows in processing for five minutes or more become pending with no start time; a failing statement changes nothing |
| OutboxServices.OutboxDispatcher.FetchAndLockPendingEvents | src/modules/outbox/outbox-dispatcher.service.ts:158-192 | the batch is at most fifty eligible rows not locked by others, all of them if there are fewer, none left out older than one taken; exactly these become processing from now; a transaction that does not commit changes nothing and gives no batch |
| OutboxServices.OutboxDispatcher.ProcessEvent | src/modules/outbox/outbox-dispatcher.service.ts:229-265 | a returned handler call and an applied write make the row processed; anything else goes to the failure path, addressed by id and by the retry count held in memory |
| OutboxServices.OutboxDispatcher.HandleEventFailure | src/modules/outbox/outbox-dispatcher.service.ts:291-339 | the last allowed failure dead-letters; an earlier one makes the row claimable again exactly from 5000 * 2^n milliseconds later on, n the new retry count; only this row changes |
| OutboxServices.OutboxCleanupService.CleanupProcessedEvents | src/modules/outbox/outbox-cleanup.service.ts:90-116 | keeps a row exactly unless it was processed seven days ago or earlier |
| OutboxServices.OutboxCleanupService.CleanupDeadLetterEvents | src/modules/outbox/outbox-cleanup.service.ts:118-145 | keeps a row exactly unless it is dead-lettered and was created thirty days ago or earlier |
| OutboxServices.OldestExist | src/modules/outbox/outbox-dispatcher.service.ts:169-177 | the claiming query always has an answer: some set of at most fifty oldest unlocked candidates exists |
| OutboxRefinement.ProcessOutboxIsARun | src/modules/outbox/outbox-dispatcher.service.ts:109-138 | everything ProcessOutbox ensures, the table, the flag and the time it ends, is reached by the legal run of its own statements by one pod, in which claims, reclaims, deliveries and records left without an outcome are those of the poll |
| OutboxRefinement.CallsAreARun | src/modules/outbox/outbox-dispatcher.service.ts:109-138 | any sequence of writes, polls, cleanups and waits, from any state between polls, is a legal run of the transition system that leads where the calls lead, and every kind of event is counted equally in both |
| OutboxRefinement.TakesBalance | src/modules/outbox/outbox-dispatcher.service.ts:295-369 | over any sequence of calls from an empty table: every event inserted, also one deleted since, was taken by polls exactly retryCount + times taken back + [processing] + [processed] times, so at most five times plus once per reclaim |
| OutboxRefinement.DeliveredAtMostOnceByCalls | src/modules/outbox/outbox-dispatcher.service.ts:109-138 | over any sequence of calls in which nothing fails every event is delivered at most once |
| OutboxRefinement.TakenWithinBoundedPolls | src/modules/outbox/outbox-dispatcher.service.ts:109-180 | over any calls, a waiting event is taken within (S + A) / 50 + 1 polls that get a batch, S the attempts left to older rows, A the records left without an outcome by escaping errors |
| OutboxRefinement.NoEscapeAbandonsNothing | src/modules/outbox/outbox-dispatcher.service.ts:126-129 | if no error escapes, A is zero |
| OutboxPlans.Services.Do | src/modules/outbox/outbox-dispatcher.service.ts:109-138 | one task on the objects is one call of the refinement: same table, same time, and what the call requires holds |
| OutboxPlans.Services.Perform | src/modules/outbox/outbox-dispatcher.service.ts:80-138 | a whole plan on the objects, from any table, ends where the calls of the refinement lead, call by call those of the plan |
| OutboxManyPods.StepKeepsInv | src/modules/outbox/outbox-dispatcher.service.ts:158-377 | every statement of every pod, also a stale one, keeps: pending, processing and failed rows have attempts left, dead_letter has none, processing iff a start time is set, failed has a retry time, and batches in memory have attempts left |
| OutboxManyPods.RunKeepsInv | src/modules/outbox/outbox-dispatcher.service.ts:164-180 | so does every run with any number of pods, crashes and lost writes |
| OutboxManyPods.EveryEventAccountedFor | src/modules/outbox/outbox-cleanup.service.ts:90-145 | conservation and at-least-once: table and deleted rows are disjoint and together are exactly the written events; rows are deleted only as processed after 7 days or as dead_letter after 30; every processed or deleted-as-processed row had a handler call that returned |
| OutboxManyPods.NoRowIsStranded | src/modules/outbox/outbox-dispatcher.service.ts:345-369 | every non-terminal row of every reachable state is claimable or reclaimable from some time on |
| OutboxManyPods.ClaimsAreSeparated | src/modules/outbox/outbox-dispatcher.service.ts:149-177 | between two claims of a row, by any pods, its outcome was written or it was reclaimed at least five minutes after the first claim |
| OutboxManyPods.AuditMatchesRun | src/modules/outbox/outbox.service.ts:45-109 | the history knows exactly the events the run wrote |
| OutboxManyPods.DeliveriesMatchRun | src/modules/outbox/outbox-dispatcher.service.ts:240-246 | the recorded deliveries of a row are the handler calls for it that returned in the run |
| OutboxManyPods.DeletedMatchesRun | src/modules/outbox/outbox-cleanup.service.ts:90-145 | the recorded deletions are exactly the rows that steps of the run took out of the table, as they were then |
| OutboxHistory.RowTellsItsHistory | src/modules/outbox/outbox-dispatcher.service.ts:158-377 | every run of any pods: each field of a row in use is what the steps made it, creation, attempts, status, start, processing and retry times, by the write, the last failure and the last step that touched it |
| OutboxHistory.DueIff | src/modules/outbox/outbox-dispatcher.service.ts:166-176 | every run: a row can be claimed at once after it was written or taken back, after the n-th failure exactly from 5000 * 2^n milliseconds on, and otherwise not; it can be taken back exactly from five minutes after its claim on |
| OutboxHistory.RetryDueIff | src/modules/outbox/outbox-dispatcher.service.ts:317-331 | a failure that leaves attempts makes the row claimable exactly from the doubled delay on |
| OutboxHistory.ClaimSize | src/modules/outbox/outbox-dispatcher.service.ts:164-180 | a claim takes fifty rows, or all due rows that are not locked if there are fewer |
| OutboxHistory.ClaimIsHeld | src/modules/outbox/outbox-dispatcher.service.ts:178-185 | and the pod then holds a record of each, in the order returned |
| OutboxStaleWrites.FinishedRowCanChangeIff | src/modules/outbox/outbox-dispatcher.service.ts:249-257 | with any number of pods, a processed or dead-lettered row can still change if and only if some pod holds a record of it other than one about to dead-letter it again |
| OutboxStaleWrites.UnthreatenedIsFinal | src/modules/outbox/outbox-dispatcher.service.ts:297-338 | a finished row nobody holds such a record of stays as it is over every run until cleanup deletes it |
| OutboxStaleWrites.FinishedKeptIff | src/modules/outbox/outbox-cleanup.service.ts:37-38 | a finished row nobody can still write to is kept over all runs until a time t if and only if t comes before the end of its retention |
| OutboxStaleWrites.ProcessedKeptIff | src/modules/outbox/outbox-cleanup.service.ts:90-116 | for a processed row that is seven days after processedAt |
| OutboxStaleWrites.CompletedKeptIff | src/modules/outbox/outbox-cleanup.service.ts:90-116 | the event whose success is written now is kept for seven days from now and no longer |
| OutboxStaleWrites.DeadLetterKeptIff | src/modules/outbox/outbox-cleanup.service.ts:17-25 | a dead-lettered row nobody can still write to is kept over all runs until a time t if and only if t comes before its creation plus 30 days |
| OutboxStaleWrites.FullReviewIff | src/modules/outbox/outbox-cleanup.service.ts:118-145 | the 30 days for review, from the failure that dead-letters on, are kept if and only if the row was created in that same instant |
| OutboxStaleWrites.DeadLetteredAndGone | src/modules/outbox/outbox-cleanup.service.ts:118-145 | if the last failure is written 30 days after creation or later, cleanup may delete the row in that same instant |
| OutboxStaleWrites.ProcessedRowFailsAgain | src/modules/outbox/outbox-dispatcher.service.ts:291-331 | with two pods there is a legal run after which a processed row is failed |
| OutboxStaleWrites.DeliveredTwiceWithoutFailure | src/modules/outbox/outbox-dispatcher.service.ts:149-157 | a concrete legal run of two pods in which nothing fails and one event is delivered twice; the exact condition is in ReclaimIsSafeIff |
| OutboxLiveReclaims.RunKeepsExclusive | src/modules/outbox/outbox-dispatcher.service.ts:354-369 | any number of pods, crashes and lost writes: as long as no reclaim takes back a row some pod holds, every record in memory is of a row in processing with the same retry count, and no row is held twice |
| OutboxLiveReclaims.FinishedStaysWithoutLiveReclaim | src/modules/outbox/outbox-dispatcher.service.ts:291-369 | and a row once processed or dead-lettered never changes again, whatever follows, until cleanup deletes it |
| OutboxLiveReclaims.DeliveredAtMostOnce | src/modules/outbox/outbox-dispatcher.service.ts:149-157 | and if nothing fails either, every event is delivered at most once |
| OutboxLiveReclaims.LiveReclaimDeliversTwice | src/modules/outbox/outbox-dispatcher.service.ts:354-369 | conversely, in any state of the invariant where no handler call has failed, a reclaim that takes back a held row can be followed by a run without failure or further reclaim after which the event has been delivered twice |
| OutboxLiveReclaims.ReclaimIsSafeIff | src/modules/outbox/outbox-dispatcher.service.ts:149-157 | so after any run without failure or live reclaim, the next reclaim keeps every event from being delivered twice if and only if its age test finds no row that a pod still holds |
| OutboxAccounting.RunKeepsCounted | src/modules/outbox/outbox-dispatcher.service.ts:158-369 | any number of pods, without a live reclaim: the counters of every row, deleted ones included, balance all along |
| OutboxAccounting.ClaimsBalance | src/modules/outbox/outbox-dispatcher.service.ts:295-338 | any number of pods, without a live reclaim, every event written, also after its deletion: claims = retryCount + reclaims + [processing] + [processed], so at most five + reclaims; the waits stored in the row by its failures are the backoff sum, at most 5000 (2^5 - 2) = 150000 ms |
| OutboxAccounting.CountsMatchRun | src/modules/outbox/outbox-dispatcher.service.ts:158-369 | claims, reclaims and waits in the history are those of the run |
| OutboxAccounting.NoFullReview | src/modules/outbox/outbox-cleanup.service.ts:118-145 | without a live reclaim every row is at least 150 seconds old when it is dead-lettered, and may be deleted that much before 30 days of review are over |
| OutboxSoleDispatcher.SoleStepKeepsInv | src/modules/outbox/outbox-dispatcher.service.ts:109-138 | with one dispatcher whose polls do not overlap, a record in memory is of a row in processing with the same retry count |
| OutboxSoleDispatcher.OneDispatcherIsEnough | src/modules/outbox/outbox-dispatcher.service.ts:109-116 | one dispatcher whose polls do not overlap never makes a live reclaim |
| OutboxSoleDispatcher.FinishedIsFinal | src/modules/outbox/outbox-dispatcher.service.ts:109-138 | one dispatcher: a processed or dead-lettered row never changes again, whatever follows, until cleanup deletes it |
| OutboxSoleDispatcher.NobodyHoldsARowAtReclaim | src/modules/outbox/outbox-dispatcher.service.ts:111-116 | one dispatcher: when stuck rows are reclaimed no record is in memory, so isRunning rules stale writes out |
| OutboxFairness.SkippedPollsAreBounded | src/modules/outbox/outbox-dispatcher.service.ts:164-180 | one dispatcher: fifty times the polls that pass over a waiting event is at most the attempts left to older rows plus the work cut short by crashes and lost writes |
| OutboxFairness.ClaimedWithinBoundedPolls | src/modules/outbox/outbox-dispatcher.service.ts:109-180 | a waiting event is claimed within (S + A) / 50 + 1 polls, S the attempts left to older non-terminal rows, A the work cut short meanwhile, although failed older rows come back ahead of it |
| OutboxFairness.UnbrokenAbandonsNothing | src/modules/outbox/outbox-dispatcher.service.ts:126-129 | a run without crash and lost failure write leaves no claimed record without an outcome |
| OutboxFairness.SkippingPollTakesElders | src/modules/outbox/outbox-dispatcher.service.ts:169-177 | a poll that passes over an eligible event claims fifty rows, each no younger |
| TenantOnboarding.IdempotencyService.IsAlreadyProcessed | src/modules/outbox/idempotency.service.ts:80-112 | true exactly if the query answered and the pair of event and handler is recorded; an error counts as no |
| TenantOnboarding.IdempotencyService.MarkAsProcessed | src/modules/outbox/idempotency.service.ts:123-148 | records the pair now unless it is recorded already; an error leaves the table alone |
| TenantOnboarding.IdempotencyService.CleanupOldRecords | src/modules/outbox/idempotency.service.ts:160-171 | deletes exactly the records at least that many days old and says how many |
| TenantOnboarding.CleanupPurgesMarks | src/modules/outbox/idempotency.service.ts:160-171 | with the default retention of thirty days the cleanup is the purge of the transition system |
| TenantOnboarding.TenantOnboardingService.HandleTenantCreated | src/modules/tenant/services/tenant-onboarding.service.ts:52-129 | a recorded event is skipped, failing steps leave with an error and no mark, otherwise the event is marked; no other record changes |
| TenantOnboarding.HandlerIsARun | src/modules/tenant/services/tenant-onboarding.service.ts:52-129 | one call by worker w is the legal run of w's own check, act and mark, at most one of each; it leads to the marks the call leaves and no delivery; the body completes once if the call succeeds, never if it skips or fails, and never for another event |
| TenantOnboarding.CallsAreARun | src/modules/tenant/services/tenant-onboarding.service.ts:52-129 | any sequence of handler calls, cleanups and waits of one dispatcher is a run of one worker in which the same things happen equally often |
| TenantOnboarding.CallsAreBounded | src/modules/outbox/idempotency.service.ts:80-171 | the objects: over any sequence of calls the body completes for an event at most 1 + failed checks + lost marks + purged marks times |
| TenantOnboarding.Perform | src/modules/tenant/services/tenant-onboarding.service.ts:52-129 | any calls carried out one after the other on the objects end with the marks and the time the sequence of calls leads to |
| Idempotency.BodiesBalance | src/modules/tenant/services/tenant-onboarding.service.ts:59-128 | any number of workers, counted on the run: each completed body is the mark present, or a mark purged, lost, refused as duplicate or not yet written |
| Idempotency.BodiesAreBounded | src/modules/outbox/idempotency.service.ts:80-171 | one dispatcher: in any run the body completes at most 1 + failed checks + lost marks + purged marks of that run times |
| Idempotency.MarkedCanCompleteIff | src/modules/outbox/idempotency.service.ts:20-22 | in every state with the mark, with no check failing and no purge, the body can complete n more times if and only if n deliveries have checked and not acted |
| Idempotency.AnotherBodyIff | src/modules/outbox/idempotency.service.ts:20-22 | so it can complete once more if and only if some delivery of the event has checked and not acted |
| Idempotency.BodiesAreLimitedIff | src/modules/outbox/idempotency.service.ts:16-22 | in every state, with no check failing and no purge, the number of completions to come is limited if and only if the mark is there |
| Idempotency.MarkedBodiesAtMost | src/modules/outbox/idempotency.service.ts:80-112 | over every run without a failed check or a purge that starts with the mark, completions plus deliveries still ready are at most the deliveries ready at its start, and the mark stays |
| Idempotency.TwoWorkersActTwice | src/modules/outbox/idempotency.service.ts:20-22 | for any two idle workers and any unmarked event: check, check, act, act, mark, mark is a legal run with two completions and one refused mark, no failed check, no lost mark and no purge |
| Idempotency.MarkedUntilIff | src/modules/outbox/idempotency.service.ts:160-171 | a mark is there until a time t over all runs if and only if t comes before thirty days from when it was written |
| Idempotency.MarkProtectsFor | src/modules/outbox/idempotency.service.ts:123-148 | a delivery that marks protects for thirty days from now; an older mark keeps its own time |
| DepartmentForest.MoveMakesCycleIff | src/modules/department/services/department.service.ts:195-207 | in a forest, giving `id` the parent `p` makes a cycle if and only if `p` is in the subtree of `id` |
| DepartmentForest.InsertKeepsAcyclic | src/modules/department/services/department.service.ts:61-67 | where parents exist, a new department that is not its own parent makes no cycle |
| DepartmentForest.TenantSubtree | src/modules/department/repositories/department.repository.ts:189-190 | where parents exist and stay inside the tenant, the subtree computed from the rows of one tenant is the subtree in the whole table |
| DepartmentForest.DescentNeverEndsIff | src/modules/department/services/department.service.ts:480-489 | there are departments at every depth below x, so that descending from x never ends, if and only if x is on a cycle |
| DepartmentRepository.DepartmentRepo.Create | src/modules/department/repositories/department.repository.ts:26-32 | adds exactly the given row |
| DepartmentRepository.DepartmentRepo.FindById | src/modules/department/repositories/department.repository.ts:38-50 | finds the row of this id if it belongs to the tenant |
| DepartmentRepository.DepartmentRepo.FindAllForTenant | src/modules/department/repositories/department.repository.ts:132-138 | lists every department of the tenant once, in some order, and no other |
| DepartmentRepository.DepartmentRepo.CountActiveChildren | src/modules/department/repositories/department.repository.ts:163-178 | counts the active direct children in the tenant |
| DepartmentRepository.DepartmentRepo.BuildChildrenMap | src/modules/department/repositories/department.repository.ts:189-202 | for every parent the map holds exactly the ids of its children, in list order, and nothing for the others |
| DepartmentRepository.DepartmentRepo.FindSubtreeIds | src/modules/department/repositories/department.repository.ts:189-214 | with no visited set the search ends whenever the root is not on a cycle; it returns no id twice, and exactly the root and all that lies below it in the tenant |
| DepartmentRepository.DepartmentRepo.Update | src/modules/department/repositories/department.repository.ts:220-236 | replaces the row if the tenant has it, else changes nothing and says so |
| DepartmentRepository.DepartmentRepo.ClearManager | src/modules/department/repositories/department.repository.ts:245-258 | removes this manager from every department of the tenant that has it; nothing else changes |
| DepartmentRepository.SearchEndsIff | src/modules/department/repositories/department.repository.ts:203-213 | the queue is empty after some number of rounds if and only if the root is not on a cycle |
| DepartmentRepository.SearchGoesOn | src/modules/department/repositories/department.repository.ts:203-213 | begun on a cycle, the queue holds an id of a cycle after every number of rounds |
| DepartmentRepository.SearchReturnsSubtree | src/modules/department/repositories/department.repository.ts:203-213 | an ended search has returned each department of the subtree once and no other |
| DepartmentRepository.SearchIsComplete | src/modules/department/repositories/department.repository.ts:203-213 | once the queue is empty, everything from which one climbs to the root has been returned |
| DepartmentRepository.SearchIsBounded | src/modules/department/repositories/department.repository.ts:203-213 | while the queue is not empty, fewer ids have been returned than there are departments in the tenant and the root: the measure that ends the loop |
| DepartmentTree.BuildTreeIsTheMirror | src/modules/department/services/department.service.ts:480-489 | the built forest is the only one in which every sibling list is the rows with that parent in the order given |
| DepartmentTree.FlattenOf | src/modules/department/services/department.service.ts:480-489 | the tree shows no department twice and exactly those below the starting point |
| DepartmentTree.TreeShowsAllIff | src/modules/department/services/department.service.ts:480-489 | the whole tree shows every department if and only if there is neither a cycle nor a parent reference that leads nowhere |
| DepartmentTree.TreeIsPermutation | src/modules/department/services/department.service.ts:480-489 | on a forest the tree from the top is a permutation of the listed departments |
| DepartmentTree.TreeAgreesWithSearch | src/modules/department/repositories/department.repository.ts:189-214 | below any node the tree shows, apart from the node itself, exactly what the search from that node returns |
| OrganisationInvariants.RequestKeepsInv | src/modules/department/services/department.service.ts:43-446 | every department and employee request keeps the joint invariant: forest with existing same-tenant parents, active departments under active parents, managers and employees as in the rows below |
| OrganisationInvariants.RunKeepsInv | src/modules/employee/services/employee.service.ts:61-501 | so does every run of requests from empty tables |
| OrganisationInvariants.CycleGuardIsExact | src/modules/department/services/department.service.ts:186-213 | in every reachable state, a move to an existing active parent is rejected as circular if and only if it would make a cycle |
| OrganisationInvariants.InactiveSubtreeIsEmpty | src/modules/department/services/department.service.ts:341-390 | in every reachable state, nothing in the whole subtree of an inactive department is active, has a manager, or employs anybody not terminated, although deactivation checks one level only |
| OrganisationInvariants.CrossModuleFacts | src/modules/employee/services/employee.service.ts:445-486 | in every reachable state: the parent relation is a forest with same-tenant parents; a manager is a same-tenant employee neither suspended nor terminated, of an active department; terminated iff a termination date is set; one profile per user and tenant |
| OrganisationInvariants.DeactivationGuardIsExact | src/modules/department/services/department.service.ts:353-370 | in every reachable state an active department may be deactivated if and only if nothing in its whole subtree is active below it and nobody not terminated belongs to the subtree |
| OrganisationInvariants.ReactivationGuardIsExact | src/modules/department/services/department.service.ts:407-425 | in every reachable state an inactive department may be reactivated if and only if every department above it is active |
| OrganisationInvariants.ReactivateUndoesDeactivate | src/modules/department/services/department.service.ts:396-446 | reactivating right after a deactivation is accepted and restores the department except its manager |
| OrganisationEffects.RequestIsServed | src/modules/department/services/department.service.ts:43-446 | every request on tables that satisfy the invariant: it is granted exactly if none of its objections holds, otherwise refused with the first that does and nothing changes; granted, it has just the effect it asks for and emits one event, or none if it asks for what is there |
| OrganisationEffects.RequestIsAnswered | src/modules/department/services/department.service.ts:148-223 | the objections are said of the whole forest: a move is refused as circular exactly if it would close a cycle, a reactivation if any department above is inactive |
| OrganisationEffects.GrantedRequestTakesEffect | src/modules/department/services/department.service.ts:195-230 | a granted request sets the fields it gives, name, parent, manager, activity, department, status and termination date, keeps the others, and changes no other row but for managers who leave |
| OrganisationEffects.RefusedRequestChangesNothing | src/modules/department/services/department.service.ts:148-223 | a refused request leaves tables and log as they were |
| OrganisationEffects.TransitionsAre | src/modules/employee/constants/employee-status.constants.ts:31-63 | nobody comes back from termination, everybody else can be terminated or become active, and only from active all else is possible |
| OrganisationReplay.RequestIsObserved | src/modules/employee/services/employee.service.ts:434-501 | a request changes nothing and emits nothing, or emits one event that, applied to the tables, gives the new tables, silent manager clearing included, and whose "from" values are the old ones |
| OrganisationReplay.ReplayRebuildsTables | src/modules/department/services/department.service.ts:73-446 | for every run, replaying the emitted events in order gives the department and employee tables, and every "from" agrees with the replay so far |
| OrganisationServices.EventBus.EmitAsync | src/common/events/event-bus.service.ts:44-57 | the event is added at the end of the log |
| OrganisationServices.EmployeeRepo.Create | src/modules/employee/repositories/employee.repository.ts:26-36 | adds exactly the given row |
| OrganisationServices.EmployeeRepo.FindById | src/modules/employee/repositories/employee.repository.ts:38-49 | finds the employee of this id in the tenant |
| OrganisationServices.EmployeeRepo.FindByUserId | src/modules/employee/repositories/employee.repository.ts:51-68 | says whether the user has a profile in the tenant |
| OrganisationServices.EmployeeRepo.CountActiveByDepartment | src/modules/employee/repositories/employee.repository.ts:151-169 | counts the not terminated employees assigned to the department in the tenant |
| OrganisationServices.EmployeeRepo.Update | src/modules/employee/repositories/employee.repository.ts:191-202 | replaces the row if the tenant has it, else changes nothing and says so |
| OrganisationServices.DepartmentService.ValidateParentDepartment | src/modules/department/services/department.service.ts:459-473 | the parent must exist in the tenant and be active, with the error each failure gives |
| OrganisationServices.DepartmentService.CreateDepartment | src/modules/department/services/department.service.ts:43-85 | tables, log and answer are those of the create request; the invariant is kept |
| OrganisationServices.DepartmentService.UpdateDepartment | src/modules/department/services/department.service.ts:148-234 | refused with the first objection that holds; otherwise name and parent are as the request gives them, nothing else changes, and one event is emitted if anything changed; the invariant is kept |
| OrganisationServices.DepartmentService.ValidateNewParent | src/modules/department/services/department.service.ts:191-207 | missing, inactive and circular parents give their own errors, self and subtree by the search |
| OrganisationServices.DepartmentService.AssignManager | src/modules/department/services/department.service.ts:243-284 | an active department gets the manager and an event with the old and the new one |
| OrganisationServices.DepartmentService.RemoveManager | src/modules/department/services/department.service.ts:289-327 | the manager is removed and an event says who it was; without a manager nothing happens |
| OrganisationServices.DepartmentService.DeactivateDepartment | src/modules/department/services/department.service.ts:341-390 | refused while inactive, with active direct children, or with employees counted by the caller; otherwise inactive without a manager |
| OrganisationServices.DepartmentService.ReactivateDepartment | src/modules/department/services/department.service.ts:396-446 | refused while active or under a missing or inactive parent; otherwise active again |
| OrganisationServices.DepartmentService.GetDepartmentTree | src/modules/department/services/department.service.ts:120-124 | in every state that satisfies the invariant the tree is a permutation of the departments of the tenant, siblings mirrored |
| OrganisationServices.DepartmentController.AssignManager | src/modules/department/controllers/department.controller.ts:154-176 | only an employee of the tenant neither suspended nor terminated becomes manager; the invariant is kept |
| OrganisationServices.DepartmentController.DeactivateDepartment | src/modules/department/controllers/department.controller.ts:205-220 | the service gets the count of not terminated employees; the invariant is kept |
| OrganisationServices.EmployeeFacade.IsEmployeeActive | src/modules/employee/facades/employee.facade.ts:89-98 | true exactly for an employee of the tenant neither suspended nor terminated |
| OrganisationServices.EmployeeFacade.CountActiveInDepartment | src/modules/employee/facades/employee.facade.ts:104-109 | counts the not terminated employees assigned to the department in the tenant |
| OrganisationServices.DepartmentFacade.IsDepartmentValid | src/modules/department/facades/department.facade.ts:45-51 | true exactly for an active department of the tenant |
| OrganisationServices.DepartmentFacade.ClearEmployeeAsManager | src/modules/department/facades/department.facade.ts:57-65 | removes this manager from every department of the tenant that has it; nothing else changes |
| OrganisationServices.DepartmentFacade.GetDepartmentSubtreeIds | src/modules/department/facades/department.facade.ts:71-76 | on a forest with same-tenant parents, as every reachable table is: each department of the whole subtree once and no other; for an id the tenant does not have, that id alone |
| OrganisationServices.EmployeeService.CreateEmployee | src/modules/employee/services/employee.service.ts:61-165 | tables, log and answer are those of the create request, with its four checks in order; the invariant is kept |
| OrganisationServices.EmployeeService.UpdateEmployee | src/modules/employee/services/employee.service.ts:216-308 | tables, log and answer are those of the update request; the invariant is kept |
| OrganisationServices.EmployeeService.ChangeStatus | src/modules/employee/services/employee.service.ts:434-501 | only allowed transitions; suspension and termination clear the employee as manager everywhere, termination sets a date; the invariant is kept |
| AuthServices.RefreshTokenRepository.Create | src/modules/auth/repositories/refresh-token.repository.ts:20-26 | adds exactly the given token |
| AuthServices.RefreshTokenRepository.FindByTokenHash | src/modules/auth/repositories/refresh-token.repository.ts:28-35 | finds the stored token presented, revoked or not |
| AuthServices.RefreshTokenRepository.RevokeToken | src/modules/auth/repositories/refresh-token.repository.ts:37-49 | revokes exactly this token |
| AuthServices.RefreshTokenRepository.RevokeFamily | src/modules/auth/repositories/refresh-token.repository.ts:55-64 | revokes exactly the tokens of the family, rewriting the reason of those revoked before |
| AuthServices.RefreshTokenRepository.RevokeAllForUser | src/modules/auth/repositories/refresh-token.repository.ts:70-84 | revokes exactly the live tokens of the user in all tenants |
| AuthServices.RefreshTokenRepository.RevokeAllForUserInTenant | src/modules/auth/repositories/refresh-token.repository.ts:90-109 | revokes exactly the live tokens of the user in the tenant |
| AuthServices.RefreshTokenRepository.DeleteExpired | src/modules/auth/repositories/refresh-token.repository.ts:115-121 | deletes exactly the tokens expired by now and says how many |
| AuthServices.UserRepository.FindById | src/modules/auth/repositories/user.repository.ts:14-21 | finds the user of this id |
| AuthServices.UserRepository.Create | src/modules/auth/repositories/user.repository.ts:32-41 | a new user is active, with no failed attempt and no lock |
| AuthServices.UserRepository.UpdatePassword | src/modules/auth/repositories/user.repository.ts:43-53 | clears counter and lock of this user |
| AuthServices.UserRepository.IncrementFailedAttempts | src/modules/auth/repositories/user.repository.ts:55-63 | adds one to the counter of this user and answers with it; zero for an unknown user |
| AuthServices.UserRepository.LockAccount | src/modules/auth/repositories/user.repository.ts:65-70 | sets the lock of this user |
| AuthServices.UserRepository.ResetFailedAttempts | src/modules/auth/repositories/user.repository.ts:72-81 | clears counter and lock of this user |
| AuthServices.TokenService.GenerateTokenPair | src/modules/auth/services/token.service.ts:28-74 | stores one live token for the owner, in the given family or a new one |
| AuthServices.TokenService.RotateRefreshToken | src/modules/auth/services/token.service.ts:76-110 | answers with the owner if and only if the token is stored, live and not expired, and then has revoked just it; a revoked one revokes its family, an expired one itself, an unknown one nothing |
| AuthServices.TokenService.RevokeAllTokens | src/modules/auth/services/token.service.ts:112-114 | revokes the live tokens of the user in the tenant as logged out |
| AuthServices.TokenService.RevokeAllUserTokens | src/modules/auth/services/token.service.ts:116-118 | revokes the live tokens of the user everywhere |
| AuthServices.TokenService.CleanupExpiredTokens | src/modules/auth/services/token.service.ts:128-130 | deletes exactly the tokens expired by now |
| AuthServices.AuthService.Login | src/modules/auth/services/auth.service.ts:58-185 | one step of the model; each of the five answers exactly when its check is the first to fail, tokens exactly when all pass, and then the counter and the lock are clear and the token is stored live for this user and tenant |
| AuthServices.AuthService.HandleFailedLogin | src/modules/auth/services/auth.service.ts:368-387 | one more failed attempt, and from the fifth on a lock of thirty minutes from now |
| AuthServices.AuthService.RefreshTokens | src/modules/auth/services/auth.service.ts:213-281 | one step of the model; each answer exactly when its check is the first to fail; on success the presented token is revoked as rotated and the new one is stored for the same owner and family with its own expiry |
| AuthServices.AuthService.Logout | src/modules/auth/services/auth.service.ts:287-292 | one step of the model |
| AuthServices.AuthService.ChangePassword | src/modules/auth/services/auth.service.ts:298-337 | one step of the model, accepted if and only if the user exists, the current password is right and the new one differs |
| AuthServices.PasswordResetService.ForgotPassword | src/modules/auth/services/password-reset.service.ts:42-92 | an active user gets an unused reset token for one hour; anybody else changes nothing |
| AuthServices.PasswordResetService.ResetPassword | src/modules/auth/services/password-reset.service.ts:97-153 | one step of the model, accepted if and only if the reset token is stored, unused and not expired |
| TokenFamilies.StepKeepsInv | src/modules/auth/services/token.service.ts:28-118 | every request keeps: tokens handed out are distinct, families are linear chains, a live token is the newest of its family |
| TokenFamilies.RunKeepsInv | src/modules/auth/services/token.service.ts:28-118 | so does every run |
| TokenFamilies.NothingYet | src/modules/auth/repositories/refresh-token.repository.ts:14-18 | empty tables satisfy the invariant |
| TokenFamilies.IssuedMatchesRun | src/modules/auth/repositories/refresh-token.repository.ts:20-26 | the record of issued tokens is exactly what the requests of the run put into the token table, with owner, family and the token presented for it |
| TokenFamilies.FamiliesAreChains | src/modules/auth/services/token.service.ts:54-64 | a family is one linear chain, each token exchanged for the one before, of one user and tenant; only the newest can be live |
| SessionRevocation.EachTokenRotatesOnce | src/modules/auth/services/token.service.ts:89-103 | after a rotation and any further run, the same token does not rotate again |
| SessionRevocation.ReplayEndsTheFamily | src/modules/auth/services/token.service.ts:89-95 | after a revoked token is presented and any further run, no token of its family rotates |
| SessionRevocation.EndedSessionsNeedANewLogin | src/modules/auth/services/auth.service.ts:287-337 | after logout, password change, password reset or a refresh by a deactivated user, and any further run, a token of that user (and tenant) that rotates is of a family started later |
| SessionRevocation.TokenLivesIff | src/modules/auth/repositories/refresh-token.repository.ts:37-121 | a live token is live after a run if and only if no request in the run presented it, replayed a revoked token of its family, ended the sessions of its owner, or deleted it as expired |
| SessionRevocation.EachResetTokenWorksOnce | src/modules/auth/services/password-reset.service.ts:103-137 | once a reset token has changed a password it is never valid again |
| TokenLifetimes.TokenWorksIff | src/modules/auth/services/token.service.ts:52-64 | a token handed out by a login or a refresh can be exchanged after any further run exactly until it expires and unless a request of the run hit it |
| TokenLifetimes.TokenBelongsToItsOwner | src/modules/auth/services/token.service.ts:56-64 | and as long as it is stored it is of the user, tenant and family of the login or of the token exchanged |
| TokenLifetimes.TokenEntersIff | src/modules/auth/services/auth.service.ts:58-281 | a request puts a token into the table exactly if it passes every check of a login or refresh, and then just its own |
| TokenLifetimes.RevokedForTheReason | src/modules/auth/services/token.service.ts:89-118 | the reason stored with a token that is revoked is what ended it |
| TokenLifetimes.RevokedStaysUnlessReplayed | src/modules/auth/repositories/refresh-token.repository.ts:55-109 | a revoked token stays as it is, except that a replay in its family overwrites the reason |
| TokenLifetimes.ResetWorksIff | src/modules/auth/services/password-reset.service.ts:42-137 | a reset token that an active user asked for changes that password exactly within one hour and unless it was presented before, and nobody else's |
| TokenLifetimes.NoResetForOthers | src/modules/auth/services/password-reset.service.ts:42-60 | an unknown or inactive user gets none |
| Lockout.RunKeepsCounted | src/modules/auth/services/auth.service.ts:373-384 | without a reset the counter has counted every failed check, and from five on the lock runs from the last one |
| Lockout.KthFailureIsLate | src/modules/auth/services/auth.service.ts:78-91 | over any run without a reset, from any state: with F = max(1, 5 - counter) the k-th failed check, k of F or more, is at least k - F lockouts after the F-th |
| Lockout.FailuresInWindow | src/modules/auth/services/auth.service.ts:368-384 | over any run without a reset, from any state, and for every W, at most F + W / lockout checks fail within W ms of the first that does |
| Lockout.BoundIsReached | src/modules/auth/services/auth.service.ts:78-91 | the bound is met for every counter: from any state in which the user can log in and for every k of F or more there is a run whose k-th failed check is exactly k - F lockouts after the first |
| AccountHistory.AccountTellsItsHistory | src/modules/auth/services/auth.service.ts:78-161 | every run, resets included: an account is active as last set, its counter is the failed checks since the last successful login or password change, and it is locked for thirty minutes from the last of five or more |
| AccountHistory.AdmittedIff | src/modules/auth/services/auth.service.ts:66-82 | so a password is looked at exactly for a registered active user with fewer than five failures since the last success, or with the last of them thirty minutes ago |
| AccountHistory.SuccessClears | src/modules/auth/services/auth.service.ts:161-161 | after a successful login, password change or reset five checks may fail again, and an active user can log in at once |
| DeepMerge.DeepMerge | src/modules/tenant/repositories/tenant.repository.ts:220-245 | the loop over the source's keys terminates and gives the merge of the two objects |
| DeepMerge.TenantRepository.UpdateSettings | src/modules/tenant/repositories/tenant.repository.ts:198-209 | an unknown tenant changes nothing; otherwise only this tenant's settings become the merge of the old ones, or of nothing, with the changes |
| DeepMerge.MergeAtPath | src/modules/tenant/repositories/tenant.repository.ts:226-242 | along every path: a leaf of the source wins, an object of the source merges with an object of the target, and what the source does not mention is kept unless the source has a leaf higher up |
| DeepMerge.MergeTwice | src/modules/tenant/repositories/tenant.repository.ts:220-245 | merging the same source again changes nothing |
| DeepMerge.AssociativeIffNoClash | src/modules/tenant/repositories/tenant.repository.ts:230-241 | three merges associate if and only if on no path the first has an object, the second a non-object, the third an object that does not cover the first |
| DeepMerge.AbsorbsIffCovers | src/modules/tenant/repositories/tenant.repository.ts:226-242 | merging into `a` leaves just `c` if and only if `c` mentions all that `a` does |
| DeepMerge.NotAssociative | src/modules/tenant/repositories/tenant.repository.ts:230-241 | setting an object to null and then to an empty object breaks associativity |
| LikePattern.SearchIsLiteral | src/modules/tenant/repositories/tenant.repository.ts:112-126 | without a backslash in the search, ILIKE with the built pattern matches exactly the names whose folding contains the folded search |
| LikePattern.SearchIsLiteralIff | src/modules/tenant/repositories/tenant.repository.ts:116-123 | that holds for all names if and only if the search has no backslash |
| LikePattern.BackslashBreaksSearch | src/modules/tenant/repositories/tenant.repository.ts:116-118 | for every search with a backslash there is a name found that does not contain it |
| LikePattern.SanitizeCons | src/modules/tenant/repositories/tenant.repository.ts:116-118 | the two replacement passes together escape each percent sign and underscore once and nothing else |
| Pagination.Parse | src/common/utils/pagination.util.ts:25-31 | a page of 1 or more is taken as it is, all else is page 1; a size from 1 to 100 is taken as it is, larger ones give 100, negative ones 1, none or zero 20 |
| Pagination.TotalPagesIsLeast | src/common/utils/pagination.util.ts:42-42 | the number of pages is the least with room for everything |
| Pagination.PagesConcatenate | src/common/utils/pagination.util.ts:25-55 | pages 1 to the last, one after the other, are the list |
| Pagination.PageSizes | src/common/utils/pagination.util.ts:36-55 | pages before the last are full, the last is not empty, later ones are; hasNext exactly if the next page holds something, hasPrevious exactly after the first |

## Left out

- HTTP, dependency injection, guards, validation of request bodies, logging, Redis, queues, row-level security: plumbing around libraries.
- Partial failure inside one department, employee or auth request, and two such requests interleaving: a request is one step.
- Transactional event writes with a client (`writeEventWithClient`, `writeEventsWithClient`): inside the caller's transaction they insert the same rows.
- Event payloads, tenant context and error messages of outbox rows: no modelled statement decides on them.
- Row locks in the database: a claim may skip any set of rows taken as locked, and otherwise a statement is atomic.
- The order of records inside a claimed batch: the statement returns none, so all orders are covered.
- Uniqueness of department names and employee numbers: the lookups use the raw text as a pattern, so their answers are inputs.
- Profile fields, salary and salary history, employment type, locale and the self-service profile: an update of these is one boolean; no guard depends on them.
- Mobile devices, including their deactivation on termination: reactivation bypasses the limits, so there is no invariant to keep.
- EmployeeRepository.reassignDepartment: nothing calls it, and it would bypass the department check.
- Who may send which request: roles, permissions, plan limits and feature resolution.
- Access tokens (JWT) and the parsing of their lifetime; e-mail addresses, which stand for user ids. The lifetime of refresh tokens is configured in days, so when one expires is an input.
- Passwords and hashes: the comparison is an input.
- The order of siblings by name: the tree keeps whatever order the list has.
- The key `__proto__` and undefined values in settings: settings are JSON objects.
- Case folding that changes the length of a text: folding works one character at a time.
- Page numbers that are not whole: validation refuses them before this code.
- DepartmentRepository.DepartmentRepo.FindAllForTenant: lists the rows in some order, where the query orders by name; the collation of the name column is not part of the repository.
- OrganisationServices.EventBus.EmitAsync: appends to a log, where the service writes a pending outbox row and passes a failing write on to its caller; OutboxServices.OutboxService.WriteEvents models that row, and a request is one step.
- OrganisationServices.EmployeeService.UpdateEmployee: whether any profile field changes is one boolean, and the event names the department change alone.
