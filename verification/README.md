# PMV3 engine and repair tooling: a Dafny model

This project models the durable work engine of PMV3, the tools around it that change
production, and proves properties of them that hold over whole runs.

- **Work engine and scheduler** (`Wrappers`, `Text`, `WorkItems`, `Runs`, `Histories`, `RunInvariants`,
  `Admissions`, `RunTheorems`, `Cycles`, `Steps`, `Fairness`, `Limits`, `Scheduler`). An item moves through runnable,
  running, waiting, retry-wait, blocked, complete and externally failed. A `World` is the state
  file, the dictionary in memory, the point the process has reached, and the trace of what it
  did. A run is any sequence of steps from an empty state file: load, admit, record an approval,
  begin a cycle, claim, write, call the handler, return, write again, finish, write, and a crash
  between any two of them. A handler may answer anything; a handler that raises is a crash. The
  class `Scheduler` is the program as it is written, with its dictionaries, loops and
  checkpoints, and is proved to take exactly the steps of the state machine.
- **Live container deployment** (`Deployment`). Docker is a map from names to containers and a
  map from tags to images; every command may fail, and `Docker.Deploy` compensates.
- **Incidents and the self-heal watchdog** (`Incidents`, `Watchdog`). Symptoms are correlated
  into incidents, a memory counts how often each family came back, and the watchdog tick keeps
  a recovery budget across ticks.
- **Repair runner** (`RepairRunner`). A request is checked, deployed, verified, rolled back if
  necessary and labelled; the spool is drained oldest first.
- **Engineering controller** (`Controller`). Bounded passes with stall detection.
- **Evidence turns** (`Evidence`). A batch of source reads and searches under per-request and
  global caps, and the context built from it.

What the model found where the code does not keep what one would expect. Each point has a
lemma, and the exact condition where the code does keep it:

- A recorded denial can be lost to a crash, and the item is then called on the older approval
  (`Limits.DenialCanBeLost`; exactly when: `RunTheorems.LastDecisionStandsExactly`).
- "Retry exhausted" is not final and attempts have no bound (`Limits.AttemptsHaveNoBound`,
  `Limits.ExhaustedIsReleasedExactly`).
- Action keys of different ids can coincide (`Limits.KeyIsSharedExactly`).
- The third retry delay of 120 seconds that the comment at `tools/pmv3_work_engine.py:284`
  announces is never reached (`RunTheorems.RetriesAreBoundedAndDelayed`).
- Waiting is bounded as long as the unfinished items of higher priority stay fewer than the
  capacity (`Fairness.BoundedWaiting`), and without any bound as soon as that many of them are
  ready (`Fairness.Starvation`).
- A deployment whose stop or rename fails removes the original container
  (`Deployment.FailedRenameRemovesLive`; exactly when it is kept:
  `Deployment.FailureKeepsOriginalExactly`), and restoration removes a tag that could not be read
  beforehand (`Deployment.RestorationIsCompleteExactly`).
- The recovery budget is given back by every recovery that changes the failures without
  clearing them (`Watchdog.BudgetOfOneTick`, `Watchdog.ShiftingDefeatsTheBudget`), and a failure
  that recovery clears every time is not counted as recurring
  (`Watchdog.ClearedFailuresCountOnce`).
- Being absorbed into another incident counts as being cleared
  (`Incidents.AbsorptionLooksLikeRecurrence`), and the stored clearing time moves on with every
  later tick (`Incidents.ClearingTimeIsExactOnlyAtFirst`).
- A deployment script that fails is not rolled back, and no result ever reports a rollback
  (`RepairRunner.FailedScriptIsNotRolledBack`; exactly when there is one:
  `RepairRunner.RequestsAreRolledBackExactly`).
- Progress that alternates is not recognised as a stall (`Controller.AlternationIsNotAStall`).
- A policy that keeps few receipts leaves sources without one (`Evidence.ReceiptsCanBeMissing`,
  `Evidence.ReceiptIsKeptExactly`).

## Model

| member | source | states |
|---|---|---|
| Text.LessIsTotal | tools/pmv3_work_engine.py:279 | the order in which ids break ties of the sort decides between any two different ids |
| Text.LessIsTransitive | tools/pmv3_work_engine.py:279 | the order of ids is transitive |
| Text.DecimalIsInjective | tools/pmv3_work_engine.py:107-109 | two generations written in decimal are different texts |
| WorkItems.SortRanks | tools/pmv3_work_engine.py:279 | the sort returns exactly the given ranks, each once, in strictly increasing order of priority, update time and id |
| Text.ContainsIsBeingMadeOf | tools/pmv3_work_engine.py:223-237 | a term occurs in a text exactly when the text is made of something, the term, and something |
| Text.StripTakesBlanks | tools/issue_resolution_engine.py:89-90 | stripping takes blanks off both ends and all of them |
| WorkItems.RunnableItems | tools/pmv3_work_engine.py:271-280 | the selection is no longer than the capacity less the active items |
| Runs.RecoverItemKeeps | tools/pmv3_work_engine.py:358-372 | recovery leaves no item active, and each a well-formed successor: identity and phase of finished items stay, attempts do not fall |
| Runs.RecheckItemKeeps | tools/pmv3_work_engine.py:245-268 | re-evaluation leaves each item a well-formed successor in the same sense |
| Runs.ApplyOutcomeKeeps | tools/pmv3_work_engine.py:288-340 | whatever the handler answers, the item stays well formed (a retry-wait is below the limit and has its due time), is no longer active and succeeds the item as it was |
| Runs.AdmitKeeps | tools/pmv3_work_engine.py:121-163 | admission keeps the inventory sound and forgets no item, no receipt and no finished phase |
| Runs.RecordKeeps | tools/pmv3_work_engine.py:166-203 | recording an approval keeps the inventory sound and forgets no item, no receipt and no finished phase |
| Runs.PrepareKeeps | tools/pmv3_work_engine.py:353-374 | recovery and re-evaluation leave a sound inventory without an active item |
| Runs.SelectionIsQueue | tools/pmv3_work_engine.py:271-280 | what is selected are distinct items that are ready in the inventory they were selected from |
| Runs.ClaimKeeps | tools/pmv3_work_engine.py:376-390 | the next selected item is in the inventory, and taking it keeps every invariant of the process state |
| Runs.ReturnKeeps | tools/pmv3_work_engine.py:392-399 | storing receipt and outcome leaves no active item and the rest of the queue ready |
| Runs.StepKeeps | tools/pmv3_work_engine.py:343-405 | every step, crashes included, keeps at most one active item, no receipt under an active key, and the file a predecessor of the memory |
| Runs.RunKeeps | tools/pmv3_scheduler.py:131-157 | soundness holds after every run of steps |
| Histories.HeldStep | tools/pmv3_work_engine.py:358-401 | every step keeps interrupted non-idempotent work sealed by a receipt, active on disk, or parked for reconciliation |
| Histories.DueStep | tools/pmv3_work_engine.py:256-261 | every step before the due time keeps a scheduled retry parked, in memory and on disk |
| Histories.CountsStep | tools/pmv3_work_engine.py:384-392 | every step keeps stored attempts equal to the claims written and the calls bounded by them |
| Histories.ApprovalsStep | tools/pmv3_work_engine.py:166-220 | every step keeps the stored decisions equal to the last ones in the lineage of the file and of the memory |
| RunInvariants.CycleStep | tools/pmv3_work_engine.py:376-399 | every step keeps the calls of the current cycle a subsequence of its selection, in order |
| RunInvariants.TrackedStep | tools/pmv3_work_engine.py:343-405 | every step keeps all invariants about histories together |
| RunInvariants.RunIsTracked | tools/pmv3_scheduler.py:131-157 | every run from an empty state file has all of these invariants |
| Admissions.EnteredStep | tools/pmv3_scheduler.py:31-52 | every step keeps the items on disk and in memory those of the first entries taken in under each id, with the flags of these entries, and a waiting item gated by its dependency |
| Admissions.RunIsEntered | tools/pmv3_scheduler.py:131-157 | every run from an empty state file has this invariant |
| Admissions.ItemsCarryTheirEntries | tools/pmv3_scheduler.py:31-52 | in every run an id is known on disk, or in memory, exactly when an entry for it was taken in and not lost, and its item has the action, priority (0 read as 100), approval flags, request id and idempotence of the first such entry |
| Admissions.CallsCarryTheirEntries | tools/pmv3_work_engine.py:376-392 | every call is for such an entry, the entry is approved, the item handed over has its flags, and the key is its id, its action and generation 1 |
| Admissions.NewItemsStartAsTheirEntriesSay | tools/pmv3_work_engine.py:121-163 | in every run a new item has the flags of its entry, waits exactly when the entry has a dependency, and starts without approval, attempts or outcome; an entry without id or action ends the process |
| Admissions.KnownIdsAreLeftAlone | tools/pmv3_work_engine.py:156-163 | an entry for a known id changes nothing |
| Admissions.WaitingEndsWithItsDependency | tools/pmv3_work_engine.py:240-255 | after an outcome that waits for a dependency, the item is not called until a cycle has found it established, whatever crashes in between |
| Admissions.EntriesWaitForTheirDependency | tools/pmv3_work_engine.py:121-153 | an entry taken in with a dependency is not called until a cycle has found it established, unless a crash lost the entry |
| RunTheorems.AtMostOnce | tools/pmv3_work_engine.py:358-401 | over any run with crashes anywhere, between two calls for a work entry that is not idempotent either an outcome without a receipt was saved or a cycle began with `reconciliation_required` established |
| RunTheorems.ReceiptFinality | tools/pmv3_work_engine.py:378-398 | once a key has a receipt on disk, no continuation loses or changes it or calls the handler with that key, and an item selected again under it is complete with the next step, without claim or call |
| RunTheorems.ReceiptsComeFromOutcomes | tools/pmv3_work_engine.py:393-398 | every receipt on disk was returned by a saved outcome of its own item under its own key |
| RunTheorems.TerminalIsFinal | tools/pmv3_work_engine.py:245-249 | complete and externally failed items keep their phase in every continuation, on disk and in memory |
| RunTheorems.ProgressNeverFalls | tools/pmv3_work_engine.py:420-425 | as long as the set of items is the same, the percentage on disk never falls |
| RunTheorems.ProgressIsFullOnlyWhenDone | tools/pmv3_work_engine.py:420-425 | the percentage is at most 100, and 100 exactly when there are items and all are complete |
| RunTheorems.MetricsAccountForItems | tools/pmv3_work_engine.py:408-417 | the six metrics add up to the number of items, less the runnable items that lack approval |
| RunTheorems.CheckpointShape | tools/pmv3_work_engine.py:384-403 | the file shows an active item exactly when its last write was a claim whose outcome was not saved, then only that item and without receipt; no item is active between calls or at the end of a cycle |
| RunTheorems.RecoveryNeverFindsReceipt | tools/pmv3_work_engine.py:358-370 | on inventories the engine wrote, the receipt branch of crash recovery is unreachable: interrupted items become runnable or wait |
| RunTheorems.RetriesAreBoundedAndDelayed | tools/pmv3_work_engine.py:283-330 | every retry-wait on disk has fewer than three attempts and is due 30 or 60 seconds after the outcome that scheduled it |
| RunTheorems.NoEarlyRetry | tools/pmv3_work_engine.py:256-261 | after a retry was saved, its item is not called until a cycle has begun at or after the due time |
| RunTheorems.RetryCallIsNotEarly | tools/pmv3_work_engine.py:256-261 | when the clock never goes back, the call itself is not before the due time |
| RunTheorems.AttemptsCountClaims | tools/pmv3_work_engine.py:384-392 | stored attempts are the claims written; calls never exceed them and fall short at most by the number of crashes |
| RunTheorems.CallsFollowSelection | tools/pmv3_work_engine.py:271-280 | in each cycle the calls follow the selected order, call no item twice and stay within the capacity of the cycle |
| RunTheorems.ApprovalBeforeExecution | tools/pmv3_work_engine.py:166-220 | an entry that requires approval is called only if it names a request, after a verified Teams approval of exactly that request was recorded, which is the last decision the lineage of the state kept |
| RunTheorems.LastDecisionGovernsUncrashedRuns | tools/pmv3_work_engine.py:206-220 | without a crash before the call, the last decision recorded for the entry is an approval of its request |
| RunTheorems.LastDecisionStandsExactly | tools/pmv3_scheduler.py:131-157 | the last decision stands unless a crash came before any write of the state file after it; then the last one saved before it is back in force |
| RunTheorems.CallFollowsTheDecisionThatStands | tools/pmv3_work_engine.py:206-220 | every call that needs approval was made on the last decision recorded, or, exactly if that was lost, on the last one saved before it |
| Cycles.CallIsRun | tools/pmv3_work_engine.py:376-401 | handling one selected item is a run of the state machine with the same result |
| Cycles.QueueIsRun | tools/pmv3_work_engine.py:376-401 | handling the whole queue is a run of the state machine with the same result |
| Cycles.CycleIsRun | tools/pmv3_work_engine.py:343-405 | one complete cycle, described as a function, is a run of the state machine with the same result |
| Steps.RunsStartEmpty | tools/pmv3_work_engine.py:78-93 | a run starts with an empty file and no process |
| Steps.DecisionIsRecordedExactly | tools/pmv3_work_engine.py:166-203 | a decision from Teams, verified, for a known item, answering the request it names, and approving or denying becomes that item's approval, field by field; any other ends the process |
| Steps.CandidatesAreEligible | tools/pmv3_work_engine.py:206-220 | what may be selected: runnable, approved, and if approval is required with a stored approval that has all seven properties |
| Steps.LessIsEarlier | tools/pmv3_work_engine.py:279 | the order of ids is that of the first position where they differ |
| Steps.SelectionIsExact | tools/pmv3_work_engine.py:271-280 | the selection holds distinct eligible items in order of priority (0 counts as 100), age and id, none left out comes first, and is as long as the free slots or the eligible items allow |
| Steps.ClassesAreExact | tools/pmv3_work_engine.py:223-237 | which class each reason text is taken for |
| Steps.RetryableReasonsAreExact | tools/pmv3_work_engine.py:263-268 | a reason is retryable exactly for transport trouble, for rate without billing trouble, and for validation without credential trouble |
| Steps.RetryableClasses | tools/pmv3_work_engine.py:30-38 | the seven retryable classes |
| Steps.ExternalClasses | tools/pmv3_work_engine.py:39-45 | the five external classes |
| Steps.ItemsAreBegunExactly | tools/pmv3_work_engine.py:245-372 | what the start of a cycle makes of an item, phase by phase and field by field |
| Steps.CyclesBeginExactly | tools/pmv3_work_engine.py:351-376 | the start of a cycle raises the counter, treats every item once, leaves receipts and file alone, and queues the selection |
| Steps.EligibleItemsAreSelectedInEveryRun | tools/pmv3_work_engine.py:271-280 | in every run, a cycle with as many slots as eligible items selects exactly these |
| Steps.ClaimsAreExact | tools/pmv3_work_engine.py:376-388 | the next selected item is completed if its key has a receipt, and claimed otherwise, field by field |
| Steps.DelaysAreExact | tools/pmv3_work_engine.py:283-285 | the delay is 30, 60, and from the third attempt on 120 seconds |
| Steps.OutcomesAreAppliedExactly | tools/pmv3_work_engine.py:288-340 | what each outcome makes of the item: completion, waiting, retry with its delay, exhaustion, external failure, or block, with its reason |
| Steps.OutcomesAreSettledExactly | tools/pmv3_work_engine.py:392-399 | the answer of the handler stores its receipt under the item's key, changes that item as its outcome says, and nothing else |
| Steps.ClaimsAreSavedExactly | tools/pmv3_work_engine.py:389-390 | the write before a call saves all of memory |
| Steps.OutcomesAreSavedExactly | tools/pmv3_work_engine.py:400-401 | the write after a call saves all of memory |
| Steps.CyclesEndExactly | tools/pmv3_work_engine.py:403-405 | the end of a cycle writes metrics and time, and then all of memory |
| Steps.CrashesLeaveTheFile | tools/pmv3_work_engine.py:96-104 | a crash leaves the file alone and a start reads it |
| Steps.MetricsAreExact | tools/pmv3_work_engine.py:408-417 | what each of the six metrics counts |
| Steps.ProgressIsTheShareRoundedDown | tools/pmv3_work_engine.py:420-425 | the percentage is the share of complete items, rounded down, and 0 without items |
| Fairness.SelectionIsFirstCandidates | tools/pmv3_work_engine.py:271-280 | the selection is exactly the first ready items of the sorted order, up to the free slots |
| Fairness.MissedRoundMovesUp | tools/pmv3_work_engine.py:353-401 | a cycle that passes an item over spends all but the rivals' share of its capacity on items of the same priority ahead of it, and none of them stays or returns ahead |
| Fairness.BoundedWaiting | tools/pmv3_work_engine.py:245-280 | with capacity c, at most k < c unfinished items of higher priority at any time, and r runnable items of the same priority ahead, a ready item is selected within r / (c - k) + 1 cycles |
| Fairness.Starvation | tools/pmv3_work_engine.py:276-280 | in every inventory where at least as many pressing items without receipt outrank a ready item as there are slots, any number of cycles can follow without selecting it |
| Fairness.IdleRoundsIncrease | tools/pmv3_work_engine.py:343-353 | the times of those cycles increase strictly |
| Fairness.BesiegedExists | tools/pmv3_work_engine.py:121-163 | for every number of rivals there is such an inventory, made of admitted items |
| Limits.KeysAreUniqueWithoutBars | tools/pmv3_work_engine.py:107-109 | among ids without a bar, equal keys mean equal id, action and generation |
| Limits.KeyIsSharedExactly | tools/pmv3_work_engine.py:107-109 | a key is shared with a different id exactly when id and action joined hold a further bar with text on both sides |
| Limits.ExhaustedReasonClassifiesAlike | tools/pmv3_work_engine.py:223-237 | the marker put before an exhausted reason never changes its class, for any reason |
| Limits.ExhaustedIsReleasedExactly | tools/pmv3_work_engine.py:263-330 | an item at its limit is never scheduled again; asked to retry it is blocked, and the next re-evaluation releases it exactly when its reason is retryable |
| Limits.AttemptsHaveNoBound | tools/pmv3_work_engine.py:318-331 | for every n there is a run after which an item has n attempts |
| Limits.DenialCanBeLost | tools/pmv3_scheduler.py:55-157 | there is a run in which an item is called although the last decision recorded for it is a denial |
| SchedulerProcess.Scheduler.constructor | tools/pmv3_work_engine.py:78-93 | a new process starts from an empty state file |
| SchedulerProcess.Scheduler.Load | tools/pmv3_work_engine.py:96-104 | loading takes the start step: the memory becomes the state file |
| SchedulerProcess.Scheduler.Abort | tools/pmv3_scheduler.py:20-21 | an input error takes the crash step: memory is lost and the file stays |
| SchedulerProcess.Scheduler.IngestWork | tools/pmv3_scheduler.py:31-52 | the loop takes one admit step per entry, counts the new items, and stops the process at the first invalid one |
| SchedulerProcess.Scheduler.RecordTeamsApproval | tools/pmv3_work_engine.py:166-203 | one decision is recorded, or refused, exactly as the approval step says |
| SchedulerProcess.Scheduler.IngestApprovals | tools/pmv3_scheduler.py:55-75 | the loop takes one approval step per entry and stops the process at the first invalid one |
| SchedulerProcess.Scheduler.RecoverInterrupted | tools/pmv3_work_engine.py:358-372 | the loop applies the recovery rule to every item and changes nothing else |
| SchedulerProcess.Scheduler.RecheckItems | tools/pmv3_work_engine.py:245-268 | the loop applies the re-evaluation rule to every item and changes nothing else |
| SchedulerProcess.Scheduler.Checkpoint | tools/pmv3_work_engine.py:62-75 | a checkpoint makes the state file equal to the memory and is the write step of the point reached |
| SchedulerProcess.Scheduler.ProcessItem | tools/pmv3_work_engine.py:376-401 | one selected item takes exactly its receipt step, or claim, write, call, return and write |
| SchedulerProcess.Scheduler.ProcessQueue | tools/pmv3_work_engine.py:376-401 | the loop over the selection takes the steps of each item in order |
| SchedulerProcess.Scheduler.ExecuteCycle | tools/pmv3_work_engine.py:343-405 | one cycle takes exactly the steps of the state machine and leaves what the cycle function describes |
| SchedulerProcess.Scheduler.RunOnce | tools/pmv3_scheduler.py:131-157 | one activation either rejects its input and leaves the file untouched, or runs one whole cycle on it, saves the result and reports that file |
| Deployment.PromotionByTag | tools/deploy_live_container.py:54-71 | after a promotion each promoted tag names the candidate, the rollback tag the previous image if that differs, every other tag what it named |
| Deployment.RestorationIsCompleteExactly | tools/deploy_live_container.py:36-89 | restoration gives every tag back exactly when no existing tag was unreadable when the snapshot was taken |
| Deployment.FailureKeepsOriginalExactly | tools/deploy_live_container.py:427-505 | after a failed deployment with a clean compensation the original is live again exactly when stop and rename ended well and the rollback name was free |
| Deployment.VerifiedAsAskedFor | tools/deploy_live_container.py:436-463 | the replacement passes exactly with the candidate image, the revision label, no other revision in its environment, and hardening if asked for |
| Deployment.CleanDeploymentSucceedsExactly | tools/deploy_live_container.py:381-479 | without failing commands: refused exactly for contradictory tags, a missing live or a taken rollback name; preflight passed; deployed exactly if what is created has image, label, environment and hardening as asked for and a probe is allowed; failed otherwise, after the rename |
| Deployment.SuccessIsAsAskedFor | tools/deploy_live_container.py:436-463 | a deployment that succeeds leaves live a running container of the candidate image with the revision and hardening asked for |
| Deployment.OnlyRunningChanges | tools/deploy_live_container.py:428-434 | stopping and starting change nothing of a container but whether it runs |
| Deployment.FailedRenameRemovesLive | tools/deploy_live_container.py:427-505 | a deployment in which the rename is the only failing command leaves no container at all |
| Deployment.Docker.SnapshotAliases | tools/deploy_live_container.py:36-51 | the snapshot describes the tags as they are, less those whose reading failed |
| Deployment.Docker.Retag | tools/deploy_live_container.py:61-64 | it succeeds exactly when no tag command fails, and then every promoted tag names the candidate |
| Deployment.Docker.ReadBack | tools/deploy_live_container.py:66-68 | on promoted tags it succeeds exactly when no read fails |
| Deployment.Docker.Promote | tools/deploy_live_container.py:54-71 | it succeeds exactly when none of its commands fails, and then leaves the promoted map; failure touches no tag outside the alias tags |
| Deployment.Docker.RestoreAliases | tools/deploy_live_container.py:74-89 | if no command fails, every tag is back to what the snapshot describes; no other tag is touched |
| Deployment.Docker.Health | tools/deploy_live_container.py:156-188 | the probe succeeds exactly when one of the allowed attempts does, and stops there |
| Deployment.Docker.Replace | tools/deploy_live_container.py:431-465 | it succeeds exactly when its commands do, the created container is what was asked for, and a probe succeeds; then the candidate runs under the live name; no other container changes |
| Deployment.Docker.Swap | tools/deploy_live_container.py:427-474 | the failing commands decide success, both flags and the number of commands, and how far both maps have moved |
| Deployment.Docker.Examine | tools/deploy_live_container.py:381-424 | what is read before anything is changed decides the refusal, and leaves the snapshot |
| Deployment.Docker.Undo | tools/deploy_live_container.py:485-503 | three or one commands without looking at their success: if none fails the original is back after a rename and gone otherwise; after a rename it is never lost |
| Deployment.Docker.Compensate | tools/deploy_live_container.py:480-505 | tags and containers after the compensation, and what holds even if it fails |
| Deployment.Docker.Deploy | tools/deploy_live_container.py:381-505 | the failing commands decide the verdict; success: a container with the image, revision and hardening asked for is live and the original under the rollback name; without failing commands each mismatch fails with the original live again; failure with a clean compensation: after the rename containers as before with the original running, before it the original removed, tags as before less moved tags that could not be read; whatever fails, a renamed original exists and nothing else is touched |
| Incidents.CorrelateFailures | tools/issue_resolution_engine.py:249-276 | the grouping loop yields the incidents of the set of non-blank failures, whatever their order and repetition |
| Incidents.SymptomsAreNotBlank | tools/issue_resolution_engine.py:251 | the failures that are dropped are exactly the blank ones |
| Incidents.FamiliesAreExact | tools/issue_resolution_engine.py:89-117 | a symptom is of a family exactly when it begins with one of the family's beginnings; no two families share one |
| Incidents.LevelsAreExact | tools/issue_resolution_engine.py:120-186 | which of the four levels an incident gets, from the markers its symptoms carry and its family |
| Incidents.CorrelationPartitions | tools/issue_resolution_engine.py:249-276 | every symptom is in exactly one incident, that of its root family, and incidents hold nothing else |
| Incidents.CorrelationHasNoEmptyIncident | tools/issue_resolution_engine.py:254-260 | no incident is empty, and beside production convergence there is no runtime or service incident |
| Incidents.AutomaticExactly | tools/issue_resolution_engine.py:120-186 | an incident is repaired automatically exactly when it is not about storage and none of its symptoms carries a marker |
| Incidents.AuthorityNeverGrows | tools/issue_resolution_engine.py:147-186 | more symptoms never widen the authority to act without the owner |
| Incidents.OwnerExactly | tools/issue_resolution_engine.py:147-186 | however the symptoms are listed, the owner is needed exactly when the set of them says so |
| Incidents.IssueMemory.ClearAbsent | tools/issue_resolution_engine.py:293-297 | families no longer present are marked inactive with the time, the others are untouched |
| Incidents.IssueMemory.SeeOne | tools/issue_resolution_engine.py:300-318 | one incident updates its family's record and no other |
| Incidents.IssueMemory.Update | tools/issue_resolution_engine.py:281-340 | the two loops make the memory what one observation makes of it, and report each count |
| Incidents.MemoryRefinesHistory | tools/issue_resolution_engine.py:281-340 | after any history of ticks a record exists exactly for families ever present, and holds the number of times the family came back, its first and last sighting and whether it is present |
| Incidents.ClearingTimeIsExactOnlyAtFirst | tools/issue_resolution_engine.py:293-297 | the stored clearing time is the time of clearing exactly at the tick of the clearing itself |
| Incidents.CorrelatedFamilies | tools/issue_resolution_engine.py:254-260 | a family has an incident exactly when it has a symptom and is not downstream of a violated production convergence |
| Incidents.AbsorptionLooksLikeRecurrence | tools/issue_resolution_engine.py:254-318 | a downstream family whose symptoms never stop is counted once per stretch in which production convergence was healthy |
| Watchdog.SelfHeal.Run | tools/jason_self_heal_watchdog.py:954-1051 | one tick makes state file and memory what the step functions say, and reports recovery and escalations |
| Watchdog.SelfHeal.Escalate | tools/jason_self_heal_watchdog.py:1019-1037 | the owner is asked about exactly the incidents that need one when the attempts are used up, except storage under archiving |
| Watchdog.TicksAreExact | tools/jason_self_heal_watchdog.py:983-1050 | status, fingerprint and attempts after a tick, whether recovery runs, what the memory hears, and when escalations can come |
| Watchdog.BudgetOfOneTick | tools/jason_self_heal_watchdog.py:997-1017 | a tick recovers exactly while budget is left and uses one attempt, unless recovery left other failures behind: then the whole budget is back |
| Watchdog.RecoveryBudget | tools/jason_self_heal_watchdog.py:997-1050 | over any number of ticks with the same failures, recoveries are at most the budget left plus one budget per tick that shifted them |
| Watchdog.RecoveriesAreTheBudget | tools/jason_self_heal_watchdog.py:997-1050 | without shifts recovery runs exactly on the first ticks until the budget is used up, recovered ticks included |
| Watchdog.ShiftingDefeatsTheBudget | tools/jason_self_heal_watchdog.py:997-1050 | when every recovery shifts the failures, recovery runs on every tick |
| Watchdog.HealthyResetsTheBudget | tools/jason_self_heal_watchdog.py:983-992 | a healthy tick gives the whole budget back |
| Watchdog.OwnerIsAskedExactly | tools/jason_self_heal_watchdog.py:1019-1037 | the owner is asked exactly when the attempts are used up and a failure still there is the owner's case |
| Watchdog.OwnerIsAskedInState | tools/jason_self_heal_watchdog.py:1039-1050 | the stored state says that the owner was asked exactly when that happened |
| Watchdog.ClearedFailuresCountOnce | tools/jason_self_heal_watchdog.py:997-1019 | failures that recovery clears at every tick reach the memory only when the budget is used up, and count as one occurrence |
| RepairRunner.Runner.AwaitRevision | tools/autonomous_repair_host_runner.py:198-222 | the waiting loop does what its reference says, command by command |
| RepairRunner.Runner.AwaitHealthy | tools/autonomous_repair_host_runner.py:184-195 | the waiting loop does what its reference says, command by command |
| RepairRunner.Runner.Promote | tools/autonomous_repair_host_runner.py:438-473 | deployment, verification and compensation with the deployed flag end as the reference says |
| RepairRunner.Runner.Process | tools/autonomous_repair_host_runner.py:392-473 | one request is carried out, in the order of its checks, as the reference says; what is filed is exactly what the request, the readings and the label call for |
| RepairRunner.RequestsAreFiledExactly | tools/autonomous_repair_host_runner.py:392-533 | preflight passed exactly for a preflight that passes form, reading, health, revision and checks; otherwise the first check that fails, in this order and then the build, is filed with its label; the live revision of both kinds of success |
| RepairRunner.PromotionsAreFiledExactly | tools/autonomous_repair_host_runner.py:438-473 | after the script was reached: its own error, or that of the verification, or that the rollback could not be verified |
| RepairRunner.VerifyingFailsExactly | tools/autonomous_repair_host_runner.py:198-222 | with which error verifying a deployed revision fails |
| RepairRunner.WaitingFailsExactly | tools/autonomous_repair_host_runner.py:184-195 | with which error waiting for health fails |
| RepairRunner.LabelsAreExact | tools/autonomous_repair_host_runner.py:508-518 | an error is rejected exactly if it is the runner's own with a code that does not end in FAILED |
| RepairRunner.ShaIsExact | tools/autonomous_repair_host_runner.py:163-167 | a revision is exact when it is forty hexadecimal digits |
| RepairRunner.WaitHealthySucceedsExactly | tools/autonomous_repair_host_runner.py:184-195 | the first wait succeeds exactly when a reading within the bound is healthy, all commands up to it having ended well |
| RepairRunner.WaitOnlyLooks | tools/autonomous_repair_host_runner.py:198-222 | waiting never changes production and runs at most two commands per round |
| RepairRunner.WaitSucceedsExactly | tools/autonomous_repair_host_runner.py:198-222 | the wait succeeds exactly when production has the expected revision and a round within the bound sees it healthy, all commands so far having ended well |
| RepairRunner.PromotionSucceedsExactly | tools/autonomous_repair_host_runner.py:438-459 | a promotion succeeds exactly when the script ends well, leaves the candidate, and the bounded wait sees it healthy |
| RepairRunner.ResultsTellTheTruth | tools/autonomous_repair_host_runner.py:392-533 | succeeded means production has the candidate; rejected, and every error but three kinds, means it has the revision it had before the request; no result reports a rollback |
| RepairRunner.RolledBackExactly | tools/autonomous_repair_host_runner.py:438-473 | a rollback is made exactly when the deployment script ended well and its deployment could not be verified |
| RepairRunner.FailedPromotionIsRolledBackExactly | tools/autonomous_repair_host_runner.py:438-473 | a promotion that did not succeed was rolled back exactly when its script ended well |
| RepairRunner.FailedScriptIsNotRolledBack | tools/autonomous_repair_host_runner.py:438-473 | a failing deployment script is labelled failed, is not rolled back and leaves production as the script left it |
| RepairRunner.RequestsAreRolledBackExactly | tools/autonomous_repair_host_runner.py:392-473 | for whole requests: success, and rollback, each exactly when the request reaches its script, the script ends well, and the deployment is, or is not, seen as the healthy candidate; the reported flag is wrong exactly for rollbacks |
| RepairRunner.RollbackScriptDecides | tools/autonomous_repair_host_runner.py:454-473 | after a rollback production is what the rollback script left; the error denies the verification exactly when that script failed, left another revision or was not seen healthy |
| RepairRunner.Spool.ProcessOne | tools/autonomous_repair_host_runner.py:476-533 | an oldest request is taken, carried out, and its result filed under its name, while others may be filed |
| RepairRunner.Spool.Drain | tools/autonomous_repair_host_runner.py:536-563 | while other requests arrive, the loop takes an oldest waiting one each time, carries it out on the production the one before left, files every result, and ends when none is left |
| RepairRunner.NoneServedIsLater | tools/autonomous_repair_host_runner.py:488-493 | no request is served while an older one is waiting |
| RepairRunner.NoRequestIsForgotten | tools/autonomous_repair_host_runner.py:536-563 | every name that was waiting or arrived was served or is still waiting |
| RepairRunner.NoRequestIsServedTwice | tools/autonomous_repair_host_runner.py:476-563 | as long as names are not used again, no name is served twice |
| RepairRunner.ProductionIsTheLastSuccess | tools/autonomous_repair_host_runner.py:392-563 | while errors are conclusive, production has what the last success promoted, and each success replaced exactly the one before it |
| RepairRunner.StaleRequestChangesNothing | tools/autonomous_repair_host_runner.py:403-411 | a request made for a revision no longer live is refused without touching production |
| Controller.ControllerRun | tools/pmv3_engineering_controller.py:217-331 | the loop with its counter ends as a reference without counters says |
| Controller.DispositionsAreExact | tools/pmv3_engineering_controller.py:114-156 | which progress is complete, recoverable, waiting on others, or a control failure |
| Controller.ReasonsAreExact | tools/pmv3_engineering_controller.py:114-156 | the reason given with each of them |
| Controller.EndingsAreExact | tools/pmv3_engineering_controller.py:236-331 | how a run ends, with status, reason and last entry, by what its last pass met or by its bound, and what is noted of each pass |
| Controller.OutcomeIsBounded | tools/pmv3_engineering_controller.py:250-331 | at most the allowed number of passes, never left running, every pass but the last recoverable, and the queue reconciled once plus once per completed unlocked pass |
| Controller.StallIsExact | tools/pmv3_engineering_controller.py:290-320 | a stall is reported exactly when a window of identical recoverable passes of the given length occurs within the bound, at its first occurrence |
| Controller.SmallBoundsHideStalls | tools/pmv3_engineering_controller.py:253-327 | with no more passes than the repetition limit a stall is never reported |
| Controller.AlternationIsNotAStall | tools/pmv3_engineering_controller.py:290-327 | recoverable progress that differs from pass to pass uses up the bound, even if it only alternates |
| Controller.CompletionIsExact | tools/pmv3_engineering_controller.py:114-122 | a run is complete exactly when its first stopping pass is healthy, without control failures and with the production lock free |
| Evidence.ProseIsDropped | tools/engineering_evidence_tools.py:91-117 | whatever follows two selected symbols, the selectors are these two or the request is refused |
| Evidence.SelectorsAreIdentifiers | tools/engineering_evidence_tools.py:91-117 | selectors are at most two, plain identifiers and distinct |
| Evidence.SelectorsAreExact | tools/engineering_evidence_tools.py:91-117 | exactly which selectors select nothing, one identifier, or a pair |
| Evidence.RequestsAreCheckedExactly | tools/engineering_evidence_tools.py:143-173 | exactly which requests are acceptable, and what is wrong with any other |
| Evidence.HitsKeepTheirOrder | tools/engineering_evidence_tools.py:201-209 | what is admitted are hits in the order found, each cut to the limit |
| Evidence.QuotasAreExact | tools/engineering_evidence_tools.py:196-214 | how many of the new hits a read or a search may add |
| Evidence.PlanIsTheSortedBatch | tools/engineering_evidence_tools.py:177-181 | the plan calls every request exactly once, reads before searches, each kind in the order asked for |
| Evidence.AdmitHits | tools/engineering_evidence_tools.py:182-214 | the hit loop admits the first new, authorized, non-empty hits up to the quota |
| Evidence.ExecuteTools | tools/engineering_evidence_tools.py:120-223 | a batch that is empty, too large or has one request that is not fit calls no tool, and the error is that of the first such request; otherwise the result is the reference collection with the receipts kept |
| Evidence.CollectedIsWithinBudgets | tools/engineering_evidence_tools.py:196-219 | authorized distinct sources with bounded content, at most one per read, two per search and the global cap together |
| Evidence.SearchesNeverDisplaceReads | tools/engineering_evidence_tools.py:177-219 | what reads collect comes first as if there were no searches, and with no more reads than sources every read that offers something is represented |
| Evidence.ReceiptsAreExact | tools/engineering_evidence_tools.py:206-217 | the receipts of a call name its tool, one for each of its sources or a single empty one |
| Evidence.ReceiptsAreDistinct | tools/engineering_evidence_tools.py:206-223 | every source has its own receipt and no receipt names a source twice |
| Evidence.ReceiptIsKeptExactly | tools/engineering_evidence_tools.py:223 | a source has a receipt among those kept exactly when its receipt comes before the cut |
| Evidence.ReceiptsCanBeMissing | tools/engineering_evidence_tools.py:223 | a single search with two sources leaves the second without a receipt when one receipt is kept |
| Evidence.EnoughRoomForReceipts | tools/engineering_evidence_tools.py:223 | with room for two receipts per request every source keeps its receipt |
| Evidence.MergeExcerpts | tools/support_repair_host_worker.py:1019-1039 | the merge is the first excerpt of each path, in order, up to the total |
| Evidence.BoundExcerpts | tools/engineering_evidence_tools.py:317-325 | the result is the longest beginning whose contents fit the total |
| Evidence.TotalIsTheLengthOfAllText | tools/engineering_evidence_tools.py:317-325 | what is bounded is the length of all the text shown |
| Evidence.NewEvidenceComesFirst | tools/engineering_evidence_tools.py:309-327 | known context never displaces new sources, which are all shown exactly when they fit the total |
| Evidence.Session.Continue | tools/engineering_evidence_tools.py:226-352 | a turn is granted exactly under the listed conditions, counts within the limit, pins the request it answers, and shows the bounded context; a refusal changes nothing |

## Left out

- JSON parsing, file modes, `fsync`, ownership and symlink checks: a write of a state file is atomic and a read returns what was written.
- SHA-256 and its truncations: digests stand for what they digest and are taken to be injective.
- Case folding and stripping beyond ASCII letters and blanks.
- The floating-point division in the progress percentage: the quotient is exact and then truncated.
- Time stamps are whole seconds; their sorted text form is taken to order like the times.
- Replay and expiry of approvals: the engine records what it is given and checks neither, so the model does not either.
- `simulation_handler`: one particular handler; the model allows every handler.
- Load errors for malformed state files.
- Fairness.BoundedWaiting: stated over cycles that are not interrupted by a crash, because a crash gives no bound on when the next cycle begins.
- RunTheorems.ProgressNeverFalls: the percentage can fall when items are admitted, which the requirement on the set of items excludes.
- Deployment.Docker.Deploy: a failing command changes nothing in Docker; when a compensating command fails, the maps are described only as far as that a renamed original exists and nothing else is touched; the exact `docker create` command line, environment and mounts are one opaque container description.
- Deployment.Docker.Swap: the checks of the replacement's hardening are one flag.
- Sleeps, intervals and timeouts of every waiting loop.
- `verification_contract`, incident files, escalation documents and priorities: texts derived from the incident.
- Watchdog.SelfHeal.Run: the failures detected include whatever the storage archiving branch changed; detectors and the recovery actions themselves are not modelled, nor a process that dies between the memory and the state file.
- RepairRunner.ResultsTellTheTruth: holds if no other actor deploys during the request; git, GitHub and the release gate are verdicts given with the request, and an error while removing the worktree is not modelled.
- RepairRunner.Spool.ProcessOne: a request left in `processing` by a process that died stays there; the model does not follow it.
- Controller.ControllerRun: the pipeline, the supervisor and the integration queue are given as what each pass shows; the queue's own result is not modelled.
- Evidence.Session.Continue: the checks of policy, worktree and revision are one permission; the texts around the context are not modelled.
- `search_source` ranking and excerpt extraction: what a tool finds is arbitrary.
- Provider probes, installers, renderers, signature checking, the seven-stage pipeline and the supervisor's keyword lists.
