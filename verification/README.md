# Verification of the acceptance executor

A Dafny model of the cores of the executor, with proofs about every run of them: the direct-dispatch service with its
job store and lock table, the callback outbox, the Excel configuration store, the batch run with retry, stop and merge,
the connectivity preflight, the SSH transcript engine, the route guard, and the packaging of evidence files.

Objects that the program updates in place are classes here, and each of their methods is tied to a function of the old
state; the theorems are about those functions, or about schedules of atomic steps where threads interleave. What these
functions answer is also said in the values that users see, by members whose names end in `Is`, `Are`, `Iff` or `Says`.
Whatever comes from outside (clocks, disks, devices, runners, callbacks, executors, probes, digests) is a parameter, so
that a theorem holds for all of its answers, exceptions included. The reading loop takes its prompt and pager patterns
as a parameter too; where the meaning of the prompt pattern matters it is written out.

`dafny verify dfyconfig.toml` checks everything.

## How it is organised

| files | subject |
|---|---|
| `JobStore`, `LockManager` | the two shared tables of the dispatch service |
| `DispatchProtocol`, `DispatchProofs`, `DispatchStatus` | submitters, workers and outsiders as interleaved atomic steps, and their safety |
| `Dispatch`, `DispatchOutcomes`, `DispatchDrain`, `DispatchRefinement` | the service object, what becomes of requests and jobs, what draining its queue does, and why the service is an instance of the protocol |
| `Outbox`, `OutboxInterleaving`, `OutboxDelivery` | the outbox file, its concurrent callers, and deliveries with their retry budget |
| `ConfigStore` | activation as a transaction, and its refinement of one register |
| `Verdict`, `Retry`, `Batch`, `BatchProofs`, `BatchRows` | verdicts, the retry wrapper, the sequential run, what a run owes its plans, and what its rows say |
| `Lookup`, `Merge`, `RetryRound`, `RoundProofs` | ambiguous identity keys, merging, and a run with its retry round |
| `Preflight` | shared probes and the gate before a run |
| `Text`, `Sentinel`, `Normalizer` | lines, exit-code sentinel, stream normalisers |
| `InteractiveShell`, `EchoOrder` | the interactive reader, and when its prompt comes after its echo |
| `RouteGuard`, `Evidence` | the diffing monitor, and archive names |
| `Basics` | shared vocabulary |

## Where the code does not keep its promise

Each of these is stated as an exact condition or with a concrete case, in the members named.

- Dispatch: `create` overwrites a job stored under the same job id, also when a client supplied the id. The invariant
  survives a step if and only if the step does not do that (`DispatchProofs.StepKeepsInvIff`); two requests with one id
  put that job in two places (`DispatchProofs.ReusedIdIsInTwoPlaces`).
- Dispatch: the comment on `run_pending_once` says it returns True when a job was processed. It returns True exactly
  when a job was popped, also one that was only put back; the runner was called if and only if that job is stored and its
  lock is free (`Dispatch.DirectDispatchService.RunPendingOnce`).
- Outbox: a marking finds its record in one critical section and rewrites the file in another. It takes back exactly the
  failures counted in between (`OutboxInterleaving.MarkingLosesTheFailuresInBetween`).
- Outbox: nothing stops two deliveries of one record. Then a record marked sent can become due again
  (`OutboxDelivery.SentIsUndone`), and a record can be attempted any number of times
  (`OutboxDelivery.AttemptsAreUnbounded`). A closed record stays closed in every schedule if and only if nobody who
  still sends it can find, or be handed by a stale copy, a count with room for another attempt
  (`OutboxDelivery.ClosedForGoodIff`); its attempts stay within five if and only if it is closed for good and not even
  the failure of everybody who sends it passes five (`OutboxDelivery.BudgetForGoodIff`).
- Config store: an error other than `OSError` while latest.json is written leaves the new content file behind, and the
  exact condition for a clean rejection is `ConfigStore.RejectedChangesNothingIff`. Two contents whose digests share 12
  digits and arrive in the same second share a file; if the second activation fails, latest.json names the wrong content
  (`ConfigStore.CommitKeepsSoundIff`, `ConfigStore.ClobberingHappens`).
- Batch: an error raised while the line of a finished plan is printed is caught as if the plan had crashed, and the plan
  gets a second row (`BatchProofs.LateErrorDoublesTheRow`). An error raised while a plan is announced is not caught: it
  ends the run, and neither that plan nor any ready plan behind it gets a row. Plans that come in marked as skipped get
  no row when the connectivity check is off. Every plan has exactly one row if and only if none of the three happens
  (`BatchProofs.OneRowEachIff`).
- Retry round: after a first run, every row ends right in every rerun of the candidates if and only if no executed plan
  whose result failed met a late error, or a candidate cannot be cloned and there is no rerun at all
  (`RoundProofs.RetryRoundIff`). Otherwise the plan has two failed rows, and when it is run again for one row, the second
  of them stays (`RetryRound.SecondFailureStays`, `RoundProofs.LateErrorBreaksTheRound`). A late error after a result
  that did not fail is harmless here.
- Retry: the comment on `is_retryable_failure` names two statuses; the code also retries an `EXEC_ERROR` with a
  transient reason (`Verdict.RetryableIff`), and it retries once even when no retries are configured
  (`Retry.AttemptsAreBounded`).
- Retry candidates: cloning a plan that has an attribute `plan_item_id`, blank or not, raises, so there are candidates if
  and only if none of the plans to run again has it (`RetryRound.FailedRetryCandidates`).
- Preflight: `check_all` resolves a host, and the probe resolves it again; a URL whose host looks like a flag, or a host
  that contains the text for an empty address, gets a different answer than alone (`Preflight.SharedAgreesIff`,
  `Preflight.FlagLikeHostsDisagree`).
- Interactive shell: a comment promises that the prompt is looked for after the echo; the code only requires that the
  echo was seen at some time and that the prompt pattern matches the text so far. With command `sw` on a device whose
  prompt is `<sw1>`, the prompt alone makes a successful step (`EchoOrder.PromptTakenForEcho`). Every successful step
  has its prompt after its echo if and only if the command can be told apart from the prompt line
  (`EchoOrder.SuccessAnswersIff`): an ordinary command must not show in that line with something behind it, and a
  command that only sets the scene must not show there at all, nor end like an escape sequence that is cut off.
- Route guard: when a callback raises, or after a restart, a change that comes back can go unreported
  (`RouteGuard.RaisingCallbackHidesAReturningChange`, `RouteGuard.RestartHidesAReturningChange`). In every run a sample
  goes unreported if and only if it equals the base or changes it as the last report did (`RouteGuard.RunHidesIff`).

## Model

| member | source | states |
|---|---|---|
| JobStore.DirectDispatchStore.Create | src/direct_dispatch_store/__init__.py:60-71 | refuses a command id that is indexed; otherwise stores the job under its id, in place of any other, and binds its two keys |
| JobStore.DirectDispatchStore.MarkRunning | src/direct_dispatch_store/__init__.py:81-88 | changes status and start time of a known job only |
| JobStore.DirectDispatchStore.MarkFinished | src/direct_dispatch_store/__init__.py:90-115 | records status, end, duration (measured when none is reported), and error, summary and artifacts where given; keeps the earlier ones otherwise |
| JobStore.DirectDispatchStore.MarkCallbackFailed | src/direct_dispatch_store/__init__.py:117-128 | changes status and the callback's error, status code and time, of a known job only |
| JobStore.DirectDispatchStore.GetByCommandId | src/direct_dispatch_store/__init__.py:154-159 | finds the job its command leads to, if both exist |
| JobStore.CreateKeepsIndexIff | src/direct_dispatch_store/__init__.py:60-71 | an accepted creation keeps all indexes consistent and loses nothing if and only if its job id is unused |
| LockManager.ResourceLockManager.Acquire | src/resource_lock_manager/lock_manager.py:35-84 | fails exactly for a live entry of another owner; is reentrant and takes over expired entries |
| LockManager.ResourceLockManager.Release | src/resource_lock_manager/lock_manager.py:86-102 | removes an entry exactly for its owner |
| DispatchProofs.StepKeepsInv | src/executor_api_server/service.py:181-508 | every atomic step of a submitter, worker or outsider keeps the whole invariant and only extends the store, unless it reuses a job id |
| DispatchProofs.StepKeepsInvIff | src/direct_dispatch_store/__init__.py:60-71 | a step keeps the invariant if and only if it does not overwrite a stored job |
| DispatchProofs.DispatchIsSafe | src/executor_api_server/service.py:181-508 | in every schedule: each job in exactly one place, at most one runner call per job, one holder per lock, no lock held with nothing in flight, one winner per command, and every answer names the winner's job |
| DispatchProofs.SafetyFrom | src/executor_api_server/service.py:181-508 | the invariant and the extension of the store carry over a whole schedule from any good state |
| DispatchProofs.InvIsSafe | src/executor_api_server/service.py:219-264 | what the invariant means to an observer of one state |
| DispatchProofs.CommandsAreNeverRebound | src/direct_dispatch_store/__init__.py:60-71 | a bound command leads to the same job in every later state |
| DispatchProofs.ReusedIdIsInTwoPlaces | src/direct_dispatch_store/__init__.py:66 | two accepted requests with one job id and different commands put it in two places, in a schedule of six steps |
| DispatchProofs.WorkerKeepsPlaces | src/executor_api_server/service.py:235-508 | popping, requeueing and releasing move a job from one place to exactly one other |
| DispatchProofs.SubmitterKeepsPlaces | src/executor_api_server/service.py:181-220 | a created job is first with its submitter and then at the end of the queue |
| DispatchProofs.NotRunBefore | src/executor_api_server/service.py:417-421 | a worker that is about to call the runner has a job the runner was never called for |
| DispatchProofs.WorkerKeepsRuns | src/executor_api_server/service.py:378-508 | no step of a worker leads to a second runner call for a job |
| DispatchProofs.AcquireKeepsLocks | src/executor_api_server/service.py:388-395 | a successful acquisition means that nobody else was past acquisition with that lock |
| DispatchProofs.ReleaseKeepsLocks | src/executor_api_server/service.py:506-508 | the releasing worker gives back its own lock and no other |
| DispatchProofs.WorkerKeepsLocks | src/executor_api_server/service.py:378-508 | the service holds a lock exactly for the jobs past acquisition, after every step of a worker |
| DispatchProofs.OutsiderKeepsLocks | src/resource_lock_manager/lock_manager.py:35-143 | outsiders and the cleanup of expired entries never touch a lock of a job |
| DispatchProofs.SubmitterKeepsAgreement | src/executor_api_server/service.py:181-217 | the loser of either check knows a command that is bound, the winner one bound to its own job |
| Dispatch.DirectDispatchService.SubmitJob | src/executor_api_server/service.py:149-229 | an invalid request raises its first complaint; a new command is stored and queued last; a duplicate is told the winner's job and its status; nothing else changes |
| Dispatch.DirectDispatchService.ExecuteAndCallback | src/executor_api_server/service.py:378-508 | unknown, blocked and executed jobs: the whole new state for every outcome of runner and callback, the lock given back; the members of `DispatchOutcomes` say what is in it |
| Dispatch.DirectDispatchService.Perform | src/executor_api_server/service.py:397-504 | the part under the lock: started, run, recorded, called back, or recorded as a crash |
| Dispatch.DirectDispatchService.CallBack | src/executor_api_server/service.py:455-484 | what the finishing callback changes in the record |
| Dispatch.DirectDispatchService.RunHead | src/executor_api_server/service.py:255-260 | pops the head and executes it |
| Dispatch.DirectDispatchService.RunPendingOnce | src/executor_api_server/service.py:235-243 | says whether a job was popped, not whether it was processed: that is so if and only if the head is stored and not blocked |
| Dispatch.DirectDispatchService.RunAllPending | src/executor_api_server/service.py:245-264 | runs up to twice as many cycles as there are jobs and counts the processed ones |
| DispatchOutcomes.ComplaintsAre | src/executor_api_server/service.py:157-180 | code and text of the first thing wrong with a request, and that there is none exactly for complete requests |
| DispatchOutcomes.AcceptedJobIs | src/executor_api_server/service.py:196-213 | an accepted job is stored as ACCEPTED with nothing but its request, and bound under its two ids |
| DispatchOutcomes.RunsIff | src/executor_api_server/service.py:378-395 | a popped job runs if and only if it is stored and its lock is blank, free, its own or expired; otherwise it is dropped or put back, and nothing else changes |
| DispatchOutcomes.RunTouchesOnly | src/executor_api_server/service.py:378-508 | a run records one runner call, leaves its lock free, and changes no other job, index or place in the queue |
| DispatchOutcomes.ReturnedJobIs | src/executor_api_server/service.py:439-455 | runner returned, callback arrived or none: status, times, duration, error, step counts and artifacts of the record, field by field |
| DispatchOutcomes.RaisedJobIs | src/executor_api_server/service.py:419-455 | runner raised: FAILED with a RUNNER_CRASH error of at most 200 characters |
| DispatchOutcomes.BrokenJobIs | src/executor_api_server/service.py:486-505 | unusable result: FAILED with a DISPATCH_FLOW_CRASH error |
| DispatchOutcomes.UnheardJobIs | src/executor_api_server/service.py:480-484 | callback not sent or raised: CALLBACK_FAILED with its message, the rest as if it had arrived |
| DispatchOutcomes.MessageIs | src/executor_api_server/service.py:478-483 | the text recorded for such a callback |
| DispatchOutcomes.FailingJobIs | src/executor_api_server/service.py:486-505 | error while the callback is handled: FAILED with a DISPATCH_FLOW_CRASH error, whatever the runner returned |
| DispatchOutcomes.SucceededIff | src/executor_api_server/service.py:397-505 | a job that ran is SUCCEEDED if and only if its runner said so and the callback, if there is one, arrived |
| DispatchOutcomes.AcquiringIs | src/resource_lock_manager/lock_manager.py:35-84 | exactly when an acquisition is refused, and the entry it leaves otherwise |
| DispatchOutcomes.ReleasingIs | src/resource_lock_manager/lock_manager.py:86-143 | a release and a cleanup remove exactly the owner's entry and the expired ones |
| DispatchDrain.DrainRunsExactlyTheFreeJobs | src/executor_api_server/service.py:245-264 | alone, and while no lock of an outsider expires, draining runs exactly the queued jobs whose lock no outsider holds, in order, returns their number, and leaves a permutation of the others; the cap always suffices |
| DispatchDrain.FirstPass | src/executor_api_server/service.py:250-264 | one pass over the queue runs the free jobs and parks the blocked ones behind |
| DispatchDrain.OnlyStuckLeft | src/executor_api_server/service.py:250-264 | further cycles only rotate the blocked jobs |
| DispatchDrain.ExecutingFree | src/executor_api_server/service.py:378-508 | executing a free job blocks and frees nobody else |
| DispatchDrain.DrainConserves | src/executor_api_server/service.py:245-264 | whatever locks are held or expire: what ran and what is left is what was queued, and the count returned is the number of runner calls |
| DispatchDrain.DrainRunsTheFreeJobsAnyway | src/executor_api_server/service.py:245-264 | also when locks expire on the way, every queued job that is free at the start runs, each at most once, and the jobs not run are left |
| DispatchRefinement.CycleIsASchedule | src/executor_api_server/service.py:235-243 | popping and executing a job, whatever runner and callback do, is a schedule of the protocol with the same runner calls |
| DispatchRefinement.DrainIsASchedule | src/executor_api_server/service.py:245-264 | so is draining the queue, with the same runner calls |
| DispatchRefinement.DrainKeepsInv | src/executor_api_server/service.py:245-264 | draining keeps the protocol's invariant, also with other workers in flight, and counts its runner calls there |
| DispatchRefinement.SubmitIsASchedule | src/executor_api_server/service.py:149-229 | a submission does what the protocol's steps of one submitter do, and gets the same answer |
| DispatchStatus.StepKeepsStatuses | src/executor_api_server/service.py:397-504 | recorded status and place of a job agree after every step, for whatever statuses runners report |
| DispatchStatus.NoJobIsLeftRunning | src/executor_api_server/service.py:378-508 | in every schedule a queued job is ACCEPTED and a released one is FAILED, CALLBACK_FAILED or what a runner reported, whatever crashed |
| Outbox.CallbackOutbox.Append | src/callback_outbox/__init__.py:314-323 | the record goes behind all others |
| Outbox.CallbackOutbox.MarkFailed | src/callback_outbox/__init__.py:346-376 | counts the attempt of the first record with the id and sets status and due time by the budget; nothing changes when the write fails |
| Outbox.FailedIs | src/callback_outbox/__init__.py:358-373 | every field of a record after a failure: final when not retryable or at the fifth attempt, else due again after 5, 10, 20 or 40 seconds |
| Outbox.CallbackOutbox.FindItem | src/callback_outbox/__init__.py:417-421 | the first record with the id |
| Outbox.CallbackOutbox.UpdateExisting | src/callback_outbox/__init__.py:431-447 | replaces the first record with the id by the given copy, or nothing |
| Outbox.CallbackOutbox.UpdateItem | src/callback_outbox/__init__.py:423-429 | undisturbed, a marking changes only the delivery status and the time of update |
| Outbox.CallbackOutbox.GetPending | src/callback_outbox/__init__.py:390-398 | exactly the open and due records, in file order |
| OutboxInterleaving.StepTouchesOneRecord | src/callback_outbox/__init__.py:346-447 | an operation on one id never changes, drops or reorders another record, whatever stale copies others hold |
| OutboxInterleaving.NothingIsLost | src/callback_outbox/__init__.py:314-447 | in every schedule every record stays at its place with its id and body |
| OutboxInterleaving.FailuresAreCounted | src/callback_outbox/__init__.py:346-376 | without markings of a record its attempt count rises by exactly the number of failures that returned True |
| OutboxInterleaving.MarkingLosesTheFailuresInBetween | src/callback_outbox/__init__.py:423-447 | a split marking takes back exactly the failures credited between its two sections |
| OutboxDelivery.StepKeepsInv | src/callback_outbox/__init__.py:342-398 | with any number of deliveries of a record at a time: a retryable record has had one to four attempts and is due by its count after its last failure, ids stay unique, and nobody delivers an unroutable record |
| OutboxDelivery.RetriesWait | src/callback_outbox/__init__.py:346-398 | in every schedule a record selected with recorded count n is selected no sooner than 5 * 2^(n-1) seconds after its last failure, and n is at most four |
| OutboxDelivery.SelectableIff | src/callback_outbox/__init__.py:390-398 | in every schedule: a record can be selected if and only if it is pending, or retryable and 5, 10, 20 or 40 seconds past its last failure by its recorded count |
| OutboxDelivery.FreshIs | src/plan_run_service/callback_delivery.py:142-158 | a new record is pending and due at once, or never due when there is no URL |
| OutboxDelivery.FailReopensIff | src/callback_outbox/__init__.py:346-376 | a failure opens a closed record again if and only if it is retryable and within the budget |
| OutboxDelivery.ClosedForGoodIff | src/callback_outbox/__init__.py:346-447 | a closed record stays closed in every schedule if and only if nobody sends it, or neither its count nor a stale copy leaves room for another attempt |
| OutboxDelivery.SentIsUndone | src/plan_run_service/callback_delivery.py:119-255 | in a schedule from the empty outbox, two deliveries of one record turn sent into due again |
| OutboxDelivery.BudgetForGoodIff | src/callback_outbox/__init__.py:346-376 | the attempts of a record stay within five in every schedule if and only if it is closed for good and the failure of all its senders, from its count or from a stale one, stays within five |
| OutboxDelivery.OpenHasNoBound | src/plan_run_service/callback_delivery.py:255-325 | from any state, an open record can be attempted any number of times |
| OutboxDelivery.AttemptsAreUnbounded | src/plan_run_service/callback_delivery.py:119-325 | so can one from the empty outbox |
| OutboxDelivery.StepKeepsAlone | src/callback_outbox/__init__.py:342-447 | one delivery of a record at a time: copies are current, delivered records are open, and counts stay within the budget |
| OutboxDelivery.BudgetHolds | src/callback_outbox/__init__.py:346-376 | one delivery of a record at a time: at most five attempts, and at most four before it is sent |
| OutboxDelivery.OverIsForGood | src/callback_outbox/__init__.py:390-398 | one delivery of a record at a time: sent, final and unroutable records never change and are never selected again |
| ConfigStore.ExcelConfigStore.ActivateFromUpload | src/excel_config_store/__init__.py:167-285 | input checks in order, then the transaction |
| ConfigStore.ExcelConfigStore.ActivateFromLocalPath | src/excel_config_store/__init__.py:291-437 | input checks in order, an error while the file is read, then the transaction |
| ConfigStore.ExcelConfigStore.Commit | src/excel_config_store/__init__.py:193-285 | content file, latest.json and cache for every combination of failures |
| ConfigStore.CommittedIs | src/excel_config_store/__init__.py:193-285 | after the input checks: accepted if and only if the workbook parses and both writes work, each rejection by its exact condition, and what an accepted activation records |
| ConfigStore.UploadedIs | src/excel_config_store/__init__.py:167-206 | an upload is accepted if and only if its name ends in .xlsx, it has at least 100 bytes, it parses and both writes work; the two input errors by their exact conditions |
| ConfigStore.ImportedIs | src/excel_config_store/__init__.py:291-360 | the same for a local file, which must be there, be allowed and be readable |
| ConfigStore.ExcelConfigStore.RollbackNewByHash | src/excel_config_store/__init__.py:540-555 | removes only a file that this transaction created |
| ConfigStore.ExcelConfigStore.GetLatest | src/excel_config_store/__init__.py:444-517 | latest.json, validated; the cache follows what was found |
| ConfigStore.ReadingIs | src/excel_config_store/__init__.py:444-517 | each answer of reading a latest.json by its exact condition; the cache follows it and the files stay |
| ConfigStore.ExcelConfigStore.TryMigrateLegacy | src/excel_config_store/__init__.py:587-619 | tries legacy files in order until one is accepted |
| ConfigStore.MigrationIs | src/excel_config_store/__init__.py:587-619 | without a latest.json, the first legacy file that can be accepted is taken over, or nothing |
| ConfigStore.RejectedChangesNothingIff | src/excel_config_store/__init__.py:193-285 | a rejected activation leaves latest.json and cache alone, and the content files if and only if its write was undone or never happened |
| ConfigStore.CommitKeepsSoundIff | src/excel_config_store/__init__.py:193-285 | latest.json keeps naming a file with the recorded digest if and only if no failing activation overwrites that file with another content |
| ConfigStore.ClobberingHappens | src/excel_config_store/__init__.py:187-191 | two uploads with one 12-digit prefix in one second: after the second fails, reading reports a hash mismatch |
| ConfigStore.MigrationRefines | src/excel_config_store/__init__.py:587-619 | a migration is at most one accepted assignment of the register |
| ConfigStore.OpRefinesRegister | src/excel_config_store/__init__.py:193-517 | every activation and every read is one operation of an atomic register |
| ConfigStore.RunRefinesRegister | src/excel_config_store/__init__.py:193-517 | so is any sequence of them under any failures |
| ConfigStore.GetReturnsTheLastAccepted | src/excel_config_store/__init__.py:444-517 | reading returns exactly the last accepted activation |
| Verdict.VerdictRanks | src/models/verdict.py:39-86 | which results pass, fail or are skipped, as an if and only if, and that the verdict is one of five words |
| Verdict.VerdictIs | src/models/verdict.py:39-86 | all five verdicts by their exact conditions, and that an unknown status is put aside |
| Verdict.ResultForIs | src/app.py:539-561 | what a result says that the program makes up itself |
| Verdict.RetryableIff | src/models/verdict.py:131-157 | exactly which results are worth another attempt |
| Verdict.WorthAnotherIff | src/models/verdict.py:131-157 | which results are worth another attempt, in statuses and reason texts |
| Verdict.BrokeIff | src/models/verdict.py:94-105 | a reason is transient if and only if it contains one of nine texts |
| Verdict.HopelessIff | src/models/verdict.py:108-128 | a reason rules another attempt out if and only if it contains one of eighteen texts |
| Retry.ExecuteWithRetry | src/executor/retry.py:43-162 | result, records, reasons, delays and counters are those of the one deciding attempt |
| Retry.OneAttemptDecides | src/executor/retry.py:49-149 | there is only one such attempt |
| Retry.AttemptsAreBounded | src/executor/retry.py:111-137 | at most max(2, retry_count+1) attempts, each but the last retryable, and a transient extension gives exactly two |
| Retry.StopsIff | src/executor/retry.py:43-137 | which attempt ends the loop and how many retries there may be, in statuses and reason texts |
| Retry.DelaysAre | src/executor/retry.py:139-148 | one, two, four and then five seconds between attempts |
| Retry.AttemptIs | src/executor/retry.py:56-80 | an attempt that raised is an EXEC_ERROR with its text |
| Batch.App.RunWithPlans | src/app.py:733-807 | gate, skipped rows, executed rows, stopped rows, final plan statuses and the error the run ends with; the last affectedPendingCount rows are the stopped ones |
| Batch.App.Gate | src/app.py:757-785 | marks the plans whose endpoint did not answer and appends their rows |
| Batch.App.ExecuteSequential | src/app.py:515-640 | rows and statuses up to the stop or to a plan that cannot be announced, stop record and pending count |
| Batch.App.ExecuteUntilStop | src/app.py:531-640 | runs plans until the first that finds the stop event set or cannot be announced |
| Batch.App.RunPlan | src/app.py:578-640 | one row per plan, or a second one after a late error |
| Batch.App.StopFrom | src/app.py:532-570 | every remaining plan gets a stopped row with the same count |
| Batch.App.RecordStop | src/app.py:674-678 | the first record of a stop wins |
| Batch.StoppedRowsComeLast | src/app.py:532-570 | the rows of a run end in exactly the stopped rows of the plans that did not start, as many as affectedPendingCount |
| BatchProofs.AtMostOneStartsAfterStop | src/app.py:531-576 | at most one plan starts after the stop event is set, and it is the last, announced or not |
| BatchProofs.RowsPerPlan | src/app.py:757-807 | the exact number of rows: one per plan, plus late errors, less plans that a broken run never comes to, less unreported stale skips |
| BatchProofs.OneRowEachIff | src/app.py:515-807 | every plan has exactly one row if and only if no executed plan meets a late error, every plan can be announced before the stop and, unchecked, no plan came in marked as skipped |
| BatchProofs.EveryPlanHasItsRow | src/app.py:515-640 | in a checked run without late errors that does not break: skips first, then the ready plans in order, one row each, carrying the plan's identity |
| BatchProofs.ProgramKeepsIdentity | src/models/verdict.py:39-86 | giving a verdict changes no identity, so what is proved of rows for any such judge holds for the program's |
| BatchProofs.EveryRowHasItsPlan | src/app.py:515-807 | late errors, stops and broken runs included, every row carries the identity of one of the plans |
| BatchProofs.PlanHasRowIff | src/app.py:515-807 | a plan that can be told apart has a row if and only if the run comes to it |
| BatchProofs.AllHaveTurnsIff | src/app.py:515-807 | the run comes to every plan if and only if it does not break and, unchecked, no plan came in marked as skipped |
| BatchProofs.TwoFailedInRun | src/app.py:578-640 | a plan has two failed rows only when its own result failed and was followed by a late error |
| BatchProofs.UncheckedRunIsTheSame | src/app.py:757-807 | without marked plans the connectivity check makes no difference to the rows |
| BatchProofs.EveryRowHasAVerdict | src/app.py:715-722 | no row leaves a run without a verdict |
| BatchProofs.LateErrorDoublesTheRow | src/app.py:603-640 | one plan whose line cannot be printed ends with two rows |
| BatchRows.EveryRowSays | src/app.py:515-807 | whose row every row of every run is, and its status, reason and verdict in the words users see |
| BatchRows.RunEndsAt | src/app.py:531-576 | how far a run goes, by the stop event and the plans that cannot be announced, and when it breaks |
| BatchRows.OnlySuccessPasses | src/app.py:578-640 | a row passes only for a plan that was executed and returned EXEC_SUCCESS |
| BatchRows.ReasonsAre | src/app.py:532-570 | status, label and origin that a stop leaves |
| BatchRows.FinalStatusIs | src/app.py:515-640 | the status each plan ends with |
| Lookup.EntryIff | src/app.py:363-380 | a key leads to an owner if and only if that owner alone has it |
| Lookup.BuildTable | src/app.py:363-372 | builds that table in one pass |
| Lookup.FindFirstPlace | src/app.py:374-380 | the first key that leads to an owner |
| Lookup.Collect | src/app.py:280-298 | collects owners once each by their first key |
| Lookup.EverybodyIsCollected | src/app.py:280-298 | owners that share no keys are all collected, in order |
| Lookup.CollectedAreDistinct | src/app.py:280-298 | no owner is collected twice, also when it is wanted twice |
| Merge.MergeRetryResults | src/cli/failed_retry.py:119-163 | computes the merge that picks, row by row, the first free retry result by key order |
| Merge.IndexRetries | src/cli/failed_retry.py:130-133 | each key leads to the first retry result that has it |
| Merge.ChooseFor | src/cli/failed_retry.py:141-151 | the first key whose retry result and key are both unused |
| Merge.MergeIsSafe | src/cli/failed_retry.py:119-163 | with no uniqueness assumed: only failed rows are replaced, by a result sharing a key, and no result or key is used twice |
| Merge.MergeIsComplete | src/cli/failed_retry.py:139-156 | a failed row is left alone only if each of its matches was taken by an earlier row |
| Merge.FailedIff | src/cli/failed_retry.py:13-44 | which results are failed and which of them retryable |
| Merge.KeysAre | src/cli/failed_retry.py:166-224 | the keys of results and plans, in order |
| RetryRound.RememberPlans | src/app.py:363-372 | a key carried by two plans leads to neither |
| RetryRound.FailedRetryCandidates | src/app.py:276-298 | clones of the plans found for the retryable failed results, or an error exactly when one of them has the attribute `plan_item_id` |
| RetryRound.CloneAll | src/app.py:382-392 | one clone per chosen plan in order, or an error exactly when one of them has that attribute |
| RetryRound.CloneIs | src/app.py:382-392 | what a clone is |
| RetryRound.LookupFindsOwner | src/app.py:374-380 | a result with its plan's identity finds that plan |
| RetryRound.CandidatesAreTheFailedPlans | src/app.py:276-298 | when no plan has two failed rows: exactly the plans of the retryable failed results, each once, in order |
| RetryRound.RoundReplacesExactlyTheFailed | src/cli/failed_retry.py:119-163 | when no plan has two failed rows, merging replaces exactly the retryable failed rows, each by a result of its own plan, whatever the order of the retry results and how often a plan occurs |
| RetryRound.SecondFailureStays | src/cli/failed_retry.py:119-163 | a plan with two failed rows and one retry result: the second failed row is not replaced |
| RoundProofs.GateKeepsIdentities | src/connectivity/preflight.py:445-476 | the gate changes no identity, so its plans still match their results |
| RoundProofs.RetryRunServesCandidates | src/app.py:276-325 | late errors or not, the rows of a rerun that ends without an error belong to exactly the candidates' plans |
| RoundProofs.RetryRoundEndToEnd | src/app.py:276-392 | run, candidates, any rerun of clones, merge: unless a failed result met a late error, every retryable failed row ends with a row of the rerun for its own plan, and all others stay |
| RoundProofs.RetryRoundIff | src/app.py:276-392 | every row ends right in every rerun if and only if no executed plan whose result failed met a late error, or a candidate cannot be cloned |
| RoundProofs.LateErrorBreaksTheRound | src/app.py:603-640 | one plan: a retryable result followed by a late error, and a retry that succeeds replaces only one of the two rows |
| Preflight.CheckAll | src/connectivity/preflight.py:168-251 | every enabled device gets the status of its own endpoint on each probed side: for a plain address, what connecting to its BMC or in-band address comes to; sides that are not probed stay OK, and every addressed endpoint is probed once |
| Preflight.GroupByEndpoint | src/connectivity/preflight.py:176-192 | exactly the enabled devices on the probed sides, grouped under distinct endpoint keys |
| Preflight.AddDevice | src/connectivity/preflight.py:180-192 | a device joins the endpoint with its key, or opens it |
| Preflight.SubmitProbes | src/connectivity/preflight.py:204-210 | endpoints without an address are answered at once, all others handed out |
| Preflight.ProbeAll | src/connectivity/preflight.py:204-219 | every handed-out endpoint is probed once, in whatever order |
| Preflight.Deliver | src/connectivity/preflight.py:228-249 | an answer reaches the endpoint's devices and disturbs no other row |
| Preflight.KeysTellHostsApart | src/connectivity/preflight.py:88-93 | equal keys mean equal hosts, but for the empty-address text |
| Preflight.SharedAgreesIff | src/connectivity/preflight.py:96-130 | the shared probe agrees with probing the device directly, on every network, if and only if its host is settled |
| Preflight.FlagLikeHostsDisagree | src/connectivity/preflight.py:66-85 | a URL whose host is a flag word: reachable alone, without an address in a batch |
| Preflight.PlainIsProbed | src/connectivity/preflight.py:66-130 | a plain address is connected to as it is, in a batch and alone, under its own key |
| Preflight.NoAddress | src/connectivity/preflight.py:66-108 | blank fields, flag words and paths count as no address |
| Preflight.UrlIsProbed | src/connectivity/preflight.py:75-79 | of a URL the host is connected to |
| Preflight.ApplyPreflight | src/connectivity/preflight.py:416-485 | status and reason of every plan after the gate |
| Preflight.GateIs | src/connectivity/preflight.py:445-476 | status and reason that the gate writes, by the status of the plan's side |
| Preflight.PlanRunsIff | src/connectivity/preflight.py:445-476 | a plan stays runnable if and only if the shared probe of its endpoint finds it reachable; for a settled host, if and only if probing it alone does |
| Preflight.PlainPlanRunsIff | src/connectivity/preflight.py:445-476 | for plain addresses: a plan stays PENDING if and only if its own side of its device can be connected to |
| Sentinel.AnyCutAgreesOnSuccess | src/executor/ssh_executor.py:963-974 | wherever the transcript is cut, an extracted code is a beginning of the printed one and is zero if and only if it is |
| Sentinel.WholeTranscriptGivesCode | src/executor/ssh_executor.py:966-974 | the whole transcript gives the printed code |
| Sentinel.PrintedLineReports | src/executor/ssh_executor.py:957-961 | the line the shell prints is the one that is found, unless an earlier line looks like it |
| Sentinel.MatchesIff | src/executor/ssh_executor.py:42-42 | a line matches if and only if it is the sentinel, a colon, digits and blanks |
| Sentinel.StrippingKeepsTheOthers | src/executor/ssh_executor.py:976-979 | stripping keeps exactly the lines without the sentinel, in order, and leaves nothing to extract |
| Sentinel.StripTerminalSentinel | src/executor/ssh_executor.py:976-979 | computes that text |
| Sentinel.ReadTerminalUntilIdle | src/executor/ssh_executor.py:981-1062 | what was read is a prefix of what arrives, the reason for stopping says whether the sentinel is there and whether the byte limit is reached, the flags follow from reason and clock, and the sentinel is noticed with the chunk that completes it |
| Sentinel.ReadUntil | src/executor/ssh_executor.py:995-1026 | the same for any way of telling that a transcript is complete; idle and no-output timeouts happen exactly at the first turn that is silent for too long |
| Sentinel.ReaderAgreesOnSuccess | src/executor/ssh_executor.py:995-1026 | success is never mistaken for failure, or the other way round, for any chunks and any reason for stopping |
| Text.NormPrefix | src/executor/ssh_executor.py:966-974 | line ends normalised so far are a prefix of the normalised whole |
| Normalizer.CleanIsIdempotent | src/executor/ssh_executor.py:112-142 | no escape or control character survives the first pass |
| Normalizer.ControlsAre | src/executor/ssh_executor.py:108-109 | which characters are control characters |
| Normalizer.SequenceVanishes | src/executor/ssh_executor.py:108-113 | an escape sequence vanishes from a text |
| Normalizer.OtherStays | src/executor/ssh_executor.py:108-113 | any other character stays unless it is a control character |
| Normalizer.SequencesCanSplice | src/executor/ssh_executor.py:112-114 | removing one escape sequence can leave a new one, so the second substitution is needed |
| Normalizer.SanitizeIsIdempotent | src/executor/ssh_executor.py:131-142 | a second pass of the raw normaliser changes nothing |
| Normalizer.NormalizeStructuredStream | src/executor/ssh_executor.py:116-128 | computes the structured text line by line |
| Normalizer.SubstitutionIsNoOp | src/executor/ssh_executor.py:116-128 | after blank lines are collapsed the later substitution finds nothing |
| Normalizer.StructuredIsIdempotent | src/executor/ssh_executor.py:116-128 | a second pass of the structured normaliser changes nothing |
| Normalizer.StructuredKeepsOutline | src/executor/ssh_executor.py:116-128 | the structured text says line by line what the cleaned text says, with a gap exactly where there was one |
| InteractiveShell.SendAndRead | src/executor/ssh_executor.py:1298-1450 | echo, prompt, pager, idle and deadline flags and the reason for every device behaviour: reading ends by the prompt, by idleness or by the deadline at the first turn that calls for it, or at the page cap |
| InteractiveShell.ReadLoop | src/executor/ssh_executor.py:1318-1392 | the same for any way of telling echo, prompt and pager marks |
| InteractiveShell.TakeTurn | src/executor/ssh_executor.py:1324-1392 | one turn: what arrives, echo, prompt, one key press for each newly seen pager mark up to 200, and the idle check, in this order |
| InteractiveShell.QualityIs | src/executor/ssh_executor.py:1417-1450 | the kind of output by echo, content and reason |
| InteractiveShell.PromptIsReached | src/executor/ssh_executor.py:1340-1400 | a device that keeps within the gaps, pages no more than 200 times and shows its prompt in time is read to its prompt |
| InteractiveShell.NoPromptMeansPagerCap | src/executor/ssh_executor.py:1386-1427 | giving up without prompt and without timeout happens only at the cap of 200 pages |
| InteractiveShell.SuccessMeansPromptOrPagerCap | src/executor/ssh_executor.py:1114-1240 | a successful step saw its echo, and it saw a prompt or read output up to the page cap |
| InteractiveShell.ReadStep | src/executor/ssh_executor.py:1119-1251 | the grade of one command for every reading and exception |
| InteractiveShell.GradesIff | src/executor/ssh_executor.py:1165-1251 | each of the four grades of a read command by its exact condition |
| InteractiveShell.ReadsCohere | src/executor/ssh_executor.py:1393-1450 | how flags, reason and kind of output go together in every read |
| InteractiveShell.ExecuteInteractiveShell | src/executor/ssh_executor.py:1114-1253 | one step per command in order, and flags that say exactly whether some step failed or timed out |
| EchoOrder.SuccessAnswersIff | src/executor/ssh_executor.py:1355-1450 | for every positive timeout: every successful step that ends in the device's prompt line has that prompt after its echo, if and only if the command can be told apart from the line |
| EchoOrder.PromptFollowsEchoIff | src/executor/ssh_executor.py:1417-1434 | the same for every output that passes the grading |
| EchoOrder.SuccessHasPromptAfterEcho | src/executor/ssh_executor.py:1355-1361 | what a successful step means when its command can be told apart from the line the prompt was found in |
| EchoOrder.PassingIsSuccess | src/executor/ssh_executor.py:1298-1450 | an output that passes the grading is the output of a successful step, read in one chunk, or in two of which the first shows the echo but no prompt |
| EchoOrder.PromptTakenForEcho | src/executor/ssh_executor.py:43-45 | command `sw`, prompt `<sw1>`: one chunk with the prompt alone is taken for echo, prompt and output |
| EchoOrder.EchoStays | src/executor/ssh_executor.py:112-114 | an echo once seen stays in the cleaned text, unless it ends like an escape sequence that is cut off |
| RouteGuard.FoldingADiffGivesTheNewRoutes | src/connectivity/route_guard.py:83-95 | a report says exactly how to get from the old routes to the new ones |
| RouteGuard.ReportIs | src/connectivity/route_guard.py:83-95 | a report lists what came and then what went, labelled, each in ascending order |
| RouteGuard.LessIs | src/connectivity/route_guard.py:90-93 | the order is that of the first character that differs |
| RouteGuard.SuccessiveDiffsDiffer | src/connectivity/route_guard.py:83-95 | two changes in a row never read the same |
| RouteGuard.SampleIsReportedIff | src/connectivity/route_guard.py:134-157 | while the callback returns, a sample is reported if and only if it differs from the base, so the duplicate branch is never taken |
| RouteGuard.ReportsTellEverything | src/connectivity/route_guard.py:98-157 | all reports folded over the first snapshot give the current base, which is the last sample |
| RouteGuard.UnreportedIff | src/connectivity/route_guard.py:143-157 | in any state, a sample is passed over if and only if it equals the base or is what a fitting signature makes of it |
| RouteGuard.SignatureIsLastReport | src/connectivity/route_guard.py:98-157 | in every run, with raising callbacks and restarts, the signature is the change of the last report |
| RouteGuard.RunHidesIff | src/connectivity/route_guard.py:98-157 | in every such run a sample is passed over if and only if it equals the base or changes it as the last report did |
| RouteGuard.TakenReportsGiveTheBase | src/connectivity/route_guard.py:98-157 | in every such run the reports that callbacks took since the last start, folded over its snapshot, give the base |
| RouteGuard.RaisingCallbackHidesAReturningChange | src/connectivity/route_guard.py:143-157 | a change that comes, goes and comes again is then reported only once |
| RouteGuard.RestartHidesAReturningChange | src/connectivity/route_guard.py:98-157 | a change that is reported, undone and, after a restart, comes again is not reported |
| RouteGuard.Monitor.Start | src/connectivity/route_guard.py:98-110 | takes a new base and keeps the old signature |
| RouteGuard.Monitor.Sample | src/connectivity/route_guard.py:134-159 | one turn of the loop: new base, new signature, and the report if there is one |
| Evidence.NumberingIsInjective | src/out/acceptance_docx.py:890-896 | the numbered candidates for one name are all different |
| Evidence.TakenCandidatesFit | src/out/acceptance_docx.py:890-896 | no more candidates can be taken than there are names, so the search ends |
| Evidence.UniqueArcname | src/out/acceptance_docx.py:884-896 | the name itself, or its first free candidate from number two on |
| Evidence.PackFile | src/out/acceptance_docx.py:497-515 | one eligible file, packed under a fresh name or reported missing |
| Evidence.PackFiles | src/out/acceptance_docx.py:497-515 | one inner loop: eligible files in order, packed or reported missing |
| Evidence.PackageEvidence | src/out/acceptance_docx.py:490-523 | exactly the eligible files of all rows are packed or reported missing, in order, under distinct names |
| Evidence.ExtensionsAre | src/out/acceptance_docx.py:20-20 | which files are eligible and what is reported of a missing one |
| Evidence.ExistingImageIff | src/out/acceptance_docx.py:699-712 | which rows have an image that exists |
| Evidence.NumberedIs | src/out/acceptance_docx.py:889-893 | the number goes between stem and suffix of the file name |
| Evidence.PackagingConserves | src/out/acceptance_docx.py:490-523 | packed plus missing is the number of eligible files, and no two names are equal |
| Evidence.PackingIsDetermined | src/out/acceptance_docx.py:884-896 | the files determine the names of the whole archive |
| Evidence.OneImagePerTask | src/out/acceptance_docx.py:699-708 | one row per task in order of first appearance: the first with an existing image, else the first |
| Evidence.RepresentativeIsUnique | src/out/acceptance_docx.py:699-708 | there is only one such row |

## Left out

- Records are values: the store hands out its `StoredJob` objects, plans and results are shared between lists, and one retry object could be listed twice. What a caller could change through such a reference is not modelled; a result is identified by its place in its list instead of by object identity.
- Dispatch: the URL policy, the derivation of the lock URI and generated job ids (their results are part of a request), redaction of messages, cancelling and status queries, the started-callback (its exceptions are swallowed and it changes no state), what the callbacks send, and reading a job object after it was fetched while another thread changes it.
- DispatchProtocol: an exception raised by `mark_finished` inside the outer handler, or by the lock manager, is not a step; the source of both shows none.
- DispatchDrain.DrainRunsExactlyTheFreeJobs: does not cover a lock of an outsider that expires while the queue is drained; which blocked jobs then run depends on when it expires. `DrainRunsTheFreeJobsAnyway` covers that case.
- LockManager.ResourceLockManager.Acquire: the `ValueError` for an empty uri or owner is left out; the service passes neither.
- DispatchStatus.StepKeepsStatuses: the set of statuses that runners report is a parameter; `NoJobIsLeftRunning` takes exactly those of the schedule.
- Outbox: `append_batch`, redaction, JSON encoding and corrupt lines; a record is a value and a rewrite either happens or not. Times are reals.
- OutboxDelivery.BudgetHolds: assumes one delivery of a record at a time, which the program does not enforce; `BudgetForGoodIff` is the exact condition without that, and `AttemptsAreUnbounded` the schedules that break the budget.
- OutboxDelivery.OverIsForGood: assumes the same; `ClosedForGoodIff` is the exact condition without it. Outbox ids are fresh in this module, and a write of the file succeeds.
- ConfigStore: parsing of the workbook is an answer of the environment, as is the side effect of `_set_latest_excel` on the plan service; file names are compared by name within one directory, and temporary files are not modelled. Whether a path is allowed is an answer of the environment.
- ConfigStore.GetReturnsTheLastAccepted: does not cover tampering with the files from outside, nor digests that clash within one second (`Clobbers`).
- Batch: the dynamic scheduler, pausing, reports, and the mode that loads a workbook first; times, artifacts and other fields of a result that no theorem needs. A stop is set at most once per run. What a caller does with the exception of a run that breaks is left out.
- RoundProofs.RetryRoundEndToEnd: assumes that no failed result of the first run met a late error; `RetryRoundIff` shows that this is needed. A rerun that breaks raises, and nothing is merged then.
- Retry: times, artifact paths and the sequence number that the wrapper fills in.
- Verdict: statuses that are not strings.
- Preflight: probing itself, latencies, counters, the authentication checks, and the grouping of log lines. Lower-casing covers the ASCII letters.
- Sentinel.ReadTerminalUntilIdle: a chunk that ends inside a UTF-8 character is not modelled. The last line and the progress markers of one vendor tool are left out of the report, and so are its durations. Digits are the ASCII digits.
- InteractiveShell: the patterns for prompts and pager marks are parameters, and `EchoOrder` writes the prompt pattern out; what a setup or context command is, is a parameter. `_read_until_prompt`, logging and the join of the outputs are left out. A step at the page cap has no prompt, so it has no order of echo and prompt either.
- RouteGuard: taking a snapshot and parsing it; a snapshot that raises is a turn without a sample. Threads are left out: the monitor's turns are taken one by one.
- Evidence: which name a file asks for (`_arcname_for`) is given with the file; so is whether it exists. A path that resolves to the run directory itself has an empty name and is not modelled. Filling in documents and matching rows with cases are left out.
- Playwright, paramiko, sockets, the HTTP routes, document and image calls, menus and launchers, logging and the formatting of reports are left out: they are input and output around these cores.
