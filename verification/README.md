# A verified model of the AgenticOS runtime

This project models the parts of the AgenticOS runtime and its ROS bridge that carry state across
calls, and proves what they promise for every run. `dafny verify dfyconfig.toml` checks it.

## What is modelled

- **Skill execution.** `SkillExecutor.execute` passes its gates, takes try-locks, gets a cancellation
  token, dispatches, audits and releases in `finally`. `SkillCalls` says what each stretch between two
  awaits does. `SkillExecution` interleaves any number of calls with a foreign client of the device
  arbiter, forced releases and cancellations, and proves the properties of whole runs. `SkillHistory`
  proves which end of a call the answers of its gates and backend force in every run. `SkillExecutor`
  is the same code in its imperative form, over the classes of `Leases` (with the device arbiter),
  `Cancellation` and `Audit`; every stretch is proved to do what the corresponding step of the machine says.
- **Task log.** `Retention` and `RetentionLaws` model the selection of records: insertion-ordered
  dictionaries, stable sorts and three overlapping groups. `TaskLog` is the append-only log with its
  recent-tasks file and compaction, `LogRaces` the same log under threads that overlap.
- **Human queue.** `HumanQueue` models the polling loop of `ask`, the three logs, and concurrent asks.
- **Dispatcher.** `Dispatcher` and `Sessions` model the bookkeeping of one request across the task log
  and the session store, on every outcome of planner, validator and executor.
- **Arm bridge.** `ArmGeometry` is the rigid transform over the reals, `ArmSlot` the single active-action
  slot shared by three action servers, `Alignment` the clamped control loop of the inspection bridge.

## Where the promise needs a condition

- Compaction is invisible for a clock that never runs backwards exactly when operations share no instant
  except the very first one: a later tie can reorder the recent list after a compaction
  (`TaskLog.InvisibleIff`).
- Compaction reads and replaces the log without the lock. Nothing is lost, and no answer is stale, exactly
  when no operation falls between the read and the replace of a compaction (`LogRaces.OverlapLosesIff`).
  The runs of `TaskLog` take a compaction as one step.
- With `retain_recent_n` 0 a compaction drops an active task as soon as it is written, and `arun` then fails
  on it (`TaskLog.NewestSurvivesIff`, `Dispatcher.DispatcherAgent.Arun`).
- Selection is idempotent exactly for non-negative limits, because Python slices with a negative bound
  drop from the end (`RetentionLaws.IdempotentIffNonNegative`).
- `arun` closes the task it created exactly when the plan carries the id `arun` made. A plan with its
  own `task_id`, which an LLM may return since the planner only sets a default, leaves that task as
  planned, and the request fails with the KeyError swallowed (`Dispatcher.DispatcherAgent.Arun`).
- A session cancellation reaches every earlier token exactly as long as the session was not cleared
  (`Cancellation.SessionCancelReaches`).
- Leases are exclusive per pair of session and call id; two calls under one pair share a lease
  (`Leases.SharedKeyLosesLease`). A foreign release under the owner name of a lease breaks the agreement
  with the arbiter, and nothing else does (`Leases.ForeignReleaseIff`).
- Reopening the audit log is safe exactly when no write is in progress (`Audit.ReopenFreshIff`).
- The action slot uses the empty string for "free", so exclusion holds exactly when no allowed action
  is named by it (`ArmSlot.ExclusionIff`).

## Assumed contracts

- The other client of the arbiter does not release under the owner name of a current lease.
- Agent lifecycle, registry, schema validation, permission manager, access policy, safety backend and
  skill backend are foreign. Their answers and exceptions are inputs of the steps. Registering a
  resource with the lifecycle manager is total.
- A pair of session and call id, a correlation id and a task id are used by one call, ask or request.
- Stores do not fail; each file is a sequence of records. Time stamps are integers.

## Model

| member | source | states |
|---|---|---|
| SkillExecution.RunInv | agentic_runtime_src/agentic_runtime/skill_executor/executor.py:55-315 | every interleaving of calls, foreign arbiter clients, forced releases and cancellations keeps: call states fit their logs, leases fit the calls and the arbiter, tokens fit the history of cancellations, audit ids are consecutive |
| SkillExecution.LeasesAreDisjointUnion | agentic_runtime_src/agentic_runtime/skill_executor/executor.py:170-183 | without forced releases, a lease exists for a resource and a call if and only if that call is past its lock loop with that resource; no resource is in two calls |
| SkillExecution.ExclusiveDispatch | agentic_runtime_src/agentic_runtime/skill_executor/executor.py:170-206 | two calls dispatching at once never need the same resource, unless an earlier forced release by session or agent took it from one of them while it held it |
| SkillExecution.NoLeaseLeft | agentic_runtime_src/agentic_runtime/skill_executor/executor.py:300-315 | a call that returned, by whatever path, holds no lease |
| SkillExecution.FinishTakesOnlyOwn | agentic_runtime_src/agentic_runtime/skill_executor/executor.py:300-315 | the `finally` block of one call leaves every lease of other calls, and its arbiter entry, alone, forced releases or not |
| SkillExecution.LeasesAgreeWithArbiter | agentic_runtime_src/agentic_runtime/skill_executor/resource_manager.py:25-57 | in every run, with a foreign client of the arbiter present, each lease is held in the arbiter under its own owner |
| SkillExecution.GatesPrecedeDispatch | agentic_runtime_src/agentic_runtime/skill_executor/executor.py:67-206 | what a call logged before its dispatch is exactly the gates its skill requires, in order |
| SkillHistory.AnswersDecide | agentic_runtime_src/agentic_runtime/skill_executor/executor.py:122-299 | in every run the answers a call has heard decide where it stands and every field of its result: the first gate that refuses, or else the lock loop, the time limit and the backend, with its own error code |
| SkillHistory.DispatchNeedsEveryYes | agentic_runtime_src/agentic_runtime/skill_executor/executor.py:122-206 | a dispatched call had schema and permission pass, access too and an allowing safety answer where its skill requires them, and a time limit that is a number |
| SkillHistory.FirstRefusalEnds | agentic_runtime_src/agentic_runtime/skill_executor/executor.py:122-168 | the first gate that refuses ends the call with the status and code of its exception, that gate marked denied, and without a dispatch |
| SkillHistory.DispatchesIff | agentic_runtime_src/agentic_runtime/skill_executor/executor.py:170-206 | past its gates, a call is dispatched if and only if its time limit is a number and each of its locks is its own already, or leased to nobody and held by nobody in the arbiter |
| SkillHistory.FinishForgets | agentic_runtime_src/agentic_runtime/skill_executor/executor.py:300-315 | after the `finally` block no event is stored under the key of the call and no lease is its own |
| SkillExecution.DispatchHoldsLocks | agentic_runtime_src/agentic_runtime/skill_executor/executor.py:170-206 | at the step that dispatches, the call holds a lease on every lock of its skill |
| SkillExecution.OneAuditPerCall | agentic_runtime_src/agentic_runtime/skill_executor/executor.py:66-299 | a call that returned a result was either turned away by admission, judged by what it was entered with, and then wrote nothing and has that code, or it wrote one audit record agreeing with its result and, if the registry found its skill, QUEUED, at most one EXECUTING and one terminal record, each with the result fields and the status that the audit status calls for |
| SkillExecution.RunBegan | agentic_runtime_src/agentic_runtime/skill_executor/executor.py:66-112 | in every run a call has no skill and no status exactly when the arguments of its entry make admission refuse it, and otherwise the skill the registry found |
| SkillExecution.AuditIdsDistinct | agentic_runtime_src/agentic_runtime/skill_executor/executor.py:207-220 | no two audit records of a run share an id |
| SkillExecution.TokenSetIff | agentic_runtime_src/agentic_runtime/skill_executor/executor.py:190-193 | the token a call was dispatched with is set if and only if some operation after its issue cancels the session, the call or everything while the event in question is still stored |
| SkillExecution.CancellingSkill | agentic_runtime_src/agentic_runtime/skill_executor/executor.py:149-193 | a skill marked cancels_session that is past its gates has cancelled its session: every token of the session taken before is set unless the session was cleared in between, and its own token is taken later |
| SkillExecution.OnlyMarkedCancel | agentic_runtime_src/agentic_runtime/skill_executor/executor.py:149-150 | a call cancels its session if and only if its skill is marked and it passed the gates |
| SkillExecution.FreshTokenUnset | agentic_runtime_src/agentic_runtime/skill_executor/executor.py:190-193 | a token just taken is not set |
| SkillExecution.ForceSessionFrees | agentic_runtime_src/agentic_runtime/skill_executor/resource_manager.py:47-51 | in every run a forced release of a session takes exactly the leases of that session and their arbiter entries, and changes nothing of any other |
| SkillExecution.ForceAgentFrees | agentic_runtime_src/agentic_runtime/skill_executor/resource_manager.py:53-57 | the same for an agent |
| SkillExecution.RevokedIffTaken | agentic_runtime_src/agentic_runtime/skill_executor/resource_manager.py:47-57 | a lease counts as revoked if and only if a forced release named its session or agent while the call held it |
| SkillCalls.ReactOk | agentic_runtime_src/agentic_runtime/skill_executor/executor.py:122-299 | each stretch of a call keeps the invariant tying its state to what it has written |
| SkillCalls.AnswerOutcome | agentic_runtime_src/agentic_runtime/skill_executor/executor.py:452-519 | the terminal record is DONE if and only if the backend said yes in a boolean; a plain no keeps the backend's own error code, SKILL_BACKEND_FAILED where it gave none, and is CANCELLED or TIMEOUT exactly for the listed codes; malformed answers are SKILL_RESULT_INVALID |
| SkillCalls.RaisedOutcome | agentic_runtime_src/agentic_runtime/skill_executor/executor.py:233-299 | an exception ends in REJECTED, TIMEOUT or FAILED by its kind, under its own code, and only the gate that refused is marked denied |
| SkillCalls.ReactFrame | agentic_runtime_src/agentic_runtime/skill_executor/executor.py:55-315 | only the lock loop and the `finally` block touch leases; a stretch writes at most one audit record, under the next id |
| SkillCalls.ReactOps | agentic_runtime_src/agentic_runtime/skill_executor/executor.py:149-193 | tokens are issued only at launch; a session is cancelled only before the launch of the cancelling call |
| SkillExecutor.StretchIsStep | agentic_runtime_src/agentic_runtime/skill_executor/executor.py:55-315 | what a stretch does to the shared objects is what a step of the interleaving machine does to its world |
| SkillExecutor.Activation.Enter | agentic_runtime_src/agentic_runtime/skill_executor/executor.py:66-120 | admission, registry lookup and QUEUED record do what the step function says |
| SkillExecutor.Activation.PassGates | agentic_runtime_src/agentic_runtime/skill_executor/executor.py:122-150 | schema, permission and access gates and the session cancellation do what the step function says |
| SkillExecutor.Activation.HearSafety | agentic_runtime_src/agentic_runtime/skill_executor/executor.py:152-168 | the safety verdict, or the exception raised instead, does what the step function says |
| SkillExecutor.Activation.Launch | agentic_runtime_src/agentic_runtime/skill_executor/executor.py:170-206 | the lock loop, timeout parsing, token and EXECUTING record do what the step function says |
| SkillExecutor.Activation.HearBackend | agentic_runtime_src/agentic_runtime/skill_executor/executor.py:207-299 | the backend answer, or the exception raised instead, is turned into status, audit record and terminal syscall record as the step function says |
| SkillExecutor.Activation.Finish | agentic_runtime_src/agentic_runtime/skill_executor/executor.py:300-315 | the `finally` block releases the acquired locks and clears the call event |
| SkillExecutor.Activation.Handle | agentic_runtime_src/agentic_runtime/skill_executor/executor.py:233-299 | the `except` clauses: which result field is denied, which status and code are audited |
| SkillExecutor.SkillSyscall.MarkStarted | agentic_runtime_src/agentic_runtime/syscall/models.py:42-44 | the status changes, the first start time stays |
| SkillExecutor.SkillSyscall.Finish | agentic_runtime_src/agentic_runtime/syscall/models.py:46-57 | status, error code, audit id and end time are overwritten, the start time stays |
| Leases.LateReleaseHarmless | agentic_runtime_src/agentic_runtime/skill_executor/resource_manager.py:41-45 | after a forced release, the late release of the old call changes neither the lease of the new holder nor its arbiter entry |
| Leases.LocksConserved | agentic_runtime_src/agentic_runtime/skill_executor/executor.py:170-183 | a call that holds no lease restores lease table and arbiter by locking and releasing, however far the lock loop got |
| Leases.LocksConservedIff | agentic_runtime_src/agentic_runtime/skill_executor/executor.py:170-183 | lease table and arbiter are restored by locking and releasing if and only if the call held none of the granted resources before |
| Leases.GrantedIff | agentic_runtime_src/agentic_runtime/skill_executor/executor.py:170-183 | the lock loop grants everything if and only if each resource is leased to the call itself, or leased to nobody and held by nobody in the arbiter |
| Leases.RefusedOnlyIfTaken | agentic_runtime_src/agentic_runtime/skill_executor/resource_manager.py:25-39 | the lock loop stops only at a resource leased to another call, or held in the arbiter by anyone without a lease |
| Leases.DeviceArbiter.Acquire | agentic_runtime_src/agentic_os/kernel/device_arbitration/arbiter.py:39-58 | the arbiter grants a resource only while nobody holds it |
| Leases.DeviceArbiter.Release | agentic_runtime_src/agentic_os/kernel/device_arbitration/arbiter.py:60-73 | the arbiter releases only for the owner |
| Leases.ForeignReleaseIff | agentic_runtime_src/agentic_runtime/skill_executor/resource_manager.py:33-44 | a release by another arbiter client keeps table and arbiter in agreement if and only if it does not use the owner name of that lease |
| Leases.SharedKeyLosesLease | agentic_runtime_src/agentic_runtime/skill_executor/resource_manager.py:27-45 | two calls with one session and call id share a lease and the first release takes it from both |
| Leases.RevokeFacts | agentic_runtime_src/agentic_runtime/skill_executor/resource_manager.py:47-57 | a forced release removes exactly the chosen leases and keeps the agreement with the arbiter |
| Leases.SessionRevoked | agentic_runtime_src/agentic_runtime/skill_executor/resource_manager.py:47-51 | after a forced release by session no lease has that session, its resources are out of the arbiter, and every other lease and arbiter entry is unchanged |
| Leases.AgentRevoked | agentic_runtime_src/agentic_runtime/skill_executor/resource_manager.py:53-57 | the same by agent |
| Leases.ResourceManager.Acquire | agentic_runtime_src/agentic_runtime/skill_executor/resource_manager.py:25-39 | acquire returns the existing lease of the same call, refuses another call, and otherwise asks the arbiter |
| Leases.ResourceManager.Release | agentic_runtime_src/agentic_runtime/skill_executor/resource_manager.py:41-45 | release works only for the holder |
| Leases.ResourceManager.AcquireAll | agentic_runtime_src/agentic_runtime/skill_executor/executor.py:170-183 | the lock loop acquires a prefix of the locks and stops at the first refusal |
| Leases.ResourceManager.ReleaseAll | agentic_runtime_src/agentic_runtime/skill_executor/executor.py:300-313 | the release loop over the acquired locks |
| Leases.ResourceManager.ReleaseBySession | agentic_runtime_src/agentic_runtime/skill_executor/resource_manager.py:47-51 | the session has no lease left, its resources are out of the arbiter, and leases and arbiter entries of others are as before |
| Leases.ResourceManager.ReleaseByAgent | agentic_runtime_src/agentic_runtime/skill_executor/resource_manager.py:53-57 | the agent has no lease left, its resources are out of the arbiter, and leases and arbiter entries of others are as before |
| Cancellation.TokenSetIffReached | agentic_runtime_src/agentic_runtime/skill_executor/cancellation.py:21-64 | over every sequence of operations, a token is set if and only if an operation after its issue reaches it; a fresh token is unset |
| Cancellation.ReachedIff | agentic_runtime_src/agentic_runtime/skill_executor/cancellation.py:21-64 | operations reach a token if and only if one of them cancels its session or everything before the session is cleared, or its call or everything before session or call is cleared |
| Cancellation.NoCancellationLost | agentic_runtime_src/agentic_runtime/skill_executor/cancellation.py:21-43 | cancelling the session or everything sets every earlier token of the session, unless the session was cleared |
| Cancellation.OnlyCancelled | agentic_runtime_src/agentic_runtime/skill_executor/cancellation.py:35-64 | a set token was reached by a cancellation of its session, its call or everything |
| Cancellation.ClearedIsOutOfReach | agentic_runtime_src/agentic_runtime/skill_executor/cancellation.py:48-52 | after clear_session an earlier unset token can never be set again |
| Cancellation.SessionCancelReaches | agentic_runtime_src/agentic_runtime/skill_executor/cancellation.py:35-52 | a session cancellation reaches an earlier token if and only if it was reached before or its session was not cleared |
| Cancellation.SetStaysForever | agentic_runtime_src/agentic_runtime/skill_executor/cancellation.py:21-64 | no operation ever unsets a token |
| Cancellation.CancellationManager.EventFor | agentic_runtime_src/agentic_runtime/skill_executor/cancellation.py:21-33 | set or missing events are replaced, others reused, and both are combined for a named call |
| Cancellation.CancellationManager.CancelSession | agentic_runtime_src/agentic_runtime/skill_executor/cancellation.py:35-36 | the stored session event, replaced if it was set, is set |
| Cancellation.CancellationManager.CancelCall | agentic_runtime_src/agentic_runtime/skill_executor/cancellation.py:38-43 | the stored call event is set; the answer says whether there was one |
| Cancellation.CancellationManager.ClearSession | agentic_runtime_src/agentic_runtime/skill_executor/cancellation.py:48-52 | the session event and all its call events are forgotten |
| Cancellation.CancellationManager.CancelAll | agentic_runtime_src/agentic_runtime/skill_executor/cancellation.py:60-64 | every stored event is set |
| Cancellation.CancellationManager.HandleReadsState | agentic_runtime_src/agentic_runtime/skill_executor/cancellation.py:12-13 | a combined event reports the disjunction of its two events |
| Audit.AuditIdInjective | agentic_runtime_src/agentic_runtime/audit.py:45-48 | the zero-padded format is injective for every counter value, beyond six digits too |
| Audit.AuditIdFormat | agentic_runtime_src/agentic_runtime/audit.py:45-48 | an id is audit_ and the decimal counter, at least six digits wide, padded with zeros only up to six |
| Audit.AuditIdsDistinct | agentic_runtime_src/agentic_runtime/audit.py:35-58 | over concurrent writes and quiescent reopenings no id is used twice, and the counter is the number of lines whenever no write is in progress |
| Audit.ReopenFreshIff | agentic_runtime_src/agentic_runtime/audit.py:33-48 | the id after a reopening is new if and only if no write was in progress |
| Audit.AuditLogger.Write | agentic_runtime_src/agentic_runtime/audit.py:50-58 | a record keeps its own id or gets the next one, and is appended once |
| Audit.AuditLogger.constructor | agentic_runtime_src/agentic_runtime/audit.py:29-43 | reopening counts the lines |
| TaskLog.CompactionInvisible | agentic_runtime_src/agentic_runtime/task_log/manager.py:142-207 | when no two operations share an instant other than the first and none names a task that is gone, listing up to retain_recent_n tasks gives what a log that never compacts gives, wherever compactions fall |
| TaskLog.InvisibleIff | agentic_runtime_src/agentic_runtime/task_log/manager.py:142-207 | the exact condition on the clock: for non-decreasing times, compaction is invisible in every run at a prefix of these times, for all operations, compactions and non-negative limits, if and only if successive times coincide only at the first instant |
| TaskLog.TiesRevealCompaction | agentic_runtime_src/agentic_runtime/task_log/manager.py:142-207 | for every non-decreasing time sequence with a later tie, a run at exactly these times whose most recent task differs from that of a log that never compacts |
| LogRaces.OverlapLosesIff | agentic_runtime_src/agentic_runtime/task_log/manager.py:158-207 | compaction reads and replaces without the lock: for every schedule of threads, all appended versions stay in the file or are dropped by the retention rule and get is never stale, whatever the operations append, on however old a read, and whatever the limits, if and only if no operation falls between a read and its replace; compactions may overlap each other |
| LogRaces.NoOverlapIsSafe | agentic_runtime_src/agentic_runtime/task_log/manager.py:158-207 | every run of a schedule without such an overlap accounts for every version and answers truthfully |
| LogRaces.OverlapReverts | agentic_runtime_src/agentic_runtime/task_log/manager.py:158-207 | a task updated inside the window is afterwards read in the older version the compaction had read, if the rule keeps that, and not at all otherwise |
| LogRaces.UninterruptedIsAppend | agentic_runtime_src/agentic_runtime/task_log/manager.py:158-207 | moves that nothing comes between do what the append of the task log does, compaction included |
| TaskLog.NewestSurvivesIff | agentic_runtime_src/agentic_runtime/task_log/manager.py:158-207 | a record newer than the whole log survives the compaction its own append triggers if and only if the retention rule has room for it; with retain_recent_n 0 an active task is gone at once |
| TaskLog.NewestSurvives | agentic_runtime_src/agentic_runtime/task_log/manager.py:197-207 | so with one recent place it always survives |
| TaskLog.CompactionKeepsOrDrops | agentic_runtime_src/agentic_runtime/task_log/manager.py:146-195 | whatever the limits, negative ones included, a compaction leaves a task as it was or drops it |
| TaskLog.RunsAgree | agentic_runtime_src/agentic_runtime/task_log/manager.py:158-207 | the compacted log and the log that never compacts agree on the recent prefix at every point of every run, and the compacted one holds no stale version |
| TaskLog.RewrittenRecent | agentic_runtime_src/agentic_runtime/task_log/manager.py:173-185 | the recent file written from the retained records is the one the rewritten log calls for, ties included |
| TaskLog.TaskLogManager.Append | agentic_runtime_src/agentic_runtime/task_log/manager.py:197-207 | append keeps the recent file in agreement with the log and compacts when the file is too large |
| TaskLog.TaskLogManager.Compact | agentic_runtime_src/agentic_runtime/task_log/manager.py:158-195 | compaction replaces the log by the retained records and keeps the recent file in agreement |
| TaskLog.TaskLogManager.ListRecent | agentic_runtime_src/agentic_runtime/task_log/manager.py:142-144 | the first k of the latest versions, newest first |
| TaskLog.TaskLogManager.Find | agentic_runtime_src/agentic_runtime/task_log/manager.py:146-150 | the version written last, or none |
| TaskLog.TaskLogManager.Update | agentic_runtime_src/agentic_runtime/task_log/manager.py:85-140 | each operation appends the newest version with exactly the documented fields changed, or raises KeyError for an unknown id and changes nothing |
| TaskLog.OperationWrites | agentic_runtime_src/agentic_runtime/task_log/manager.py:85-140 | what each operation makes of a record: status, agents, code and reason, field by field; id, creation time and session never change; and `get` then returns that version |
| TaskLog.SettleCloses | agentic_runtime_src/agentic_runtime/task_log/manager.py:105-129 | closing a task gives its open agents the closing status and leaves every other agent as it was |
| TaskLog.AttachRuns | agentic_runtime_src/agentic_runtime/task_log/manager.py:92-103 | after attaching, the agent runs in the given session in each of its entries, of which there is one at least; other agents are untouched |
| TaskLog.TaskLogManager.CreateTask | agentic_runtime_src/agentic_runtime/task_log/manager.py:56-83 | a planned record with the given id is appended |
| Retention.SelectRecordsForRetention | agentic_runtime_src/agentic_runtime/task_log/retention.py:8-29 | the loops compute the selection the laws below speak of |
| Retention.SortIsStable | agentic_runtime_src/agentic_runtime/task_log/retention.py:18 | the sort orders by time stamp and keeps equal stamps in their order, in both directions |
| Retention.StableSortUnique | agentic_runtime_src/agentic_runtime/task_log/retention.py:18 | a sequence has only one stable sort, so the sort is Python's |
| Retention.LatestIsNewest | agentic_runtime_src/agentic_runtime/task_log/retention.py:15-17 | the dictionary holds one record per id, the one written last |
| Retention.GetIsNewest | agentic_runtime_src/agentic_runtime/task_log/manager.py:146-150 | get never returns a stale version |
| Retention.RecentNewestFirst | agentic_runtime_src/agentic_runtime/task_log/retention.py:18 | the latest versions are listed newest first |
| RetentionLaws.SelectIdempotent | agentic_runtime_src/agentic_runtime/task_log/retention.py:15-29 | selecting twice with the same non-negative limits gives the same sequence, order included |
| RetentionLaws.IdempotentIffNonNegative | agentic_runtime_src/agentic_runtime/task_log/retention.py:15-29 | selection is idempotent on every log if and only if no limit is negative |
| RetentionLaws.SelectedInGroups | agentic_runtime_src/agentic_runtime/task_log/retention.py:20-28 | the three overlapping groups disentangled: the recent prefix, then the failed, then the rejected ones only their quota saves |
| RetentionLaws.SelectOldestFirst | agentic_runtime_src/agentic_runtime/task_log/retention.py:29 | the rewritten log is ordered by time stamp, oldest first |
| RetentionLaws.CompactionKeepsExactly | agentic_runtime_src/agentic_runtime/task_log/retention.py:15-29 | a record survives if and only if it is the newest version of a task among the most recent N, the most recent F failed or the most recent R rejected; one record per id |
| RetentionLaws.GetAcrossCompaction | agentic_runtime_src/agentic_runtime/task_log/manager.py:146-195 | get is unchanged for kept ids and None for dropped ones |
| RetentionLaws.RecentAfterSelect | agentic_runtime_src/agentic_runtime/task_log/manager.py:142-195 | the recent view after a compaction: the same prefix in the same order, then the saved failed and rejected records |
| HumanQueue.OneClosingEvent | agentic_runtime_src/agentic_runtime/human_channel.py:84-130 | an ask that returned appended one request and exactly one closing event of the kind it returned, with the newest response as the answer, or no response at all |
| HumanQueue.PollDecides | agentic_runtime_src/agentic_runtime/human_channel.py:86-127 | a poll ends an ask as answered with the newest response; with none recorded, as cancelled if and only if an earlier cancellation named it while it was active or the caller cancelled, as timed out if and only if neither did and the deadline is over, and else not at all |
| HumanQueue.OutcomeIsOfPoll | agentic_runtime_src/agentic_runtime/human_channel.py:86-130 | the outcome an ask returns with is that of the poll that ended it |
| HumanQueue.PendingCountIsUnanswered | agentic_runtime_src/agentic_runtime/human_channel.py:213-220 | the pending count is the number of asks that posted, have not ended and have no response |
| HumanQueue.PendingCountIsInFlight | agentic_runtime_src/agentic_runtime/human_channel.py:213-220 | with no ask killed from outside, that is the in-flight asks without a response |
| HumanQueue.AskLoop | agentic_runtime_src/agentic_runtime/human_channel.py:86-127 | the loop ends at the first poll that finds a response, a cancellation or the deadline over, in this order of precedence, within ceil(timeout / interval) + 1 polls |
| HumanQueue.AskEnds | agentic_runtime_src/agentic_runtime/human_channel.py:86-127 | in every run in which the polls of an ask follow a fair clock, it polls at most ceil(timeout / interval) + 1 times and the last of these ends it |
| HumanQueue.PollsOnTime | agentic_runtime_src/agentic_runtime/human_channel.py:86-127 | on a clock read without delay poll i comes after i intervals, or at the deadline if that is sooner, so a timeout is noticed at the deadline itself |
| HumanQueue.FindResponseIsNewest | agentic_runtime_src/agentic_runtime/human_channel.py:201-205 | the response found is the last one recorded for the id |
| HumanQueue.FindResponseNoneIff | agentic_runtime_src/agentic_runtime/human_channel.py:201-205 | none is found if and only if none was recorded |
| HumanQueue.FileHumanQueueChannel.RegisterAsk | agentic_runtime_src/agentic_runtime/human_channel.py:69-71 | a new ask enters the active table, not cancelled |
| HumanQueue.FileHumanQueueChannel.PollOnce | agentic_runtime_src/agentic_runtime/human_channel.py:87-126 | the newest response wins over a cancellation, which wins over the deadline; the closing event of that kind is appended |
| HumanQueue.FileHumanQueueChannel.LeaveAsk | agentic_runtime_src/agentic_runtime/human_channel.py:128-130 | the ask leaves the active table, whether it returned or was killed |
| HumanQueue.TargetsExactly | agentic_runtime_src/agentic_runtime/human_channel.py:132-140 | every active ask a cancellation names, and no other, is named once, in the order of registration |
| HumanQueue.FileHumanQueueChannel.Cancel | agentic_runtime_src/agentic_runtime/human_channel.py:132-154 | every active ask that matches, and no other, is cancelled, and one cancellation request is recorded for each |
| HumanQueue.FileHumanQueueChannel.RecordResponse | agentic_runtime_src/agentic_runtime/human_channel.py:156-168 | a response with an id is appended, one without is refused |
| HumanQueue.FileHumanQueueChannel.Status | agentic_runtime_src/agentic_runtime/human_channel.py:213-220 | the pending count is computed from the three logs |
| Dispatcher.DispatcherAgent.Arun | agentic_runtime_src/agentic_runtime/dispatcher/agent.py:28-131 | for all limits: success is returned if and only if plan, validation and execution went well under the request's own task id and the task was still in the log to be closed; session, task and reply then end alike, in failure too, each failure under the code of the collaborator or app that caused it; a task created under another id is left as planned |
| Dispatcher.OnlyOthersDrop | agentic_runtime_src/agentic_runtime/dispatcher/agent.py:28-131 | with a recent place, or without compactions of its own, the task can be lost only to others while the executor runs |
| Dispatcher.MarkedRunning | agentic_runtime_src/agentic_runtime/dispatcher/agent.py:58-61 | when the executor is called for an ordinary app the task is running with that app as its one agent; a built-in route leaves it planned without agents |
| Dispatcher.AgentAttached | agentic_runtime_src/agentic_runtime/dispatcher/agent.py:61-70 | before the result is judged, that agent runs in the session the app named, if it named one |
| Dispatcher.DispatcherAgent.Attempt | agentic_runtime_src/agentic_runtime/dispatcher/agent.py:39-91 | the guarded part: what it has settled when it returns and what it has left open when it raises |
| Dispatcher.DispatcherAgent.Conclude | agentic_runtime_src/agentic_runtime/dispatcher/agent.py:63-91 | what becomes of the app result: completed, failed, or invalid result |
| Dispatcher.DispatcherAgent.Handle | agentic_runtime_src/agentic_runtime/dispatcher/agent.py:92-131 | both handlers: rejected or failed task and failed session, KeyError swallowed |
| Dispatcher.SuccessIsPlain | agentic_runtime_src/agentic_runtime/dispatcher/agent.py:157-182 | a result counts as success if and only if its innermost object says so in a boolean |
| Dispatcher.OthersKeep | agentic_runtime_src/agentic_runtime/task_log/manager.py:85-207 | whatever other requests do to the log, a task they do not name is unchanged or dropped |
| Sessions.SessionManager.StartSession | agentic_runtime_src/agentic_runtime/session/manager.py:16-20 | running, with the first start time kept; unknown ids raise KeyError |
| Sessions.SessionManager.CompleteSession | agentic_runtime_src/agentic_runtime/session/manager.py:29-36 | completed, whatever the status was before |
| Sessions.SessionManager.FailSession | agentic_runtime_src/agentic_runtime/session/manager.py:38-45 | failed with the code, whatever the status was before |
| Sessions.SessionManager.StopSession | agentic_runtime_src/agentic_runtime/session/manager.py:47-56 | a terminal session keeps its status, any other is cancelled |
| ArmGeometry.MatrixIsRotation | ros2_bridge_src/agentic_capability_bridge/agentic_capability_bridge/manipulation_bridge_node.py:816-831 | for every quaternion, zero included, the matrix has orthonormal rows and determinant 1 |
| ArmGeometry.MatrixIsConjugation | ros2_bridge_src/agentic_capability_bridge/agentic_capability_bridge/manipulation_bridge_node.py:816-831 | for every non-zero quaternion, applying the matrix is conjugation by the quaternion divided by its squared length |
| ArmGeometry.MatrixIgnoresLength | ros2_bridge_src/agentic_capability_bridge/agentic_capability_bridge/manipulation_bridge_node.py:816-831 | scaling the quaternion by a non-zero factor does not change the matrix |
| ArmGeometry.ConjugateTransposes | ros2_bridge_src/agentic_capability_bridge/agentic_capability_bridge/manipulation_bridge_node.py:816-831 | the conjugate quaternion gives the transposed matrix |
| ArmGeometry.CameraToArmIs | ros2_bridge_src/agentic_capability_bridge/agentic_capability_bridge/manipulation_bridge_node.py:722-732 | the product of the three homogeneous matrices is: into the hand frame, shift by the mounting, rotate, shift by the position |
| ArmGeometry.CameraToArmKeepsDistance | ros2_bridge_src/agentic_capability_bridge/agentic_capability_bridge/manipulation_bridge_node.py:722-732 | the camera-to-arm map preserves the distance between any two points |
| ArmSlot.ExclusionIff | ros2_bridge_src/agentic_capability_bridge/agentic_capability_bridge/manipulation_bridge_node.py:234-308 | over every interleaving, the slot is non-empty exactly while one goal is between claim and `finally`, if and only if the empty string is not an allowed action name |
| ArmSlot.HolderKeepsSlot | ros2_bridge_src/agentic_capability_bridge/agentic_capability_bridge/manipulation_bridge_node.py:418-468 | between its claim and its `finally` a goal keeps the slot, whatever others do |
| ArmSlot.RefusedStaysRefused | ros2_bridge_src/agentic_capability_bridge/agentic_capability_bridge/manipulation_bridge_node.py:500-527 | a goal refused as busy, or over, can never clear the slot |
| ArmSlot.OnlyHolderClears | ros2_bridge_src/agentic_capability_bridge/agentic_capability_bridge/manipulation_bridge_node.py:234-308 | only a claim on a free slot and the `finally` of the goal the slot names change the slot |
| ArmSlot.ActionSlot.Claim | ros2_bridge_src/agentic_capability_bridge/agentic_capability_bridge/manipulation_bridge_node.py:234-239 | the locked test-and-set does what the claim step of the goal does, and answers whether the goal now holds the slot |
| ArmSlot.ActionSlot.Clear | ros2_bridge_src/agentic_capability_bridge/agentic_capability_bridge/manipulation_bridge_node.py:305-308 | the clear in finally does what the final step of the goal does |
| ArmSlot.ActionSlot.Read | ros2_bridge_src/agentic_capability_bridge/agentic_capability_bridge/manipulation_bridge_node.py:962-967 | the stop service finds something to stop exactly while a goal holds the slot |
| Alignment.CenterColorBlock | ros2_bridge_src/agentic_capability_bridge/agentic_capability_bridge/inspection_bridge_node.py:509-554 | the loop stops at the first centring round, never exceeds its iteration limit, ends otherwise only at the deadline, without an image or at an image it cannot convert, and sends exactly the computed pulses |
| Alignment.SentWithinLimits | ros2_bridge_src/agentic_capability_bridge/agentic_capability_bridge/inspection_bridge_node.py:551-553 | every pair of pulses sent lies within the limits, wherever the servos started |
| Alignment.SentExactly | ros2_bridge_src/agentic_capability_bridge/agentic_capability_bridge/inspection_bridge_node.py:551-553 | one pair of pulses is sent for each round that saw the block, in order, with the pulses that round moved to |
| Alignment.CenteredIff | ros2_bridge_src/agentic_capability_bridge/agentic_capability_bridge/inspection_bridge_node.py:528 | a round is centred if and only if it saw the block with both errors within the tolerance on either side |
| Alignment.StepsAreSmall | ros2_bridge_src/agentic_capability_bridge/agentic_capability_bridge/inspection_bridge_node.py:541-552 | started within the limits, the servos never jump by more than the largest step |
| Alignment.DeltaFacts | ros2_bridge_src/agentic_capability_bridge/agentic_capability_bridge/inspection_bridge_node.py:543-546 | with a positive gain the base turns towards the block, by at least one pulse outside the tolerance and by none within it |
| Alignment.PitchDeltaFacts | ros2_bridge_src/agentic_capability_bridge/agentic_capability_bridge/inspection_bridge_node.py:547-550 | the same for the pitch servo, against the vertical error |
| Alignment.DeltaExact | ros2_bridge_src/agentic_capability_bridge/agentic_capability_bridge/inspection_bridge_node.py:541-546 | the base step is error times gain, truncated toward zero and cut off at the largest step, or one pulse where that gives none |
| Alignment.PitchDeltaExact | ros2_bridge_src/agentic_capability_bridge/agentic_capability_bridge/inspection_bridge_node.py:547-550 | the pitch step likewise, for the negated product |
| Alignment.MovedExact | ros2_bridge_src/agentic_capability_bridge/agentic_capability_bridge/inspection_bridge_node.py:551-552 | each servo moves by its step or to the limit that this oversteps |

## Left out

- File mechanics: temporary files, atomic replacement, JSON encoding, lines that cannot be parsed; whether a file is over its size limit is an input.
- Failing stores: an exception from an audit or syscall append inside `execute` would be handled as another failure of the call.
- A raising `register_resource`: the lease acquired just before would not be in the list that `finally` releases.
- Record payloads: user texts, result data, detail references, summaries, reasons that only appear in messages, lease ids.
- Locks of the Python objects: a method of the human queue, the resource and the cancellation manager is one step, as is each task operation with its read and its append; the audit counter and the audit append are two.
- `SkillExecutor.execute` as one coroutine: SkillExecutor has one method for each stretch between awaits, and the interleaving of stretches is that of SkillExecution; the methods are proved one call at a time from any shared state, so the step from other calls' writes back to the object invariant is not a proof about aliased objects.
- Device arbiter lease ids, reasons and time stamps: the model keeps who holds what.
- TaskLog.InvisibleIff: clocks that run backwards.
- LogRaces.OverlapLosesIff: the recent-tasks file, which overlapping threads also rewrite, is not part of that model.
- `checkpoint_capability` and the entry points that build an `execute` call: they add no shared state.
- Audit ids supplied by the caller of `write`: distinctness is proved for ids that come from the counter.
- HumanQueue.AskLoop: what other threads do between two polls is a function of the poll number, and one loop is not run against the channel object itself; PollOnce and the loop share the decision, and AskEnds bounds the polls of a run.
- Dispatcher.DispatcherAgent.Arun: others act on the log only while the executor is awaited, and only on tasks of their own; the clock is strict within one request; an unknown session id cannot occur for the request's own session.
- Alignment.CenterColorBlock: images, segmentation, rounding of logged values and waiting times are inputs or absent; floating point is replaced by reals.
- ArmGeometry: rounding of floating point; the norm is compared with zero exactly.
- ArmSlot: the direct action threads that may outlive their join, the backend action name kept beside the slot, and the motion itself.
- Planners, prompts, policies, schedulers, memory, tool and app management, CLIs, the HTTP server, LLM clients, ROS nodes and OpenCV: input and output, or easy members.
