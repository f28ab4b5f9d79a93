# Mesos allocation, agent and executor core in Dafny

This project models, in Dafny, a set of self-contained pieces of Apache Mesos and proves properties about them:

- the master's quota bookkeeping: the registry operations `UpdateQuota` and `RemoveQuota`, `QuotaInfo` validation, and the quota handler's request decision, capacity heuristic and offer rescission;
- the two Dominant Resource Fairness sorters of the allocator, the later one and the earlier one with its quirks;
- the check and health-check logic: the validators, the result interpretation and the consecutive-failure state machines of both health checkers;
- the agent's shutdown-timeout arithmetic, the whitelist watcher, the hook manager and the example test hook;
- the executor driver's status machine and its unacknowledged-update bookkeeping;
- the Mesos containerizer: normalisation of the isolation flag, isolator creation order, the container launch states, the launch-info merge and the termination it reports;
- the bookkeeping of libprocess's memory profiler.

## Structure

There is one module per source file. A class stands for each object whose fields the source updates in place: the sorters, the checkers, the quota registry, the master's quota state, the whitelist watcher, the hook manager, the executor driver, the containerizer and the profiler. Each class's methods state their whole new state against `old`. Loops in the source are methods proved equal to recursive specification functions, and the properties are lemmas about those functions.

Calls the model cannot see are parameters:

- a protobuf or JSON parser, `Resources::validate`, `validateCommandInfo`, the module manager, an isolator factory, jemalloc, jeprof and the temporary directory are function or value inputs;
- hashmap iteration order is a sequence the caller chooses;
- clocks and UUIDs are numbers passed in or counted.

Supporting modules:

- `Wrappers` holds `Option`/`Result`;
- `Text` holds `strings::split`, `tokenize`, `join`, `contains` and `std::string` ordering;
- `Quantities` holds stripped scalar quantities as maps of positive amounts;
- `Resources` holds lists of `Resource` with their role-aware amounts.

## Model

| member | source | states |
|---|---|---|
| Checks.DurationError | src/checks/checker.cpp:568-584 | no error exactly when none of delay, interval and timeout is set to a negative value; the first negative one is named |
| Checks.ValidateCheckInfo | src/checks/checker.cpp:525-587 | no error exactly when the type is set and known, a COMMAND check has a command with a value, an HTTP check has its `http` message with any path starting with `/`, and no duration is negative; a missing type and the UNKNOWN type have their own errors |
| Checks.TypeBeforeDurations | src/checks/checker.cpp:527-584 | the type checks are made first: a check that fails them never gets a duration error, one that passes them is judged on its durations alone |
| Checks.HttpPathExamples | src/tests/check_tests.cpp:74-87 | an example mirroring the source's test, not a general property: an HTTP check without a path or with `/healthz` is accepted, and `healthz` is rejected as a relative path |
| Checks.DurationExamples | src/tests/check_tests.cpp:89-113 | an example mirroring the source's test, not a general property: a negative delay, interval or timeout is rejected in that order, and all zeros are accepted |
| Checks.ValidateCheckStatusInfo | src/checks/checker.cpp:590-620 | no error exactly when the type is set and known and the sub-message of that type is present |
| Checks.ToUint32 | src/checks/checker.cpp:509-510 | the `static_cast<uint32_t>` of the response code: equal to it when it fits, and congruent to it modulo 2^32 always |
| Checks.ShapedStatusValid | src/checks/checker.cpp:348-370 | the status built from a COMMAND or HTTP outcome passes `checkStatusInfo`, differs from the initial status, and carries the exit or response code exactly when the check finished |
| Checks.FailuresLookAlike | src/checks/checker.cpp:360-368 | a failed check and a discarded one give the same status, so a second failure in a row is not reported |
| Checks.CheckTimeout | src/checks/checker.cpp:184-187 | a zero or negative timeout means no limit (`Duration::max()`); a positive one is kept |
| Checks.Checker.constructor | src/checks/checker.cpp:162-187 | the delay, interval and timeout come from the check, unset fields reading as their defaults, with a zero timeout meaning no limit; nothing has been reported yet |
| Checks.Checker.Initialize | src/checks/checker.cpp:198-206 | the first check is scheduled after the delay; nothing is reported |
| Checks.Checker.ProcessCheckResult | src/checks/checker.cpp:244-262 | the callback gets the result exactly when it differs from the previous one, the result is remembered, the next check is scheduled after the interval; the reported statuses never repeat one after another |
| Checks.Checker.ProcessCommandCheckResult | src/checks/checker.cpp:348-371 | a COMMAND outcome is shaped into a status and processed as above |
| Checks.Checker.ProcessHttpCheckResult | src/checks/checker.cpp:498-521 | an HTTP outcome is shaped into a status with the response code as an unsigned 32-bit value and processed as above |
| HealthChecks.ToCheckInfo | src/checks/health_checker.cpp:90-138 | the check has the health check's type, its delay, interval and timeout as the health check reads them, and exactly the payload of that type (command, HTTP port and path, or TCP port) |
| HealthChecks.ToCheckInfoKeepsCheck | src/checks/health_checker.cpp:90-138 | a health check that validates becomes a check of the same known type carrying its own command, HTTP port and path, or TCP port, with no negative duration |
| HealthChecks.ToInt32 | src/checks/health_checker.cpp:152 | the unsigned status code read into an `int`: unchanged below 2^31, negative from 2^31 on |
| HealthChecks.InterpretCheckStatusInfo | src/checks/health_checker.cpp:141-181 | a COMMAND status passes iff its exit code is 0, an HTTP status iff its code is in [200, 400), a TCP status iff it connected; an UNKNOWN status always passes |
| HealthChecks.HealthyHttpClasses | src/checks/health_checker.cpp:151-160 | an HTTP status passes exactly for the 2xx and 3xx classes |
| HealthChecks.FailureRun | src/checks/health_checker.cpp:330-376 | in the sequence of updates sent, an unhealthy update with count n closes a run of n unhealthy updates, and a kill is asked for only once the count reaches `consecutive_failures` |
| HealthChecks.HealthChecker.constructor | src/checks/health_checker.cpp:243-261 | the grace period and failure threshold come from the health check; no failures counted; initializing; nothing sent |
| HealthChecks.HealthChecker.Failure | src/checks/health_checker.cpp:330-359 | a failure while initializing inside a positive grace period is ignored; otherwise the counter goes up by one and an unhealthy update is sent with that count and a kill request iff the count reached the threshold |
| HealthChecks.HealthChecker.Success | src/checks/health_checker.cpp:361-377 | a healthy update is sent on the first success and on the first success after failures; the counter is reset and initializing ends |
| HealthChecks.HealthChecker.ProcessCheckResult | src/checks/health_checker.cpp:310-327 | a check error or an unhealthy status is handled as a failure, a healthy status as a success; the updates sent always satisfy the run property of `FailureRun` |
| HealthChecks.TypeError | src/checks/health_checker.cpp:393-448 | no error exactly when the type's own fields are well formed: a COMMAND with a value that `validateCommandInfo` accepts, an HTTP check with scheme `http`, `https` or none and an absolute path, a TCP check with its message; UNKNOWN is an error |
| HealthChecks.ValidateHealthCheck | src/checks/health_checker.cpp:382-475 | no error exactly when the type is set, the grace period fits a `Duration`, the type's fields are well formed and no duration is negative; a missing type and an unrepresentable grace period have their own errors, checked in the source's order |
| HealthCheckLegacy.CommandHealthCheck | src/health-check/health_checker.cpp:310-322 | a command check passes iff its process was reaped and exited with 0 |
| HealthCheckLegacy.HttpHealthCheck | src/health-check/health_checker.cpp:390-437 | an HTTP check passes iff curl was reaped and exited with 0, its output parses as an integer, and that integer is in [200, 400); a non-zero curl status is reported as such |
| HealthCheckLegacy.HealthCheckerProcess.constructor | src/health-check/health_checker.cpp:116-125 | no failures counted, initializing, nothing sent, the promise pending |
| HealthCheckLegacy.HealthCheckerProcess.Fail | src/health-check/health_checker.cpp:169 | only a pending promise takes the failure; a failed one keeps its first message |
| HealthCheckLegacy.HealthCheckerProcess.Failure | src/health-check/health_checker.cpp:141-173 | inside a positive grace period the failure is ignored and the next check scheduled (even after a success); otherwise the counter goes up by one and an unhealthy update is sent with a kill request iff the threshold is reached, in which case the promise fails and nothing more is scheduled |
| HealthCheckLegacy.HealthCheckerProcess.Success | src/health-check/health_checker.cpp:176-192 | a healthy update on the first success and on the first success after failures; the counter is reset and the next check scheduled |
| HealthCheckLegacy.HealthCheckerProcess.HealthCheckDone | src/health-check/health_checker.cpp:224-236 | a check that completed is a success and reschedules the next one; any other is a failure: ignored and rescheduled inside the grace period, otherwise reported, and at the threshold the promise fails with its message and nothing more is scheduled; the updates sent keep the run property of `HealthChecks.FailureRun` |
| HealthCheckLegacy.HealthCheckerProcess.TcpHealthCheck | src/health-check/health_checker.cpp:440-448 | the promise fails with "TCP health check is not supported" while the check itself completes and is then counted as a success |
| HealthCheckLegacy.ValidateHealthCheck | src/health-check/health_checker.cpp:462-509 | as written: no error exactly when the type is set and known and its own message is well formed, the only scheme accepted being `https` (the comparison names "https" twice) |
| HealthCheckLegacy.ExplicitHttpSchemeRejected | src/health-check/health_checker.cpp:487-493 | an HTTP health check naming scheme `http` is rejected here and accepted by `HealthChecks.ValidateHealthCheck` |
| Quota.FirstIndex | src/master/quota.cpp:45-53 | the index of the first entry for the role, or the length when there is none: the entry there carries the role and none before it does |
| Quota.Others | src/master/quota.cpp:76-87 | the entries kept for other roles all carry another role and come from the registry |
| Quota.Registry.constructor | src/master/quota.cpp:34-35 | an empty registry |
| Quota.Registry.UpdateQuota | src/master/quota.cpp:38-63 | always a mutation; the first entry for the role is overwritten in place, or the request is appended when there is none |
| Quota.Registry.RemoveQuota | src/master/quota.cpp:69-89 | reports a change exactly when the registry held an entry for the role; the first such entry is deleted and nothing else changes |
| Quota.HasRoleFirstIndex | src/master/quota.cpp:45-53 | the search stops inside the registry exactly when some entry is for the role |
| Quota.UpsertPlacement | src/master/quota.cpp:55-60 | after an update the request is in the registry: at the role's old position with the length unchanged, or appended at the end |
| Quota.UpsertKeepsOthers | src/master/quota.cpp:38-63 | an update leaves the entries of every other role as they were, in order |
| Quota.UpsertOnePerRole | src/master/quota.cpp:38-63 | an update keeps at most one entry per role, and the role's only entry is the request |
| Quota.RemovedIsOthers | src/master/quota.cpp:76-87 | with one entry per role, a removal leaves exactly the other roles' entries, in order, and none for the role |
| Quota.RemovedOnePerRole | src/master/quota.cpp:81-84 | removal keeps at most one entry per role |
| Quota.RemoveTwice | src/master/quota.cpp:69-89 | removal is idempotent: a second removal of the same role finds nothing and changes nothing |
| Quota.FirstProblemFrom | src/master/quota.cpp:103-144 | no problem exactly when every remaining resource passes every check; otherwise the problem of the first resource that fails one |
| Quota.ValidateQuotaInfo | src/master/quota.cpp:98-148 | the loop that fixes the reference role as it goes returns exactly the first problem of the first failing resource checked against the reference role (the request's role, or the first resource's) and nothing when all pass |
| Quota.EmptyGuaranteeAccepted | src/master/quota.cpp:103 | a request without guarantee resources is accepted whatever its role |
| QuotaHandler.CreateQuotaInfo | src/master/quota_handler.cpp:76-91 | the guarantee is the request's resources and the role is that of the first resource, or empty when there is none |
| QuotaHandler.Admit | src/master/quota_handler.cpp:233-299 | a request is admitted exactly when its query string decodes, has `resources`, they parse, the built `QuotaInfo` validates, its role is known and has no quota yet; the admitted quota is the one built; each failure is its own Bad Request |
| QuotaHandler.CapacityConcat | src/master/quota_handler.cpp:124-141 | the capacity of consecutive groups of agents adds up |
| QuotaHandler.CapacityIneligibleTail | src/master/quota_handler.cpp:127-129 | agents after the last connected and active one add no capacity |
| QuotaHandler.EarlyExitSound | src/master/quota_handler.cpp:143-148 | stopping at the first agent whose running sum contains the total gives the same verdict as summing every agent |
| QuotaHandler.LastEligible | src/master/quota_handler.cpp:124-149 | when some agent is connected and active, there is a last such agent |
| QuotaHandler.ExhaustedFails | src/master/quota_handler.cpp:151-156 | if no running sum contained the total, the full capacity does not contain it either |
| QuotaHandler.CapacityHeuristic | src/master/quota_handler.cpp:94-157 | passes exactly when some agent is connected and active and the unreserved resources of all such agents contain the flattened sum of the request and every existing quota; with no such agent it fails even for an empty total |
| QuotaHandler.StopIndex | src/master/quota_handler.cpp:194-200 | the first agent position where the offers given back contain the flattened guarantee and enough agents were visited, or the number of agents |
| QuotaHandler.ClearedUpTo | src/master/quota_handler.cpp:208-225 | the agents keep their number; the connected and active ones before the stop position lose their offers |
| QuotaHandler.OfferResourcesConcat | src/master/quota_handler.cpp:222 | the resources given back by consecutive groups of offers add up |
| QuotaHandler.VisitStep | src/master/quota_handler.cpp:202-228 | going past an agent: a connected and active one gives back all its offers and is counted, any other is skipped and not counted |
| QuotaHandler.OffersOfConcat | src/master/quota_handler.cpp:208-225 | the offers taken from consecutive groups of agents add up |
| QuotaHandler.VisitedConcat | src/master/quota_handler.cpp:228 | the visited counts of consecutive groups of agents add up |
| QuotaHandler.IneligibleIgnored | src/master/quota_handler.cpp:127-129 | a disconnected or inactive agent, wherever it sits, adds no capacity, gives back no offers and is not counted |
| QuotaHandler.EnoughHere | src/master/quota_handler.cpp:196-200 | the running totals the loop tests are those the stop position is defined by |
| QuotaHandler.Master.constructor | src/master/quota_handler.cpp:233 | the master's roles and agents as given, with no quota, nothing recovered and nothing told to the allocator |
| QuotaHandler.Master.RescindOffers | src/master/quota_handler.cpp:155-230 | agents are visited in order up to the stop position; each connected and active one loses all its offers, which go back to the allocator in order; roles and quotas are unchanged |
| QuotaHandler.Master.RescindAgent | src/master/quota_handler.cpp:208-225 | every outstanding offer of one agent goes back to the allocator, in order, and is removed from the agent |
| QuotaHandler.Master.Set | src/master/quota_handler.cpp:233-331 | the first failing check decides: the admission checks give Bad Request, a failed heuristic Conflict, and in both cases nothing changes; otherwise the quota is recorded, offers are rescinded up to the stop position, the allocator is told, and the answer is OK |
| Shutdown.TruncatingDiv | src/slave/utils.cpp:68 | `Duration /= n` truncates toward zero: for a non-negative duration the quotient q satisfies q·n ≤ t < (q+1)·n |
| Shutdown.Defaulted | src/slave/utils.cpp:46-51 | a negative timeout is replaced by `EXECUTOR_SHUTDOWN_GRACE_PERIOD`; any other is kept |
| Shutdown.CalculateShutdownTimeout | src/slave/utils.cpp:42-72 | with room for `SHUTDOWN_TIMEOUT_DELTA` on every level the timeout loses one delta per level above the caller; otherwise it is split evenly between the levels |
| Shutdown.ShutdownTimeoutBounds | src/slave/utils.cpp:38-41 | the promised guarantee: a nested timeout is never negative and never longer than the (defaulted) base |
| Shutdown.LevelZeroKeepsTimeout | src/slave/utils.cpp:35-36 | the containerizer, at level 0, keeps its timeout |
| Shutdown.SplitBelowDelta | src/slave/utils.cpp:62-69 | when the timeout is too small for the levels, each even share is below the delta |
| Shutdown.MorePartsSmaller | src/slave/utils.cpp:68 | splitting between one more level never gives a longer share |
| Shutdown.NestedNotLonger | src/slave/utils.cpp:38-41 | the timeout at a level is never longer than the one at the level above it, across both branches |
| Shutdown.DeltaPerLevel | src/slave/utils.cpp:62-64 | with room for the delta on every level, each level gets exactly one delta less than its parent |
| Shutdown.ExecutorShutdownTimeout | src/slave/utils.cpp:75-78 | an executor (level 1) gets a non-negative timeout no longer than the base |
| Shutdown.CommandExecutorShutdownTimeout | src/slave/utils.cpp:81-84 | the command executor (level 2) gets a non-negative timeout no longer than the executor's |
| Whitelist.LocalPath | src/watcher/whitelist_watcher.cpp:73-74 | a leading `file://` is removed and nothing else; a path without it is kept |
| Whitelist.Hostnames | src/watcher/whitelist_watcher.cpp:82-88 | the hostnames are exactly the non-empty lines of the file |
| Whitelist.ComputeWhitelist | src/watcher/whitelist_watcher.cpp:64-90 | no whitelist for the path `*`; the previous whitelist when the file cannot be read; otherwise the file's hostnames (none for an empty file, so every agent is rejected) |
| Whitelist.HostnamesOfLines | src/watcher/whitelist_watcher.cpp:82-88 | a file written as one hostname per line reads back as exactly those hostnames |
| Whitelist.BlankLinesRejectAll | src/watcher/whitelist_watcher.cpp:79-88 | a file of nothing but line breaks gives the empty whitelist, as an empty file does |
| Whitelist.WhitelistWatcher.constructor | src/watcher/whitelist_watcher.cpp:47-53 | the watched path, nothing delivered, no last whitelist |
| Whitelist.WhitelistWatcher.Watch | src/watcher/whitelist_watcher.cpp:62-100 | the subscriber gets the computed whitelist exactly when it differs from the last one, which is then remembered; so the subscriber is never told the same whitelist twice in a row |
| HookManager.Load | src/hook/manager.cpp:48-75 | loading keeps every hook loaded before; each newly loaded name is one of the listed names and is the instance the module manager gave for it; with no error every listed name is loaded; an error names a listed name |
| HookManager.LoadedBeforeError | src/hook/manager.cpp:51-71 | there is no rollback: when loading stops at a name, every name listed before it is loaded |
| HookManager.RepeatedNameFails | src/hook/manager.cpp:52-54 | a hook list naming the same module twice always ends in an error |
| HookManager.AlreadyLoadedFails | src/hook/manager.cpp:52-54 | a listed name that is already loaded when the loading reaches it stops the loading with an error |
| HookManager.InOrder | src/hook/manager.cpp:112 | the loaded hooks, one per name of the visiting order |
| HookManager.Apply | src/hook/manager.cpp:120-127 | a decorator's new contents replace the old ones; `None` and an error keep them |
| HookManager.ChainAppend | src/hook/manager.cpp:106-131 | each hook sees what the hooks before it left: decorating through two runs of hooks is decorating through the first, then the second |
| HookManager.ChainOne | src/hook/manager.cpp:112-128 | with one hook the result is its decorated value, or the input when it declines or fails |
| HookManager.ChainNone | src/hook/manager.cpp:102-132 | with no hook loaded the input is returned unchanged |
| HookManager.Decorate | src/hook/manager.cpp:112-128 | the loop over the hooks keeps what each returns and gives the chained result |
| HookManager.RemoveExecutorFailuresAppend | src/hook/manager.cpp:186-198 | a failing remove-executor hook does not stop the others: failures over two runs of hooks are those of the first followed by those of the second |
| HookManager.RemoveExecutorFailuresExact | src/hook/manager.cpp:186-198 | exactly the loaded hooks whose remove-executor hook fails are reported |
| HookManager.HookManager.constructor | src/hook/manager.cpp:45 | no hook loaded |
| HookManager.HookManager.Initialize | src/hook/manager.cpp:48-75 | the comma-separated names are loaded in order until the first that is already loaded, unknown or fails to instantiate; the table and the error are those of `Load` |
| HookManager.HookManager.Unload | src/hook/manager.cpp:78-91 | an error for a name not loaded, with nothing changed; otherwise exactly that name is removed |
| HookManager.HookManager.HooksAvailable | src/hook/manager.cpp:94-99 | true exactly when some hook is loaded |
| HookManager.HookManager.MasterLaunchTaskLabelDecorator | src/hook/manager.cpp:102-132 | the task's labels after every loaded hook's master decorator in the visiting order, each seeing the previous one's result |
| HookManager.HookManager.SlaveRunTaskLabelDecorator | src/hook/manager.cpp:135-159 | the task's labels after every loaded hook's agent run-task decorator, chained |
| HookManager.HookManager.SlaveExecutorEnvironmentDecorator | src/hook/manager.cpp:162-183 | the executor's environment after every loaded hook's environment decorator, chained |
| HookManager.HookManager.SlaveTaskStatusLabelDecorator | src/hook/manager.cpp:201-221 | the status's labels after every loaded hook's status decorator, chained |
| HookManager.HookManager.SlaveRemoveExecutorHook | src/hook/manager.cpp:186-198 | every loaded hook is invoked; the failures are collected in the visiting order and stop nothing |
| TestHook.Without | src/examples/test_hook_module.cpp:76-80 | the labels kept are never more than those given |
| TestHook.WithoutMembers | src/examples/test_hook_module.cpp:76-80 | exactly the labels under another key are kept |
| TestHook.WithoutAppend | src/examples/test_hook_module.cpp:76-80 | the labels keep their order: the filter distributes over concatenation |
| TestHook.WithoutIdempotent | src/examples/test_hook_module.cpp:76-80 | removing a key twice removes nothing more |
| TestHook.RelabelLoop | src/examples/test_hook_module.cpp:66-82 | the loop puts the known label first and copies, in order, every label whose key differs from the one removed |
| TestHook.MasterLaunchTaskLabelDecorator | src/examples/test_hook_module.cpp:59-83 | `MESOS_Test_Label=ApacheMesos` first, then the task's labels without `MESOS_Test_Remove_Label` |
| TestHook.SlaveRunTaskLabelDecorator | src/examples/test_hook_module.cpp:87-109 | `baz=qux` first, then the task's labels without `foo` |
| TestHook.SlaveTaskStatusLabelDecorator | src/examples/test_hook_module.cpp:153-174 | `bar=qux` first, then the status's labels without `foo` |
| TestHook.MasterDecoration | src/examples/test_hook_module.cpp:59-83 | with this hook loaded alone, the hook manager's master decorator returns the test label first, then the task's labels under any other key than `MESOS_Test_Remove_Label`, in their order |
| TestHook.AlwaysDecorates | src/examples/test_hook_module.cpp:113-150 | every decorator of the module returns new contents, the environment decorator included (it appends `FOO=bar`), and its remove-executor hook never fails |
| TestHook.SlaveDecorationTwice | src/examples/test_hook_module.cpp:87-109 | running the agent decorator on its own output adds one more `baz=qux` label at the front and removes nothing further |
| Executor.Step | src/exec/exec.cpp:646-869 | the driver's status machine: start acts only on a driver not started, stop only on a running or aborted one (and then reports the abort), abort only on a running one, sending never changes the status, and a stopped driver never moves |
| Executor.StoppedIsFinal | src/exec/exec.cpp:769-786 | a stopped driver stays stopped whatever is called on it |
| Executor.AbortedOnlyStops | src/exec/exec.cpp:789-812 | an aborted driver can only be stopped; it never runs again |
| Executor.NeverRestarts | src/exec/exec.cpp:646-652 | once started, a driver never goes back to not started |
| Executor.Values | src/exec/exec.cpp:281-290 | `values()` of an insertion-ordered map: the values in the order their keys were first inserted |
| Executor.PutFresh | src/exec/exec.cpp:543 | putting a new key appends its entry at the end |
| Executor.AppendFreshDistinct | src/exec/exec.cpp:543 | appending an entry under a new key keeps the keys distinct |
| Executor.EraseMembers | src/exec/exec.cpp:358-362 | `erase(k)` removes exactly the entries under that key |
| Executor.EraseAvoids | src/exec/exec.cpp:358-362 | erasing brings in no key that was not there |
| Executor.EraseDistinct | src/exec/exec.cpp:358-362 | erasing keeps the keys distinct |
| Executor.EraseAfterPut | src/exec/exec.cpp:340-363 | acknowledging an update just recorded under a fresh UUID gives the map back as it was |
| Executor.EraseAbsent | src/exec/exec.cpp:358-362 | an acknowledgement for an unknown UUID or task changes nothing |
| Executor.ExecutorDriver.constructor | src/exec/exec.cpp:594-629 | a driver whose flags fail to load is aborted at once and tells the executor why; otherwise it is not started; no process, nothing recorded or sent |
| Executor.ExecutorDriver.Start | src/exec/exec.cpp:646-766 | status and result as `Step`; only a driver not started creates its process, unregistered, not aborted, under a fresh connection UUID, with `local` and `checkpoint` from the environment, and sends the registration |
| Executor.ExecutorDriver.Spawn | src/exec/exec.cpp:116-206 | a new process is unregistered and not aborted, takes `local` and `checkpoint`, gets a connection UUID no scheduled recovery timer carries, holds no update or task, and its first message asks the agent to register it |
| Executor.ExecutorDriver.Stop | src/exec/exec.cpp:769-786 | status and result as `Step`, for every state the driver can be in, including one aborted before it was started; a running or aborted driver terminates its process when it has one; nothing else changes |
| Executor.StopAsWritten | src/exec/exec.cpp:769-786 | as written, `stop` of a running or aborted driver without a process fails its `CHECK`; any other call answers as `Step` does |
| Executor.StopAfterLoadFailure | src/exec/exec.cpp:603-609 | a driver aborted by a flag load failure has no process, so `stop` as written fails its `CHECK`; the intended answer is `DRIVER_ABORTED` with the status set to stopped |
| Executor.ExecutorDriver.Abort | src/exec/exec.cpp:789-812 | status and result as `Step`; a running driver's process stops taking messages |
| Executor.ExecutorDriver.SendUpdate | src/exec/exec.cpp:505-546 | a TASK_STAGING update aborts the driver and reports the error to the executor; any other is recorded under a fresh UUID, after the earlier unacknowledged ones, and sent to the agent |
| Executor.ExecutorDriver.DriverSendStatusUpdate | src/exec/exec.cpp:840-853 | the status is returned unchanged; only while running does the process act on the update: a TASK_STAGING update aborts the driver and calls back the executor's `error`, and any other is recorded under the next UUID, after the earlier unacknowledged ones, and sent to the agent; no other field changes |
| Executor.ExecutorDriver.DriverSendFrameworkMessage | src/exec/exec.cpp:548-556 | the data is sent to the framework only while running; the status is returned unchanged and nothing else changes |
| Executor.ExecutorDriver.Register | src/exec/exec.cpp:209-257 | unless aborted, the executor is connected under a fresh connection UUID, so no recovery timeout scheduled before can match it, and the executor is told |
| Executor.ExecutorDriver.Reconnect | src/exec/exec.cpp:259-293 | unless aborted, one re-registration is sent carrying every unacknowledged update and task in the order they were recorded |
| Executor.ExecutorDriver.RunTask | src/exec/exec.cpp:295-318 | unless aborted, the task is recorded as unacknowledged after the others and launched; a duplicate task id is the source's fatal check |
| Executor.ExecutorDriver.Deliver | src/exec/exec.cpp:320-338 | unless aborted, a kill request or framework message reaches the executor; nothing else changes |
| Executor.ExecutorDriver.Acknowledge | src/exec/exec.cpp:340-363 | unless aborted, the update with that UUID and the task with that id are forgotten and everything else stays, in order |
| Executor.ExecutorDriver.ShutdownExecutor | src/exec/exec.cpp:387-416 | unless aborted, a shutdown process is spawned when not local, the executor is told to shut down, the process stops taking messages, and it is terminated when local |
| Executor.ExecutorDriver.RecoveryTimeout | src/exec/exec.cpp:435-450 | shuts down exactly when still disconnected and no registration happened since the timer was set; otherwise nothing changes |
| Executor.ExecutorDriver.Exited | src/exec/exec.cpp:452-503 | unless aborted, a checkpointing, registered executor disconnects and schedules a recovery timeout for its connection; any other disconnects and shuts down as `shutdown` does |
| DrfClients.LessIrreflexive | src/master/allocator/sorter/drf/sorter.cpp:46-55 | no client is ordered before itself by `DRFComparator` |
| DrfClients.LessTransitive | src/master/allocator/sorter/drf/sorter.cpp:46-55 | the comparator (share, then allocation count, then name) is transitive |
| DrfClients.LessAsymmetric | src/master/allocator/sorter/drf/sorter.cpp:46-55 | two clients are never ordered both ways |
| DrfClients.LessTotal | src/master/allocator/sorter/drf/sorter.cpp:46-55 | any two different clients are ordered exactly one way, so the `std::set` is totally ordered |
| DrfClients.Names | src/master/allocator/sorter/drf/sorter.cpp:313-343 | the listed names are the table's names, position by position |
| DrfClients.InsertSpec | src/master/allocator/sorter/drf/sorter.cpp:76 | `std::set::insert` keeps the table sorted, leaves it unchanged for a present element and otherwise adds exactly that element |
| DrfClients.InsertMembers | src/master/allocator/sorter/drf/sorter.cpp:76 | after an insert the table holds exactly the old elements and the new one |
| DrfClients.EraseAt | src/master/allocator/sorter/drf/sorter.cpp:103-107 | erasing one entry removes exactly that element from the multiset and keeps the order and the distinct names |
| DrfClients.FindIndex | src/master/allocator/sorter/drf/sorter.cpp:428-438 | the index found is the first entry with the name, or the end when no entry has it |
| DrfClients.Find | src/master/allocator/sorter/drf/sorter.cpp:428-438 | the search loop of `find` returns that first index |
| DrfClients.FindIndexUnique | src/master/allocator/sorter/drf/sorter.cpp:428-438 | only one index has the two properties of `find`'s result |
| DrfClients.SortedOrder | src/master/allocator/sorter/drf/sorter.cpp:46-55 | in sorted order shares never decrease; ties fall back to allocation count and then to name |
| DrfClients.SortedMin | src/master/allocator/sorter/drf/sorter.cpp:313-343 | the first entry of a sorted table is its least client |
| DrfClients.SortedUnique | src/master/allocator/sorter/drf/sorter.cpp:313-343 | two sorted tables with the same elements are identical, so `sort`'s order is determined by the clients alone |
| DrfClients.InsertDistinct | src/master/allocator/sorter/drf/sorter.cpp:76 | inserting a client under a name the table lacks keeps the names distinct |
| DrfClients.ActiveFind | src/master/allocator/sorter/drf/sorter.cpp:428-438 | `find` stops inside the table exactly when the name is active |
| DrfClients.LookupSpec | src/master/allocator/sorter/drf/sorter.cpp:428-438 | with distinct names the lookup returns exactly the entry under the name, and none when the name is inactive |
| DrfClients.InsertNew | src/master/allocator/sorter/drf/sorter.cpp:118-127 | inserting under a new name keeps the table sorted with distinct names, finds the client and keeps every other entry |
| DrfClients.EraseSpec | src/master/allocator/sorter/drf/sorter.cpp:101-115 | erasing an entry removes its name from the table and keeps every other entry |
| DrfClients.RepositionSpec | src/master/allocator/sorter/drf/sorter.cpp:358-372 | erase followed by insert replaces one entry, keeps the others and keeps the table sorted with distinct names |
| DrfSorter.ReleaseGrant | src/master/allocator/sorter/drf/sorter.cpp:144-173 | `unallocated` undoes `allocated` on an agent whose entry was absent or non-empty |
| DrfSorter.GrantRelease | src/master/allocator/sorter/drf/sorter.cpp:262-282 | `allocated` after `unallocated` of held resources restores the scalar sum and the agent's entry |
| DrfSorter.Ratio | src/master/allocator/sorter/drf/sorter.cpp:395-418 | a fraction of the total is never negative |
| DrfSorter.DominantUnique | src/master/allocator/sorter/drf/sorter.cpp:375-425 | the dominant share (the largest ratio over non-excluded names, or 0) is unique |
| DrfSorter.DominantExists | src/master/allocator/sorter/drf/sorter.cpp:375-425 | every allocation has a dominant share over the total's names |
| DrfSorter.Dominant | src/master/allocator/sorter/drf/sorter.cpp:375-425 | the dominant share meets its definition |
| DrfSorter.ShareOfNothing | src/master/allocator/sorter/drf/sorter.cpp:75-83 | a client holding nothing has share 0, which is why `add` may insert it with share 0 |
| DrfSorter.CalculateShare | src/master/allocator/sorter/drf/sorter.cpp:375-425 | the loop returns the dominant share over the non-excluded names of the total divided by the weight |
| DrfSorter.Recomputed | src/master/allocator/sorter/drf/sorter.cpp:313-343 | the rebuilt table has the same entries, each with its share recomputed |
| DrfSorter.RecomputedCurrent | src/master/allocator/sorter/drf/sorter.cpp:313-343 | recomputing shares that are already current changes nothing |
| DrfSorter.AddStep | src/master/allocator/sorter/drf/sorter.cpp:71-84 | a new client with share 0 and count 0 keeps the table sorted with distinct names and every share current |
| DrfSorter.RemoveStep | src/master/allocator/sorter/drf/sorter.cpp:101-115 | removing a client keeps the table's shape and current shares and drops only that name |
| DrfSorter.ActivateStep | src/master/allocator/sorter/drf/sorter.cpp:118-127 | activating an inactive known client keeps the table's shape and current shares |
| DrfSorter.BumpStep | src/master/allocator/sorter/drf/sorter.cpp:144-160 | raising one allocation count keeps the table's shape and current shares |
| DrfSorter.Bump | src/master/allocator/sorter/drf/sorter.cpp:144-160 | the lookup and reposition of `allocated` raise the count of the entry under the name, keep every other entry, and keep the shape and current shares |
| DrfSorter.Drop | src/master/allocator/sorter/drf/sorter.cpp:101-141 | the lookup and erase of `remove` and `deactivate` drop the entry under the name, if any |
| DrfSorter.Sorter.constructor | src/master/allocator/sorter/drf/sorter.cpp:58-68 | a new sorter is empty, clean and excludes the names it is given |
| DrfSorter.Sorter.Add | src/master/allocator/sorter/drf/sorter.cpp:71-84 | a new name gets weight, an empty allocation and an entry with share 0 and count 0; no other entry changes |
| DrfSorter.Sorter.UpdateShare | src/master/allocator/sorter/drf/sorter.cpp:358-372 | `update(name)` moves an active client to its place under its current share, changing nothing else |
| DrfSorter.Sorter.UpdateWeight | src/master/allocator/sorter/drf/sorter.cpp:87-98 | a new weight is recorded and the client's share is recomputed unless the sorter is dirty |
| DrfSorter.Sorter.Remove | src/master/allocator/sorter/drf/sorter.cpp:101-115 | the client leaves the table, the allocations and the weights; other entries stay |
| DrfSorter.Sorter.Activate | src/master/allocator/sorter/drf/sorter.cpp:118-127 | an inactive known client joins the table with its current share and count 0; an active one is left alone |
| DrfSorter.Sorter.Deactivate | src/master/allocator/sorter/drf/sorter.cpp:130-141 | the client leaves the table but stays known with its allocation |
| DrfSorter.Sorter.BumpCount | src/master/allocator/sorter/drf/sorter.cpp:144-160 | an active client's allocation count rises by one; others are kept |
| DrfSorter.Sorter.Allocated | src/master/allocator/sorter/drf/sorter.cpp:144-173 | the resources join the agent's entry and the scalar sum of the client's allocation, created empty for an unknown name; the count rises by one, and the share is recomputed unless dirty |
| DrfSorter.Sorter.UpdateAllocation | src/master/allocator/sorter/drf/sorter.cpp:176-205 | the old resources are swapped for the new ones on the agent and in the sum, and the sorter becomes dirty |
| DrfSorter.Sorter.Unallocated | src/master/allocator/sorter/drf/sorter.cpp:262-282 | held resources are taken back from the agent's entry (dropped when empty) and from the sum of the client's allocation, created empty for an unknown name; the share is recomputed unless dirty |
| DrfSorter.Sorter.AddTotal | src/master/allocator/sorter/drf/sorter.cpp:285-296 | the total grows by the resources, and the sorter becomes dirty exactly when the resources are not empty |
| DrfSorter.Sorter.RemoveTotal | src/master/allocator/sorter/drf/sorter.cpp:299-310 | the total shrinks by the resources, and the sorter becomes dirty exactly when the resources are not empty |
| DrfSorter.Sorter.Sort | src/master/allocator/sorter/drf/sorter.cpp:313-343 | after `sort` the sorter is clean, every share is current, and the names come in comparator order; a clean sorter's table is unchanged |
| DrfSorter.Sorter.RecomputeShares | src/master/allocator/sorter/drf/sorter.cpp:315-336 | the rebuilt table holds every client with its share recomputed, and `dirty` is cleared |
| DrfSorter.ListNames | src/master/allocator/sorter/drf/sorter.cpp:338-342 | the output loop lists the names in table order |
| DrfSorter.Rebuild | src/master/allocator/sorter/drf/sorter.cpp:318-334 | the rebuild loop yields a sorted table with distinct names and current shares holding exactly the recomputed clients |
| DrfSorterOld.RepositionKeeps | src/master/drf_sorter.cpp:201-215 | moving an entry keeps the table sorted and brings in only the new entry |
| DrfSorterOld.Bump | src/master/drf_sorter.cpp:91-110 | the lookup and reposition of `allocated` raise the count of the first entry under the name and keep the table sorted |
| DrfSorterOld.Refresh | src/master/drf_sorter.cpp:201-215 | the lookup and reposition of `update(name)` give the first entry under the name the new share and keep the table sorted |
| DrfSorterOld.DroppedKeeps | src/master/drf_sorter.cpp:55-88 | `remove` and `deactivate` erase one entry when the name is active and nothing otherwise |
| DrfSorterOld.ActivateDuplicates | src/master/drf_sorter.cpp:68-74 | activating an already active client under a different entry leaves two entries under its name |
| DrfSorterOld.DropLeavesDuplicate | src/master/drf_sorter.cpp:77-88 | with two entries under one name, `deactivate` erases only the first and the client stays active |
| DrfSorterOld.Recomputed | src/master/drf_sorter.cpp:160-186 | the rebuilt table has the same entries, each with its share recomputed |
| DrfSorterOld.Sorter.Add | src/master/drf_sorter.cpp:45-52 | for any weight, an entry with share 0 and count 0 joins the table and the allocation is reset, known or active before or not |
| DrfSorterOld.Sorter.Remove | src/master/drf_sorter.cpp:55-65 | the first entry under the name leaves the table and the client is forgotten |
| DrfSorterOld.Sorter.Activate | src/master/drf_sorter.cpp:68-74 | a known client gets an entry with its current share without a look for an existing one |
| DrfSorterOld.Sorter.Deactivate | src/master/drf_sorter.cpp:77-88 | the first entry under the name leaves the table; the client stays known |
| DrfSorterOld.Sorter.Allocated | src/master/drf_sorter.cpp:91-119 | the resources join the allocation, created empty for an unknown name; the first entry under the name, if any, counts one more and has its share recomputed unless dirty |
| DrfSorterOld.Sorter.BumpCount | src/master/drf_sorter.cpp:91-110 | the first entry under the name counts one more allocation |
| DrfSorterOld.Sorter.Unallocated | src/master/drf_sorter.cpp:129-138 | the resources leave the allocation, created empty for an unknown name; the first entry under the name, if any, has its share recomputed unless dirty |
| DrfSorterOld.Sorter.AddTotal | src/master/drf_sorter.cpp:141-150 | the total grows entry by entry under each name and role, and the sorter becomes dirty even for an empty change |
| DrfSorterOld.Sorter.RemoveTotal | src/master/drf_sorter.cpp:153-157 | the total shrinks entry by entry under each name and role, dropping entries that are used up, and the sorter becomes dirty even for an empty change |
| DrfSorterOld.Sorter.Sort | src/master/drf_sorter.cpp:160-186 | when dirty every entry is rebuilt with its recomputed share and `dirty` is never cleared; the names come in table order |
| DrfSorterOld.Sorter.Update | src/master/drf_sorter.cpp:201-215 | the first entry under the name, if any, moves to its place under the recomputed share; an inactive name changes nothing |
| DrfSorterOld.Sorter.CalculateShare | src/master/drf_sorter.cpp:218-244 | the share is `Share`: the client's dominant share over every scalar entry of the total, divided by its weight |
| DrfSorterOld.Plus | src/master/drf_sorter.cpp:141-144 | `+=` on the total adds the amounts of every name and role |
| DrfSorterOld.Minus | src/master/drf_sorter.cpp:153-155 | `-=` on the total lowers the amount of every name and role by what is taken, and an entry that reaches 0 goes |
| DrfSorterOld.Ratio | src/master/drf_sorter.cpp:232-236 | the client's amount of an entry's name over the entry's amount is never negative |
| DrfSorterOld.PeakUnique | src/master/drf_sorter.cpp:222-243 | the dominant share is well defined: at most one value is the largest ratio, or 0 |
| DrfSorterOld.PeakExists | src/master/drf_sorter.cpp:222-243 | every set of entries of the total has a largest ratio, or 0 when there is none |
| DrfSorterOld.Peak | src/master/drf_sorter.cpp:222-243 | the dominant share is at least every ratio over the total's entries and is one of them, or 0 |
| DrfSorterOld.ComputeShare | src/master/drf_sorter.cpp:220-243 | the loop over the total's scalar entries computes `Share` |
| DrfSorterOld.SplitRoles | src/master/drf_sorter.cpp:226-238 | with a name split over two roles in the total, the share divides by the smaller entry, not by the sum of both |
| DrfSorterOld.Sorter.UsageHistory | src/master/drf_sorter.cpp:259-262 | this sorter reports no usage history |
| DrfSorterOld.Rebuild | src/master/drf_sorter.cpp:164-180 | the rebuild loop yields a sorted table holding exactly the recomputed entries |
| MesosContainerizer.Undeprecated | src/slave/containerizer/mesos/containerizer.cpp:160-172 | `process` becomes `posix/cpu,posix/mem`, `cgroups` becomes `cgroups/cpu,cgroups/mem`, anything else is kept |
| MesosContainerizer.WithFilesystem | src/slave/containerizer/mesos/containerizer.cpp:174-182 | the result names a filesystem isolator, extends the flag, and is the flag itself when it already named one |
| MesosContainerizer.NormalizeIsolation | src/slave/containerizer/mesos/containerizer.cpp:156-215 | the rewritten flag fails exactly when it names both `posix/disk` and `disk/du`; otherwise it extends the undeprecated flag with a filesystem isolator, and on Linux a network isolator |
| MesosContainerizer.NormalizeLinux | src/slave/containerizer/mesos/containerizer.cpp:194-214 | the Linux additions only append, and leave both a filesystem and a network isolator |
| MesosContainerizer.ProcessValue | src/slave/containerizer/mesos/containerizer.cpp:160-182 | an example, not a general property: the flag `process` off Linux becomes `posix/cpu,posix/mem,filesystem/posix` |
| MesosContainerizer.CgroupsValue | src/slave/containerizer/mesos/containerizer.cpp:166-182 | an example, not a general property: the flag `cgroups` off Linux becomes `cgroups/cpu,cgroups/mem,filesystem/posix` |
| MesosContainerizer.DistinctCardinality | src/slave/containerizer/mesos/containerizer.cpp:360-366 | the token set is as large as the token list exactly when no token repeats, which is the duplicate check |
| MesosContainerizer.InsertMembers | src/slave/containerizer/mesos/containerizer.cpp:361 | inserting a name into the ordered set adds exactly that name |
| MesosContainerizer.InsertSorted | src/slave/containerizer/mesos/containerizer.cpp:361 | inserting keeps the names in `std::set` order |
| MesosContainerizer.SortNamesSorted | src/slave/containerizer/mesos/containerizer.cpp:361 | distinct tokens come out ordered, each exactly once |
| MesosContainerizer.BuildMembers | src/slave/containerizer/mesos/containerizer.cpp:376-410 | every isolator built has a requested name, and every requested name that is not a cgroups one is built |
| MesosContainerizer.BuildOneCgroups | src/slave/containerizer/mesos/containerizer.cpp:374-384 | a cgroups isolator is built exactly when one was asked for, and at most once |
| MesosContainerizer.BuildFilesystemFirst | src/slave/containerizer/mesos/containerizer.cpp:400-407 | filesystem isolators are put before every other isolator |
| MesosContainerizer.CreateIsolators | src/slave/containerizer/mesos/containerizer.cpp:150-418 | `create` fails on a rejected flag or duplicate tokens, and otherwise builds the isolators of the normalized flag in set order |
| MesosContainerizer.BuildIsolators | src/slave/containerizer/mesos/containerizer.cpp:370-408 | the loop with its `cgroupsIsolatorCreated` flag computes the specified isolator list or the first creation error |
| MesosContainerizer.BuildFailed | src/slave/containerizer/mesos/containerizer.cpp:392-395 | once one isolator fails to be created, the loop's result is that failure |
| MesosContainerizer.Create | src/slave/containerizer/mesos/containerizer.cpp:150-418 | the method computes what `CreateIsolators` specifies |
| MesosContainerizer.OverlayLastWins | src/slave/containerizer/mesos/containerizer.cpp:1107-1124 | after the overlay a variable holds its last value given, variables not given keep their old value, and no other name appears |
| MesosContainerizer.MergeFailsOnSecond | src/slave/containerizer/mesos/containerizer.cpp:1102-1150 | merging fails exactly when two infos carry a command or two carry a working directory |
| MesosContainerizer.CountsGrow | src/slave/containerizer/mesos/containerizer.cpp:1102-1150 | the counts of commands and working directories never fall as infos are added |
| MesosContainerizer.MergeKeepsNames | src/slave/containerizer/mesos/containerizer.cpp:1107-1124 | a successful merge keeps every variable already set |
| MesosContainerizer.MergeNamespaces | src/slave/containerizer/mesos/containerizer.cpp:1147-1149 | the launch's namespaces are exactly the union of those the infos ask for |
| MesosContainerizer.OverlayVariables | src/slave/containerizer/mesos/containerizer.cpp:1109-1123 | the variable loop computes the specified overlay |
| MesosContainerizer.MergeStep | src/slave/containerizer/mesos/containerizer.cpp:1103-1149 | one pass of the merge loop computes the specified one-info merge |
| MesosContainerizer.MergeLaunchInfos | src/slave/containerizer/mesos/containerizer.cpp:1102-1150 | the merge loop computes the specified merge, stopping at the first conflict |
| MesosContainerizer.MergeFailedStays | src/slave/containerizer/mesos/containerizer.cpp:1126-1139 | once a prefix of the infos fails to merge, the whole merge fails the same way |
| MesosContainerizer.Next | src/slave/containerizer/mesos/containerizer.cpp:939-1404 | every launch state but running and destroying has a successor one rank further on, never destroying |
| MesosContainerizer.ComposeLaunch | src/slave/containerizer/mesos/containerizer.cpp:1054-1180 | the launch fails exactly on a second command or working directory; otherwise `MESOS_SANDBOX` is set, every variable is kept, the command's own variables override the isolators', and the command falls back to the config, with the rootfs flag for a command task |
| MesosContainerizer.Messages | src/slave/containerizer/mesos/containerizer.cpp:1824-1826 | one message per limitation, in order |
| MesosContainerizer.ReasonsMembers | src/slave/containerizer/mesos/containerizer.cpp:1824-1830 | the reasons are exactly those the limitations carry, and no more than there are limitations |
| MesosContainerizer.TerminationOf | src/slave/containerizer/mesos/containerizer.cpp:1806-1835 | the termination keeps the exit status; with limitations it is `TASK_FAILED` with the messages joined by `; ` and their reasons |
| MesosContainerizer.ComposeTermination | src/slave/containerizer/mesos/containerizer.cpp:1818-1833 | the limitation loop computes the specified termination |
| MesosContainerizer.DestroyOutcome | src/slave/containerizer/mesos/containerizer.cpp:1703-1838 | a kill failure, then cleanup failures joined by `; `, then a rootfs failure fail the promise; otherwise it is set to the termination |
| MesosContainerizer.Failures | src/slave/containerizer/mesos/containerizer.cpp:1703-1803 | the `container_destroy_errors` count never exceeds the number of settled containers |
| MesosContainerizer.Advance | src/slave/containerizer/mesos/containerizer.cpp:939-1404 | a launch step fails when the container is gone or being destroyed, with the source's messages; otherwise only that container moves one state on |
| MesosContainerizer.Destroyed | src/slave/containerizer/mesos/containerizer.cpp:1594-1689 | `destroy` puts a known container that is not already being destroyed in the destroying state, remembers the state it came from, and touches no other; a container already being destroyed is kept as it is |
| MesosContainerizer.NoStepAfterDestroy | src/slave/containerizer/mesos/containerizer.cpp:955-960 | after `destroy` every later launch step fails with "Container is being destroyed during" its phase |
| MesosContainerizer.AdvanceIsForward | src/slave/containerizer/mesos/containerizer.cpp:939-1404 | a step of a launching container moves it exactly one state forward and never to destroying |
| MesosContainerizer.Containerizer.constructor | src/slave/containerizer/mesos/containerizer.cpp:421-439 | a new containerizer has no containers, launch infos, outcomes or killed fetches |
| MesosContainerizer.Containerizer.Launch | src/slave/containerizer/mesos/containerizer.cpp:807-888 | a known id fails with "Container already started"; a new one is declined unless the Mesos containerizer takes it, and is then recorded as provisioning |
| MesosContainerizer.Containerizer.Prepare | src/slave/containerizer/mesos/containerizer.cpp:939-1010 | a provisioning container moves to preparing with its rootfs and the isolators' launch infos, or the step fails as specified |
| MesosContainerizer.Containerizer.ComposeLaunchFor | src/slave/containerizer/mesos/containerizer.cpp:1054-1326 | a gone or destroying container fails with the source's messages; otherwise the result is the composed launch |
| MesosContainerizer.Containerizer.Isolate | src/slave/containerizer/mesos/containerizer.cpp:1329-1370 | a preparing container moves to isolating, or the step fails as specified |
| MesosContainerizer.Containerizer.Fetch | src/slave/containerizer/mesos/containerizer.cpp:1013-1051 | an isolating container moves to fetching, or the step fails as specified |
| MesosContainerizer.Containerizer.Exec | src/slave/containerizer/mesos/containerizer.cpp:1373-1404 | a fetching container moves to running unless writing to the pipe fails, or the step fails as specified |
| MesosContainerizer.Containerizer.Destroy | src/slave/containerizer/mesos/containerizer.cpp:1594-1689 | the container starts to be destroyed, remembering the state it came from, and a fetch in progress is killed |
| MesosContainerizer.Containerizer.Reaped | src/slave/containerizer/mesos/containerizer.cpp:1841-1851 | an exited executor's container is destroyed |
| MesosContainerizer.Containerizer.Limited | src/slave/containerizer/mesos/containerizer.cpp:1854-1879 | a limitation is recorded and the container destroyed, unless it is gone or already being destroyed |
| MesosContainerizer.Containerizer.FinishDestroy | src/slave/containerizer/mesos/containerizer.cpp:1594-1838 | only a destroying container is settled, and its outcome follows the route its origin takes: from provisioning there is no kill, cleanup or exit status, from preparing no kill; it leaves the table, its promise settles as `DestroyOutcome` says, and a failure raises the error count |
| MemoryProfiler.CollectionTime | 3rdparty/libprocess/src/memory_profiler.cpp:676-694 | an accepted duration lies between 1 second and 24 hours; no parameter means 5 minutes; an unparsable or out-of-range one is a bad request |
| MemoryProfiler.RoundedSeconds | 3rdparty/libprocess/src/memory_profiler.cpp:727-729 | `remaining_seconds` is the remaining time rounded to the nearest second |
| MemoryProfiler.Run | 3rdparty/libprocess/src/memory_profiler.cpp:349 | the prefix `strtoll` reads is the longest run of characters of the kind it accepts |
| MemoryProfiler.Strtoll | 3rdparty/libprocess/src/memory_profiler.cpp:349-353 | the characters used lie within the string, and a value that does not overflow fits in 64 bits |
| MemoryProfiler.ExtractId | 3rdparty/libprocess/src/memory_profiler.cpp:337-359 | no parameter means no id; an id is the number the whole parameter spells; overflow or trailing garbage is an error |
| MemoryProfiler.DigitsValueOfDigits | 3rdparty/libprocess/src/memory_profiler.cpp:724 | the printed digits spell the id back |
| MemoryProfiler.DigitsRun | 3rdparty/libprocess/src/memory_profiler.cpp:349 | `strtoll` reads all the printed digits |
| MemoryProfiler.StrtollDigits | 3rdparty/libprocess/src/memory_profiler.cpp:349-353 | `strtoll` reads the printed digits of a non-negative id back as that id, using every character |
| MemoryProfiler.StrtollNegated | 3rdparty/libprocess/src/memory_profiler.cpp:349-353 | `strtoll` reads a minus sign followed by the printed digits as the negated number, using every character |
| MemoryProfiler.ExtractPrintedId | 3rdparty/libprocess/src/memory_profiler.cpp:337-359 | an id the profiler prints in its download URLs is read back as the same id |
| MemoryProfiler.ExtractOddIds | 3rdparty/libprocess/src/memory_profiler.cpp:344-358 | an example, not a general property: an empty parameter reads as id 0, and `12x` is rejected as garbage after the id |
| MemoryProfiler.JoinPath | 3rdparty/libprocess/src/memory_profiler.cpp:577 | the joined path is longer than the file name |
| MemoryProfiler.PathAsWritten | 3rdparty/libprocess/src/memory_profiler.cpp:570-578 | as written, `path()` always succeeds, even when the temporary directory could not be made |
| MemoryProfiler.PathErrorBecomesPath | 3rdparty/libprocess/src/memory_profiler.cpp:570-578 | as written, the directory error text is returned as the path, and a generation then succeeds without a file |
| MemoryProfiler.Path | 3rdparty/libprocess/src/memory_profiler.cpp:570-578 | the artifact's path is the file in the temporary directory, or the directory's error |
| MemoryProfiler.GenerationAsWritten | 3rdparty/libprocess/src/memory_profiler.cpp:607-633 | as written, the artifact holds the requested id exactly when the generation succeeds |
| MemoryProfiler.Generation | 3rdparty/libprocess/src/memory_profiler.cpp:607-633 | an artifact already holding the id is kept; otherwise a missing path or a failed generator is reported and the id is kept only on success |
| MemoryProfiler.GenerateIdempotent | 3rdparty/libprocess/src/memory_profiler.cpp:610-612 | generating the same id a second time succeeds and changes nothing, whatever the generator |
| MemoryProfiler.DiskArtifact.constructor | 3rdparty/libprocess/src/memory_profiler.cpp:558-562 | a new artifact has not been generated yet |
| MemoryProfiler.DiskArtifact.Generate | 3rdparty/libprocess/src/memory_profiler.cpp:607-633 | the artifact's id and the result are as `Generation` specifies |
| MemoryProfiler.Profiler.constructor | 3rdparty/libprocess/src/memory_profiler.cpp:524-531 | a new profiler has no run and three artifacts not yet generated |
| MemoryProfiler.Profiler.CurrentRunInformation | 3rdparty/libprocess/src/memory_profiler.cpp:1032-1047 | `current_run` shows the active run, else the last dumped profile with 0 seconds left, else null; any id shown was handed out by `start` |
| MemoryProfiler.Profiler.Start | 3rdparty/libprocess/src/memory_profiler.cpp:668-733 | `start` rejects a missing jemalloc, a bad duration and disabled profiling; it begins a run only when jemalloc was idle, reports a conflict for a run started elsewhere, and records every id it hands out |
| MemoryProfiler.Profiler.StopAndGenerateRawProfile | 3rdparty/libprocess/src/memory_profiler.cpp:801-874 | without a run the last profile id is returned; otherwise the run ends and, if jemalloc stopped, the raw profile is dumped under the run's id |
| MemoryProfiler.Profiler.Stop | 3rdparty/libprocess/src/memory_profiler.cpp:736-785 | every answer of `stop`: a missing jemalloc and a run started elsewhere are bad requests that change nothing; with no run the last profile's id or error is answered; with a run, a failed stop is a bad request and the run is extended, a stop that left jemalloc idle is a bad request, and otherwise the raw profile is generated under the run's id and that id is answered, or the dump error is |
| MemoryProfiler.Profiler.DownloadRaw | 3rdparty/libprocess/src/memory_profiler.cpp:877-900 | a bad id or a missing profile is a bad request; otherwise the raw profile is served when the id matches |
| MemoryProfiler.Profiler.DownloadGraph | 3rdparty/libprocess/src/memory_profiler.cpp:903-945 | a bad id or a missing profile is a bad request; otherwise the graph is generated for the raw profile's id and served |
| MemoryProfiler.Profiler.DownloadTextProfile | 3rdparty/libprocess/src/memory_profiler.cpp:948-992 | as written, jeprof is run on the symbolized profile's own path, and the graph file is what is served |
| MemoryProfiler.Profiler.DownloadTextProfileIntended | 3rdparty/libprocess/src/memory_profiler.cpp:948-992 | jeprof is run on the raw profile and the symbolized profile is what is served |
| MemoryProfiler.TextProfileReadsItsOutput | 3rdparty/libprocess/src/memory_profiler.cpp:973-989 | as written, the text generator hands jeprof the symbolized profile's own path as input as well as output, so the generation's result depends only on that path and never on the raw profile |
| Quantities.GetAdd | src/master/allocator/sorter/drf/sorter.cpp:163-165 | `+=` on scalar quantities adds the amount of every name |
| Quantities.GetSub | src/master/allocator/sorter/drf/sorter.cpp:272-273 | `-=` on scalar quantities lowers every amount by what is taken, never below 0 |
| Quantities.Extensional | src/master/allocator/sorter/drf/sorter.cpp:383 | two quantity maps with the same amounts are the same map |
| Quantities.SubAdd | src/master/allocator/sorter/drf/sorter.cpp:262-282 | taking away what was just added restores the quantities |
| Quantities.AddSub | src/master/allocator/sorter/drf/sorter.cpp:305-306 | adding back what was taken away, when it was contained, restores the quantities |
| Quantities.ContainsAdded | src/master/allocator/sorter/drf/sorter.cpp:305 | quantities that were added are contained in the sum |
| Resources.Flatten | src/master/quota_handler.cpp:114-115 | `flatten` keeps every resource's name, kind and amount and moves it to role `*` without a reservation |
| Resources.Unreserved | src/master/quota_handler.cpp:135-136 | `unreserved` keeps only resources of role `*` taken from the input |
| Resources.QuantityAppend | src/master/quota_handler.cpp:138 | `+=` of resources adds the amounts of every name and role |
| Resources.ContainsMeaning | src/master/quota_handler.cpp:142 | `contains` holds exactly when every name and role has at least the amount asked for |
| Resources.QuantityWitness | src/master/quota_handler.cpp:142 | a positive amount comes from a resource of that name and role |
| Resources.ContainsGrow | src/master/quota_handler.cpp:138-142 | adding resources never makes a contained request uncontained |
| Resources.QuantityFlatten | src/master/quota_handler.cpp:114-115 | after `flatten` role `*` holds a name's amount over all roles and no other role holds anything |
| Resources.QuantityUnreserved | src/master/quota_handler.cpp:135-136 | `unreserved` keeps exactly the role-`*` amounts |
| Text.Split | src/hook/manager.cpp:51 | `strings::split` yields at least one piece and no piece holds the separator |
| Text.NonEmpty | src/watcher/whitelist_watcher.cpp:84 | exactly the non-empty pieces are kept, in order |
| Text.Tokenize | src/watcher/whitelist_watcher.cpp:84 | `strings::tokenize` yields only non-empty pieces without the separator |
| Text.JoinSplit | src/hook/manager.cpp:51 | joining the pieces of a split with the separator gives back the input |
| Text.SplitJoin | src/hook/manager.cpp:51 | splitting a join of separator-free pieces gives back the pieces |
| Text.SplitNoSeparator | src/hook/manager.cpp:51 | a string without the separator splits into itself alone |
| Text.SplitAfter | src/hook/manager.cpp:51 | a piece followed by the separator is split off first |
| Text.LessIrreflexive | src/master/allocator/sorter/drf/sorter.cpp:50 | no name is before itself in `std::string` order |
| Text.LessTransitive | src/master/allocator/sorter/drf/sorter.cpp:50 | `std::string` order is transitive |
| Text.LessTotal | src/master/allocator/sorter/drf/sorter.cpp:50 | any two different names are ordered one way or the other |
| Text.LessAsymmetric | src/master/allocator/sorter/drf/sorter.cpp:50 | two names are never ordered both ways |

## Left out

- Futures, `defer`/`dispatch` continuations, timers and process spawning: each handler or continuation runs as one atomic step, and what it waits for (a reaped status, a curl run, an isolator's result, a registry write) is an input of that step.
- Subprocesses, sockets, files and the clock are out of scope. The checkers' command, HTTP and TCP runs, the containerizer's launcher, fetcher, provisioner, logger and isolators, jemalloc's `mallctl` and `jeprof` all appear only as their outcomes. The file existence check of `DiskArtifact::asHttp` is not modelled, and neither are the memory profiler's `statistics` and jemalloc-state endpoints or its help texts.
- `Resources::validate`, `validateCommandInfo`, JSON and query-string decoding, `Duration::parse` and the module manager are parameters, not implementations. Ranges and sets in `Resources` carry no amount.
- Floating point is modelled with `real`: DRF shares, weights and check durations. IEEE rounding, NaN and infinity are not modelled.
- Durations in the shutdown arithmetic and the memory profiler are unbounded integers of nanoseconds. The signed 64-bit range of `Duration` is only checked where the source validates against it: the grace period in `src/checks/health_checker.cpp`.
- The values of `SHUTDOWN_TIMEOUT_DELTA`, `EXECUTOR_SHUTDOWN_GRACE_PERIOD` and the protobuf defaults of delay, interval, timeout and grace period are not defined in the modelled files, so they are parameters.
- Hash map iteration order is a parameter. This covers the hook manager's loaded hooks, the master's agents and frameworks, and the quotas summed by the capacity heuristic.
- Metrics of the sorters, of the containerizer (apart from the destroy error count) and of the master are not modelled. The later sorter's read-only `allocation` and `allocationScalarQuantities` queries are lookups of its `allocations` field.
- `MesosExecutorDriver::join` and `run` block on a pthread condition variable and are not modelled. The driver and its `ExecutorProcess` are one object: messages the process receives after the driver is gone are not modelled. Agent ids, framework ids and timestamps are reduced to what the bookkeeping needs, and fresh UUIDs come from a counter.
- Containerizer recovery, `update`, `usage`, `status`, `wait`, the Windows and non-Linux launcher branches, the container logger, checkpointing of the forked pid and the default `ContainerInfo` are not modelled. Whether a launch is taken by the Mesos containerizer is a `mesos` input of `Launch`.
- Quota removal and status endpoints, authentication and authorization (a TODO in the source) and the registry write (also a TODO) are not modelled.
- DrfSorter.Sorter.Activate: requires the name to have a weight. After `allocated` or `unallocated` of an unknown name, `allocations` holds the name without a weight. The source's `activate` would then share by a default weight of 0, which `real` cannot model.
- DrfSorter.Sorter.Unallocated: the resources a client holds on each agent are kept as stripped scalar quantities, not as full `Resources`. The source's `CHECK` that the agent's entry contains the resources (`src/master/allocator/sorter/drf/sorter.cpp:269-276`) compares roles and reservations, so the model also accepts a release of the wrong role. The source erases the agent's entry only when its `Resources` is empty; the model erases it when no scalar is left, so an agent still holding only ports or other non-scalar resources loses its entry.
- DrfSorter.Sorter.UpdateAllocation: the same stripped per-agent entry as `DrfSorter.Sorter.Unallocated`. The source's role- and reservation-aware `CHECK` of the old resources (`src/master/allocator/sorter/drf/sorter.cpp:193-199`) becomes a check on scalar amounts only.
- DrfSorter.Sorter.Add: requires a positive weight. The source divides by the weight without checking it, and a weight of 0 would give an infinite or undefined share.
- DrfSorter.Sorter.UpdateWeight: requires a positive weight, for the same reason as `Add`.
- DrfSorterOld.Sorter.Activate: requires a non-zero weight for the name. The source divides by the weight, and a weight of 0 gives an infinite or undefined share, which `real` cannot model. `add` itself takes any weight.
- DrfSorterOld.Sorter.Allocated: requires a non-zero weight only when it recomputes a share, that is when the sorter is clean and the name is active, for the same reason as `Activate`.
- DrfSorterOld.Sorter.Unallocated: requires a non-zero weight only when it recomputes a share, as `Allocated` does.
- DrfSorterOld.Sorter.Update: requires a non-zero weight only when the name is active, for the same reason as `Activate`.
- DrfSorterOld.Sorter.CalculateShare: requires a non-zero weight, for the same reason as `Activate`.
- DrfSorterOld.Sorter.Sort: when dirty, requires every entry to have a non-zero weight. After `remove` of a client with two entries, the source would recompute the share of a forgotten name against a default weight of 0.
- DrfSorterOld.Sorter.Unallocated: the allocation is kept as amounts per resource name, and the resources are taken away per name. The source's `-=` works role by role, so taking away a role the client does not hold differs; the share reads only the per-name sum (`get<Value::Scalar>`), which the model keeps.
- DrfSorterOld.Plus: entries of the total are told apart by name and role only. Reservation labels, disk sources and revocability, which `Resources` also compares, are not modelled.
- MesosContainerizer.Containerizer.Prepare: requires a live container to be in the state the previous step leaves. The continuation chain guarantees this.
- MesosContainerizer.Containerizer.Isolate: requires a live container to be in the state the previous step leaves, as the continuation chain guarantees. The same holds for `MesosContainerizer.Containerizer.Fetch`, `MesosContainerizer.Containerizer.Exec` and `MesosContainerizer.Containerizer.ComposeLaunchFor`.
- Executor.ExecutorDriver.Start: the environment is taken as already parsed. The source's `start` aborts the process through `CHECK(slave)` when `MESOS_SLAVE_PID` does not parse (`src/exec/exec.cpp:683`), and through `CHECK_SOME` when checkpointing with a `MESOS_RECOVERY_TIMEOUT` that does not parse (lines 719-720). The model does not promise those aborts: its `Start` always succeeds for a driver not started.
- Executor.ExecutorDriver.Register: requires that the process exists, meaning `start` has run. The same holds for the other message handlers of `ExecutorProcess`, because messages reach a process only after `start` spawned it.
- Executor.ExecutorDriver.RunTask: requires, unless aborted, a task id not already recorded. The source's `CHECK` aborts the program on a duplicate.
- Checks.ToUint32: the HTTP status code is narrowed to 32 bits as in the source. The exit code of a COMMAND check is kept as an unbounded integer.
- MemoryProfiler.Profiler.Stop: the activity flag is the plain `bool` that `profilingActive` returns, false when jemalloc's setting cannot be read (`3rdparty/libprocess/src/memory_profiler.cpp:648-655`). The error branch of `stop` that tests it for an error can never be taken, so it is not modelled.
- MemoryProfiler.Profiler.StopAndGenerateRawProfile: the `CHECK(!jemalloc.profilingActive())` after a successful stop (`3rdparty/libprocess/src/memory_profiler.cpp:829`), and the same `CHECK` in `stop` (line 765), abort the process when jemalloc is active again. jemalloc's state is an input of each step, so the model assumes it stays inactive and does not model the abort.
- MemoryProfiler.DiskArtifact.Generate: every profiler operation that writes a file uses the corrected `MemoryProfiler.Path` and `MemoryProfiler.Generation`. This covers `MemoryProfiler.DiskArtifact.Generate`, `MemoryProfiler.Profiler.StopAndGenerateRawProfile`, `MemoryProfiler.Profiler.Stop`, `MemoryProfiler.Profiler.DownloadGraph`, `MemoryProfiler.Profiler.DownloadTextProfile` and `MemoryProfiler.Profiler.DownloadTextProfileIntended`. When the temporary directory cannot be made, they report "Could not determine target path", where the source runs the generator on the error text (second Findings row). `MemoryProfiler.GenerationAsWritten` is the as-written generation. `DownloadTextProfile` is as written only in what the third Findings row describes.
- MemoryProfiler.Strtoll: models base 10 only, as the source calls it. Locale-specific number forms of the C library are not modelled.

## Findings

| source | as written | input that shows it | evidently intended | confidence | as-written member | corrected member |
|---|---|---|---|---|---|---|
| src/health-check/health_checker.cpp:487-493 | the scheme is compared with `"https"` twice, so every named scheme other than `https` is rejected | an HTTP health check with scheme `http` | accept `http` and `https`, as `src/checks/health_checker.cpp:427-438` does | not executed | HealthCheckLegacy.ExplicitHttpSchemeRejected | HealthChecks.ValidateHealthCheck |
| 3rdparty/libprocess/src/memory_profiler.cpp:570-578 | `path()` returns the error of the temporary directory as a successful `Try<std::string>`, so the error text is used as a file path | `getTemporaryDirectoryPath` failing with any message | report the error, so that `generate` fails with "Could not determine target path" | not executed | MemoryProfiler.PathErrorBecomesPath | MemoryProfiler.Path |
| 3rdparty/libprocess/src/memory_profiler.cpp:948-992 | `downloadTextProfile` runs jeprof on the symbolized profile's own path and then serves the graph file | a text download after a raw profile was dumped | run jeprof on the raw profile and serve the symbolized profile | not executed | MemoryProfiler.Profiler.DownloadTextProfile, MemoryProfiler.TextProfileReadsItsOutput | MemoryProfiler.Profiler.DownloadTextProfileIntended |
| src/exec/exec.cpp:769-786 | `stop` of an aborted driver `CHECK`s that its process exists, but a driver aborted by a flag load failure (lines 603-609) never made one | set `MESOS_` logging flags that fail to load, then call `stop()` | answer `DRIVER_ABORTED` and set the status to stopped, as for any aborted driver | not executed | Executor.StopAsWritten, Executor.StopAfterLoadFailure | Executor.ExecutorDriver.Stop |
