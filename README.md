# Pausing activities in the history service

This project models the history service's PauseActivity handler
(`service/history/api/pauseactivity/api.go`) of a durable-execution workflow
engine. It proves what the handler does. A pause request names one workflow run
and selects activities by one of two things:

- an explicit activity ID, or
- an activity type name, meaning every pending activity of that type.

The handler runs one update function inside the engine's update-transaction
primitive, `GetAndUpdateWorkflowWithNew`. That function works in three steps:

1. It resolves the selector to a list of activity IDs.
2. It fails with `ErrActivityNotFound` when the list is empty.
3. It pauses the IDs one at a time, in list order, on the run's mutable state. The
   first failing pause stops the loop, and its error is returned unchanged.

On success the function returns the action `{Noop: false, CreateWorkflowTask: false}`.
`Invoke` returns `(nil, err)` when the transaction fails, and an empty response otherwise.

Modules follow the Go packages:

- `Workflow` (`workflow.dfy`): the run's mutable state, as a class holding the
  pending-activity map. Also the per-activity `PauseActivity` call.
- `Api` (`api.dfy`): the update action and the arguments of the transaction
  primitive. Also the outcomes of the primitive's own collaborators: taking the
  lease and persisting.
- `Workflowservice` and `Historyservice`: the request and response messages, with
  protobuf's nil-safe getters.
- `Consts`, `Definition`, `Wrappers`: errors, the workflow key, and `Option`.
- `PauseActivity` (`pauseactivity.dfy`): the handler, its update function, the
  specification functions they are proved against, and the lemmas.

Pending activities are a map from activity ID to `ActivityInfo`. Go iterates a map
in no fixed order, so resolution by type picks each next key with `:|`. Its result
is specified as a multiset (`ResolvedTargets`), never as a sequence.

The pause loop and the handler are specified by two pure functions:

- `PauseTrace` lists the calls the loop makes. Each call records its ID, the state
  it saw, and what it returned.
- `UpdateResult` gives the update function's action, error and final state, for a
  given resolution order.

The methods' `ensures` equate their results with these functions. The lemmas then
prove the source's promises about the functions.

## Model

| member | source | states |
|---|---|---|
| `PauseActivity.ResolveActivityIds` | service/history/api/pauseactivity/api.go:54-65 | An ID selector yields exactly `[id]`, whether or not that ID is pending. For any selector, the multiset of the result equals `ResolvedTargets`: by type, each pending activity of that type once and nothing else; unset, nothing. |
| `PauseActivity.ResolvedTargets` | service/history/api/pauseactivity/api.go:55-64 | Reference definition of resolution. By type, an ID occurs once if it is pending with that type name, and zero times otherwise. By ID, the one ID. Unset, empty. |
| `PauseActivity.NothingResolvedIff` | service/history/api/pauseactivity/api.go:55-69 | Resolution is empty if and only if the selector is unset, or names a type that no pending activity has. |
| `PauseActivity.PauseTrace` | service/history/api/pauseactivity/api.go:71-76 | The loop makes at most one call per ID. When the list is not empty it makes at least one. |
| `PauseActivity.PauseTraceFacts` | service/history/api/pauseactivity/api.go:71-76 | Call i passes `ids[i]` to `PauseActivity` on the state call i-1 left. Every call but the last succeeded. The loop stops before the end of the list only after a failing call. |
| `PauseActivity.PauseTraceCalls` | service/history/api/pauseactivity/api.go:71-72 | Call i passes `ids[i]` to `PauseActivity` and records exactly what that call returned. |
| `PauseActivity.PauseTraceChained` | service/history/api/pauseactivity/api.go:71-72 | The first call sees the starting state, and each later call sees the state the previous call left. |
| `PauseActivity.PauseTraceOnlyLastFails` | service/history/api/pauseactivity/api.go:71-75 | Every call but the last succeeded. The loop stops before the end of the list only after a failing call. |
| `PauseActivity.PauseTraceIsPrefix` | service/history/api/pauseactivity/api.go:71-75 | The IDs passed to `PauseActivity` are exactly a prefix of the resolved list, in list order. No ID is skipped or repeated, and no ID after a failure is attempted. |
| `PauseActivity.UpdateResult` | service/history/api/pauseactivity/api.go:67-80 | An error comes with a nil action, and a nil error with an action. Any action is `{Noop: false, CreateWorkflowTask: false}`. An empty list gives `ErrActivityNotFound`, with no pause call and the state unchanged. |
| `PauseActivity.UpdateSucceedsIff` | service/history/api/pauseactivity/api.go:67-80 | The update function succeeds if and only if the list is not empty and every pause call, one per ID, succeeded. On success the IDs paused are the list itself. |
| `PauseActivity.UpdateStopsAtFirstError` | service/history/api/pauseactivity/api.go:71-75 | On a failing pause, the returned error is that call's own error. The calls were exactly `ids[..k+1]`, all before `k` succeeded, and the state is what the failing call left. |
| `PauseActivity.UpdatePause` | service/history/api/pauseactivity/api.go:51-81 | The update function resolves the selector (as `ResolveActivityIds`), then runs the pause loop on the mutable state in place. Its action, error, final state and calls equal `UpdateResult` for the resolved list. |
| `Workflow.PauseActivity` | service/history/api/pauseactivity/api.go:72 | One call of the uninterpreted `workflow.PauseActivity`: the state becomes what the collaborator produces, and its error is returned. |
| `PauseActivity.TransactionError` | service/history/api/pauseactivity/api.go:43-85 | A lease error is returned as is, and the update function does not run. An update-function error is returned unchanged. No error is possible unless the update function succeeded. |
| `PauseActivity.GetAndUpdateWorkflowWithNew` | service/history/api/pauseactivity/api.go:43-85 | The update function runs exactly when the lease is taken. It then leaves the state and outcome given by `UpdateResult`. The error is `TransactionError`. |
| `PauseActivity.InvokeCall` | service/history/api/pauseactivity/api.go:43-50 | The transaction gets nil for the clock argument and nil for the new-run argument. Its key is (NamespaceId, the execution's WorkflowId, the execution's RunId) when the frontend request and its execution are present. When either is missing, the key is (NamespaceId, "", ""). |
| `Definition.NewWorkflowKey` | service/history/api/pauseactivity/api.go:46-50 | The key keeps the namespace, workflow and run IDs exactly as given. |
| `Workflowservice.GetExecution` | service/history/api/pauseactivity/api.go:48-49 | A missing frontend request has no execution. Otherwise the result is the request's own execution. |
| `Workflowservice.GetWorkflowId` | service/history/api/pauseactivity/api.go:48 | A missing execution gives the empty workflow ID. Otherwise the result is the execution's workflow ID. |
| `Workflowservice.GetRunId` | service/history/api/pauseactivity/api.go:49 | A missing execution gives the empty run ID. Otherwise the result is the execution's run ID. |
| `Workflowservice.GetActivity` | service/history/api/pauseactivity/api.go:53-55 | A missing frontend request gives the unset selector, which falls through the switch. Otherwise the result is the request's own selector. |
| `Workflow.MutableState.GetPendingActivityInfos` | service/history/api/pauseactivity/api.go:60 | The result has the same activity IDs, with the same records, as the state holds. |
| `PauseActivity.Invoke` | service/history/api/pauseactivity/api.go:37-92 | Returns `(nil, err)` exactly when the transaction errs. Otherwise it returns a non-nil empty `PauseActivityResponse` and a nil error. The state is what the update function left, or unchanged when the lease failed. |
| `PauseActivity.InvokeSuccessPausedAllTargets` | service/history/api/pauseactivity/api.go:54-80 | A successful transaction had a non-empty resolution. It paused every resolved target exactly once, every call succeeding; for a type selector these are all pending activities of that type. |
| `PauseActivity.InvokeMissingFrontendRequestIsNotFound` | service/history/api/pauseactivity/api.go:47-69 | A request without a frontend message gets the key (NamespaceId, "", ""). With the lease taken, it fails with `ErrActivityNotFound`. No pause call is made and the state is unchanged. |
| `PauseActivity.InvokeNothingResolvedIsNotFound` | service/history/api/pauseactivity/api.go:55-69 | With the lease taken, an unset selector, or a type no pending activity has, fails with `ErrActivityNotFound`. No pause call is made and the state is unchanged. |

## Left out

- `workflow.PauseActivity` is not part of this model. It is a parameter `pause`: any
  deterministic function from (pending activities, activity ID) to a new state and
  an optional error. Nothing is assumed about the state a failing call leaves.
- `api.GetAndUpdateWorkflowWithNew` is not part of this model. The model assumes
  the following of it, restricted to this handler's update function:
  - it takes the lease, whose outcome comes from `env.acquire`;
  - it runs the update function and passes that function's error through unchanged;
  - it skips persisting on a no-op action;
  - otherwise it persists, with the outcome from `env.commit`.
  Its consistency checks, locking, lease release, new-run handling and retry
  policy are not modelled. Dafny has no method-valued parameters, so this model
  of the primitive calls `UpdatePause` directly instead of taking a closure.
- `PauseActivity.GetAndUpdateWorkflowWithNew`: the clock and new-run arguments are
  recorded by `InvokeCall`, but they have no effect in the model of the primitive.
- The primitive's rollback behaviour is not modelled. An activity pause is meant
  to be all-or-nothing. The handler itself, however, pauses IDs in place one after
  another, and a later failure does not undo the earlier pauses.
  `UpdateStopsAtFirstError` states exactly that. Whether the primitive discards the
  partly mutated state is not visible here.
- The mutable state holds only the pending-activity map. Version counters,
  callbacks, timers and activity states are not modelled, and neither is the
  key the engine really uses for pending activities (the scheduled event ID).
- Go's nil-pointer panics are not modelled. The handler reads
  `ai.ActivityType.Name` directly (api.go:61), which panics on a nil map value or a
  nil activity type. It also reads `request.NamespaceId` (api.go:47), which panics
  on a nil request. In the model every `ActivityInfo` carries a type and a request
  is always present: an activity's type is always set when it is scheduled, and
  the RPC layer never passes a nil request.
- The context, shard context and workflow consistency checker are not modelled.
  Nor are cancellation, concurrency and shard ownership.
