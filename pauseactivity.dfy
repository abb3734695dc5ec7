/**
 * The history service's PauseActivity handler: resolve the request's selector to
 * activity IDs, refuse an empty resolution, pause each ID in turn until one fails,
 * all inside one update transaction on the run named by the request.
 */
module PauseActivity {
  import opened Wrappers
  import opened Consts
  import opened Definition
  import opened Workflow
  import opened Api
  import Workflowservice
  import Historyservice

  // ---------------------------------------------------------------------------
  // Selector resolution
  // ---------------------------------------------------------------------------

  /** IDs of the pending activities whose type is named `typeName`. */
  function MatchingActivityIds(pending: PendingActivities, typeName: string): (ids: set<ActivityId>)
  {
    set id | id in pending && pending[id].activityType.name == typeName
  }

  /**
   * The targets a selector stands for, as a multiset: resolution walks a map, whose
   * iteration order is unspecified, so only the multiset of IDs is determined.
   */
  function ResolvedTargets(selector: Workflowservice.ActivitySelector, pending: PendingActivities)
    : (targets: multiset<ActivityId>)
    ensures selector.ById? ==> targets == multiset{selector.id}
    ensures selector.ByType? ==> forall id :: (targets[id] ==
      if id in pending && pending[id].activityType.name == selector.typeName then 1 else 0)
    ensures selector.NoActivity? ==> targets == multiset{}
  {
    match selector
    case ById(id) => multiset{id}
    case ByType(typeName) => multiset(MatchingActivityIds(pending, typeName))
    case NoActivity => multiset{}
  }

  /** A selector resolves to nothing exactly when it is unset or names a type no pending activity has. */
  lemma NothingResolvedIff(selector: Workflowservice.ActivitySelector, pending: PendingActivities)
    ensures ResolvedTargets(selector, pending) == multiset{} <==>
      (selector.NoActivity? ||
       (selector.ByType? && forall id :: id in pending ==> pending[id].activityType.name != selector.typeName))
  {
  }

  /** Collects the activity IDs the selector names, walking the pending activities in no fixed order. */
  method ResolveActivityIds(mutableState: MutableState, selector: Workflowservice.ActivitySelector)
    returns (activityIds: seq<ActivityId>)
    ensures multiset(activityIds) == ResolvedTargets(selector, mutableState.pendingActivityInfos)
    ensures selector.ById? ==> activityIds == [selector.id]
  {
    activityIds := [];
    match selector {
      case ById(id) =>
        activityIds := activityIds + [id];
      case ByType(activityType) =>
        var pending := mutableState.GetPendingActivityInfos();
        var unvisited := pending.Keys;
        while unvisited != {}
          invariant unvisited <= pending.Keys
          invariant multiset(activityIds) == multiset(MatchingActivityIds(pending, activityType) - unvisited)
          decreases unvisited
        {
          var activityId :| activityId in unvisited;
          ghost var seen := MatchingActivityIds(pending, activityType) - unvisited;
          if pending[activityId].activityType.name == activityType {
            activityIds := activityIds + [activityId];
            assert MatchingActivityIds(pending, activityType) - (unvisited - {activityId}) == seen + {activityId};
          } else {
            assert MatchingActivityIds(pending, activityType) - (unvisited - {activityId}) == seen;
          }
          unvisited := unvisited - {activityId};
        }
      case NoActivity =>
    }
  }

  // ---------------------------------------------------------------------------
  // The pause loop
  // ---------------------------------------------------------------------------

  /** One call of workflow.PauseActivity: its argument, the state it saw, and what it returned. */
  datatype PauseStep = PauseStep(activityId: ActivityId, before: PendingActivities, outcome: PauseOutcome)

  /**
   * The calls the pause loop makes, starting from `state`: one per ID of `ids`, in
   * order, each on the state the previous one left, stopping after the first that fails.
   */
  function PauseTrace(pause: PauseFn, state: PendingActivities, ids: seq<ActivityId>)
    : (trace: seq<PauseStep>)
    ensures |trace| <= |ids|
    ensures ids != [] ==> trace != []
    decreases |ids|
  {
    if ids == [] then []
    else
      var outcome := pause(state, ids[0]);
      var step := PauseStep(ids[0], state, outcome);
      if outcome.err.Some? then [step]
      else [step] + PauseTrace(pause, outcome.state, ids[1..])
  }

  /**
   * What the pause loop's calls are: call i passes ids[i] to PauseActivity on the
   * state call i - 1 left; every call but the last succeeded; and the loop stops
   * short of the end of `ids` only after a failing call.
   */
  lemma {:induction false} PauseTraceFacts(pause: PauseFn, state: PendingActivities, ids: seq<ActivityId>)
    ensures var trace := PauseTrace(pause, state, ids);
      && (forall i :: 0 <= i < |trace| ==>
            trace[i].activityId == ids[i] && trace[i].outcome == pause(trace[i].before, ids[i]))
      && Chained(state, trace)
      && (forall i :: 0 <= i < |trace| - 1 ==> trace[i].outcome.err.None?)
      && (|trace| < |ids| ==> trace != [] && trace[|trace| - 1].outcome.err.Some?)
  {
    PauseTraceCalls(pause, state, ids);
    PauseTraceChained(pause, state, ids);
    PauseTraceOnlyLastFails(pause, state, ids);
  }

  /** Call i of the trace passes ids[i] to PauseActivity and records what it returned. */
  lemma {:induction false} PauseTraceCalls(pause: PauseFn, state: PendingActivities, ids: seq<ActivityId>)
    ensures var trace := PauseTrace(pause, state, ids);
      forall i :: 0 <= i < |trace| ==>
        trace[i].activityId == ids[i] && trace[i].outcome == pause(trace[i].before, ids[i])
    decreases |ids|
  {
    if ids != [] && pause(state, ids[0]).err.None? {
      var outcome := pause(state, ids[0]);
      var rest := PauseTrace(pause, outcome.state, ids[1..]);
      PauseTraceCalls(pause, outcome.state, ids[1..]);
      var trace := PauseTrace(pause, state, ids);
      assert trace == [PauseStep(ids[0], state, outcome)] + rest;
      forall i | 0 < i < |trace|
        ensures trace[i].activityId == ids[i] && trace[i].outcome == pause(trace[i].before, ids[i])
      {
        assert trace[i] == rest[i - 1];
        assert ids[1..][i - 1] == ids[i];
      }
    }
  }

  /** Each call of the trace runs on the state the previous call left. */
  lemma {:induction false} PauseTraceChained(pause: PauseFn, state: PendingActivities, ids: seq<ActivityId>)
    ensures Chained(state, PauseTrace(pause, state, ids))
    decreases |ids|
  {
    if ids != [] && pause(state, ids[0]).err.None? {
      var outcome := pause(state, ids[0]);
      var rest := PauseTrace(pause, outcome.state, ids[1..]);
      PauseTraceChained(pause, outcome.state, ids[1..]);
      var trace := PauseTrace(pause, state, ids);
      assert trace == [PauseStep(ids[0], state, outcome)] + rest;
      forall i | 0 < i < |trace|
        ensures trace[i].before == StateBefore(state, trace, i)
      {
        assert trace[i] == rest[i - 1];
        if i > 1 {
          assert trace[i - 1] == rest[i - 2];
          assert rest[i - 1].before == StateBefore(outcome.state, rest, i - 1);
        }
      }
    }
  }

  /** Every call but the last succeeded, and the trace stops short of `ids` only on a failure. */
  lemma {:induction false} PauseTraceOnlyLastFails(pause: PauseFn, state: PendingActivities, ids: seq<ActivityId>)
    ensures var trace := PauseTrace(pause, state, ids);
      && (forall i :: 0 <= i < |trace| - 1 ==> trace[i].outcome.err.None?)
      && (|trace| < |ids| ==> trace != [] && trace[|trace| - 1].outcome.err.Some?)
    decreases |ids|
  {
    if ids != [] && pause(state, ids[0]).err.None? {
      var outcome := pause(state, ids[0]);
      var rest := PauseTrace(pause, outcome.state, ids[1..]);
      PauseTraceOnlyLastFails(pause, outcome.state, ids[1..]);
      var trace := PauseTrace(pause, state, ids);
      assert trace == [PauseStep(ids[0], state, outcome)] + rest;
      forall i | 0 < i < |trace| - 1
        ensures trace[i].outcome.err.None?
      {
        assert trace[i] == rest[i - 1];
      }
      if |trace| < |ids| {
        assert trace[|trace| - 1] == rest[|rest| - 1];
      }
    }
  }

  /** Each call of `trace` saw the state the previous one left, the first `state`. */
  ghost predicate Chained(state: PendingActivities, trace: seq<PauseStep>)
  {
    forall i :: 0 <= i < |trace| ==> trace[i].before == StateBefore(state, trace, i)
  }

  /** The state before call `i` of `trace`. */
  function StateBefore(state: PendingActivities, trace: seq<PauseStep>, i: nat): (before: PendingActivities)
    requires i <= |trace|
  {
    if i == 0 then state else trace[i - 1].outcome.state
  }

  /** The state after the calls of `trace`, starting from `state`. */
  function FinalState(state: PendingActivities, trace: seq<PauseStep>): (after: PendingActivities)
  {
    if trace == [] then state else trace[|trace| - 1].outcome.state
  }

  /** The error of the last call of `trace`, if it failed. */
  function LastError(trace: seq<PauseStep>): (err: Option<Error>)
  {
    if trace == [] then None else trace[|trace| - 1].outcome.err
  }

  /** The activity IDs passed to workflow.PauseActivity, in call order. */
  function CalledIds(trace: seq<PauseStep>): (ids: seq<ActivityId>)
    ensures |ids| == |trace|
    ensures forall i :: 0 <= i < |trace| ==> ids[i] == trace[i].activityId
  {
    if trace == [] then [] else CalledIds(trace[..|trace| - 1]) + [trace[|trace| - 1].activityId]
  }

  /**
   * One more call of the loop: if the trace so far is `done` and the rest starts at
   * `current`, the call on `ids[i]` either ends the trace (it failed) or extends it.
   */
  lemma PauseTraceAdvance(
    pause: PauseFn, start: PendingActivities, ids: seq<ActivityId>,
    done: seq<PauseStep>, current: PendingActivities, i: nat)
    requires i < |ids|
    requires PauseTrace(pause, start, ids) == done + PauseTrace(pause, current, ids[i..])
    ensures var step := PauseStep(ids[i], current, pause(current, ids[i]));
      if step.outcome.err.Some? then PauseTrace(pause, start, ids) == done + [step]
      else PauseTrace(pause, start, ids) == (done + [step]) + PauseTrace(pause, step.outcome.state, ids[i + 1..])
  {
  }

  /**
   * The IDs attempted are a prefix of the list: each in list order, none skipped, and
   * after a failure nothing later. Every attempt but the last succeeded.
   */
  lemma {:induction false} PauseTraceIsPrefix(pause: PauseFn, state: PendingActivities, ids: seq<ActivityId>)
    ensures CalledIds(PauseTrace(pause, state, ids)) == ids[..|PauseTrace(pause, state, ids)|]
  {
    var trace := PauseTrace(pause, state, ids);
    var called := CalledIds(trace);
    PauseTraceFacts(pause, state, ids);
    assert |called| == |ids[..|trace|]|;
    forall i | 0 <= i < |trace|
      ensures called[i] == ids[..|trace|][i]
    {
    }
  }

  // ---------------------------------------------------------------------------
  // The update function
  // ---------------------------------------------------------------------------

  /** What the update function returns and leaves behind, with the calls it made. */
  datatype UpdateOutcome = UpdateOutcome(
    action: Option<UpdateWorkflowAction>,
    err: Option<Error>,
    state: PendingActivities,
    trace: seq<PauseStep>)

  /** The action returned when every pause succeeded: persist, and schedule no workflow task. */
  const PausedAction: UpdateWorkflowAction := UpdateWorkflowAction(noop := false, createWorkflowTask := false)

  /** The update function's outcome on `pending`, once resolution has produced `activityIds`. */
  function UpdateResult(pause: PauseFn, pending: PendingActivities, activityIds: seq<ActivityId>)
    : (r: UpdateOutcome)
    ensures r.err.Some? <==> r.action.None?
    ensures r.action.Some? ==> r.action.value == PausedAction
    ensures activityIds == [] ==> r.err == Some(ErrActivityNotFound) && r.trace == [] && r.state == pending
  {
    if activityIds == [] then UpdateOutcome(None, Some(ErrActivityNotFound), pending, [])
    else
      var trace := PauseTrace(pause, pending, activityIds);
      var err := LastError(trace);
      UpdateOutcome(if err.None? then Some(PausedAction) else None, err, FinalState(pending, trace), trace)
  }

  /**
   * The update function succeeds exactly when there was something to pause and every
   * pause succeeded; then each resolved ID was paused once, in list order.
   */
  lemma {:induction false} UpdateSucceedsIff(pause: PauseFn, pending: PendingActivities, activityIds: seq<ActivityId>)
    ensures UpdateResult(pause, pending, activityIds).err.None? <==>
      (activityIds != [] &&
       |UpdateResult(pause, pending, activityIds).trace| == |activityIds| &&
       forall i :: 0 <= i < |activityIds| ==> UpdateResult(pause, pending, activityIds).trace[i].outcome.err.None?)
    ensures UpdateResult(pause, pending, activityIds).err.None? ==>
      CalledIds(UpdateResult(pause, pending, activityIds).trace) == activityIds
  {
    var r := UpdateResult(pause, pending, activityIds);
    if activityIds != [] {
      PauseTraceIsPrefix(pause, pending, activityIds);
      PauseTraceFacts(pause, pending, activityIds);
      if r.err.None? {
        assert |r.trace| == |activityIds|;
      }
    }
  }

  /**
   * When some pause fails, the update function returns that call's error unchanged,
   * after calling PauseActivity on exactly the IDs up to and including the failing one,
   * all earlier calls having succeeded.
   */
  lemma {:induction false} UpdateStopsAtFirstError(pause: PauseFn, pending: PendingActivities, activityIds: seq<ActivityId>)
    requires activityIds != []
    requires UpdateResult(pause, pending, activityIds).err.Some?
    ensures var r := UpdateResult(pause, pending, activityIds);
      var k := |r.trace| - 1;
      0 <= k < |activityIds| &&
      CalledIds(r.trace) == activityIds[..k + 1] &&
      r.trace[k].outcome == pause(r.trace[k].before, activityIds[k]) &&
      r.err == r.trace[k].outcome.err &&
      r.state == r.trace[k].outcome.state &&
      forall i :: 0 <= i < k ==> r.trace[i].outcome.err.None?
  {
    PauseTraceIsPrefix(pause, pending, activityIds);
    PauseTraceFacts(pause, pending, activityIds);
  }

  /** The update function passed to the transaction (the closure of api.go). */
  method UpdatePause(
    mutableState: MutableState,
    frontendRequest: Option<Workflowservice.PauseActivityRequest>,
    pause: PauseFn)
    returns (action: Option<UpdateWorkflowAction>, err: Option<Error>,
             ghost activityIds: seq<ActivityId>, ghost trace: seq<PauseStep>)
    modifies mutableState
    ensures multiset(activityIds) ==
      ResolvedTargets(Workflowservice.GetActivity(frontendRequest), old(mutableState.pendingActivityInfos))
    ensures Workflowservice.GetActivity(frontendRequest).ById? ==>
      activityIds == [Workflowservice.GetActivity(frontendRequest).id]
    ensures UpdateOutcome(action, err, mutableState.pendingActivityInfos, trace) ==
      UpdateResult(pause, old(mutableState.pendingActivityInfos), activityIds)
  {
    var ids := ResolveActivityIds(mutableState, Workflowservice.GetActivity(frontendRequest));
    activityIds := ids;
    if |ids| == 0 {
      return None, Some(ErrActivityNotFound), activityIds, [];
    }
    ghost var start := mutableState.pendingActivityInfos;
    trace := [];
    var i := 0;
    while i < |ids|
      invariant 0 <= i <= |ids|
      invariant |trace| == i
      invariant PauseTrace(pause, start, ids) == trace + PauseTrace(pause, mutableState.pendingActivityInfos, ids[i..])
      invariant mutableState.pendingActivityInfos == FinalState(start, trace)
      invariant LastError(trace).None?
    {
      ghost var before := mutableState.pendingActivityInfos;
      PauseTraceAdvance(pause, start, ids, trace, before, i);
      var e := Workflow.PauseActivity(mutableState, ids[i], pause);
      trace := trace + [PauseStep(ids[i], before, pause(before, ids[i]))];
      if e.Some? {
        assert trace == PauseTrace(pause, start, ids);
        return None, e, activityIds, trace;
      }
      i := i + 1;
    }
    assert ids[i..] == [];
    assert trace == PauseTrace(pause, start, ids);
    return Some(PausedAction), None, activityIds, trace;
  }

  // ---------------------------------------------------------------------------
  // The transaction and the handler
  // ---------------------------------------------------------------------------

  /**
   * The error the transaction reports: the lease's error when the run cannot be
   * leased (the update function does not run), else the update function's error,
   * else nothing for a no-op action, else the outcome of persisting.
   */
  function TransactionError(env: TransactionEnv, key: WorkflowKey, update: Option<UpdateOutcome>)
    : (err: Option<Error>)
    requires env.acquire(key).None? <==> update.Some?
    ensures env.acquire(key).Some? ==> err == env.acquire(key)
    ensures update.Some? && update.value.err.Some? ==> err == update.value.err
    ensures err.None? ==> update.Some? && update.value.err.None?
  {
    if env.acquire(key).Some? then env.acquire(key)
    else if update.value.err.Some? then update.value.err
    else if update.value.action.None? || update.value.action.value.noop then None
    else env.commit(key, update.value.state, update.value.action.value)
  }

  /**
   * api.GetAndUpdateWorkflowWithNew applied to this handler's update function; its
   * own source is not part of this model, so the lease and persistence outcomes
   * come from `env`.
   */
  method GetAndUpdateWorkflowWithNew(
    call: TransactionCall,
    env: TransactionEnv,
    mutableState: MutableState,
    frontendRequest: Option<Workflowservice.PauseActivityRequest>,
    pause: PauseFn)
    returns (err: Option<Error>, ghost activityIds: seq<ActivityId>, ghost update: Option<UpdateOutcome>)
    modifies mutableState
    ensures env.acquire(call.key).Some? <==> update.None?
    ensures update.None? ==> mutableState.pendingActivityInfos == old(mutableState.pendingActivityInfos)
    ensures update.Some? ==>
      multiset(activityIds) ==
        ResolvedTargets(Workflowservice.GetActivity(frontendRequest), old(mutableState.pendingActivityInfos)) &&
      (Workflowservice.GetActivity(frontendRequest).ById? ==>
        activityIds == [Workflowservice.GetActivity(frontendRequest).id]) &&
      update.value == UpdateResult(pause, old(mutableState.pendingActivityInfos), activityIds) &&
      mutableState.pendingActivityInfos == update.value.state
    ensures err == TransactionError(env, call.key, update)
  {
    var leaseErr := env.acquire(call.key);
    if leaseErr.Some? {
      return leaseErr, [], None;
    }
    var action, updateErr, ids, trace := UpdatePause(mutableState, frontendRequest, pause);
    activityIds := ids;
    update := Some(UpdateOutcome(action, updateErr, mutableState.pendingActivityInfos, trace));
    if updateErr.Some? {
      return updateErr, activityIds, update;
    }
    if action.value.noop {
      return None, activityIds, update;
    }
    err := env.commit(call.key, mutableState.pendingActivityInfos, action.value);
  }

  /** The transaction arguments Invoke passes: no clock, the request's run, no new run. */
  function InvokeCall(request: Historyservice.PauseActivityRequest): (call: TransactionCall)
    ensures call.reqClock.None? && call.newWorkflow.None?
    ensures request.frontendRequest.Some? && request.frontendRequest.value.execution.Some? ==>
      call.key == WorkflowKey(request.namespaceId,
                              request.frontendRequest.value.execution.value.workflowId,
                              request.frontendRequest.value.execution.value.runId)
    ensures request.frontendRequest.None? || request.frontendRequest.value.execution.None? ==>
      call.key == WorkflowKey(request.namespaceId, "", "")
  {
    var execution := Workflowservice.GetExecution(request.frontendRequest);
    TransactionCall(
      None,
      NewWorkflowKey(request.namespaceId, Workflowservice.GetWorkflowId(execution), Workflowservice.GetRunId(execution)),
      None)
  }

  /** Handles a PauseActivity request against the run's mutable state. */
  method Invoke(
    request: Historyservice.PauseActivityRequest,
    mutableState: MutableState,
    pause: PauseFn,
    env: TransactionEnv)
    returns (resp: Option<Historyservice.PauseActivityResponse>, err: Option<Error>,
             ghost activityIds: seq<ActivityId>, ghost update: Option<UpdateOutcome>)
    modifies mutableState
    ensures env.acquire(InvokeCall(request).key).Some? <==> update.None?
    ensures update.Some? ==>
      multiset(activityIds) ==
        ResolvedTargets(Workflowservice.GetActivity(request.frontendRequest), old(mutableState.pendingActivityInfos)) &&
      update.value == UpdateResult(pause, old(mutableState.pendingActivityInfos), activityIds) &&
      mutableState.pendingActivityInfos == update.value.state
    ensures update.None? ==> mutableState.pendingActivityInfos == old(mutableState.pendingActivityInfos)
    ensures err == TransactionError(env, InvokeCall(request).key, update)
    ensures resp.None? <==> err.Some?
    ensures resp.Some? ==> resp.value == Historyservice.PauseActivityResponse
  {
    var txErr;
    txErr, activityIds, update :=
      GetAndUpdateWorkflowWithNew(InvokeCall(request), env, mutableState, request.frontendRequest, pause);
    if txErr.Some? {
      return None, txErr, activityIds, update;
    }
    return Some(Historyservice.PauseActivityResponse), None, activityIds, update;
  }

  /**
   * A successful Invoke paused every resolved target exactly once and no other
   * activity: for a type selector, every pending activity of that type.
   */
  lemma {:induction false} InvokeSuccessPausedAllTargets(
    env: TransactionEnv, key: WorkflowKey, pause: PauseFn,
    selector: Workflowservice.ActivitySelector, pending: PendingActivities, activityIds: seq<ActivityId>)
    requires env.acquire(key).None?
    requires multiset(activityIds) == ResolvedTargets(selector, pending)
    requires TransactionError(env, key, Some(UpdateResult(pause, pending, activityIds))).None?
    ensures ResolvedTargets(selector, pending) != multiset{}
    ensures multiset(CalledIds(UpdateResult(pause, pending, activityIds).trace)) == ResolvedTargets(selector, pending)
    ensures forall i :: 0 <= i < |activityIds| ==> UpdateResult(pause, pending, activityIds).trace[i].outcome.err.None?
  {
    UpdateSucceedsIff(pause, pending, activityIds);
  }

  /** An Invoke whose selector resolves to nothing fails with ActivityNotFound once the lease is held, pausing nothing. */
  lemma InvokeNothingResolvedIsNotFound(
    env: TransactionEnv, key: WorkflowKey, pause: PauseFn,
    selector: Workflowservice.ActivitySelector, pending: PendingActivities, activityIds: seq<ActivityId>)
    requires env.acquire(key).None?
    requires multiset(activityIds) == ResolvedTargets(selector, pending)
    requires selector.NoActivity? ||
      (selector.ByType? && forall id :: id in pending ==> pending[id].activityType.name != selector.typeName)
    ensures TransactionError(env, key, Some(UpdateResult(pause, pending, activityIds))) == Some(ErrActivityNotFound)
    ensures UpdateResult(pause, pending, activityIds).trace == []
    ensures UpdateResult(pause, pending, activityIds).state == pending
  {
  }

  /**
   * A request without a frontend message selects nothing: once the lease is held the
   * handler fails with ActivityNotFound, calls PauseActivity on nothing and leaves the
   * state as it was.
   */
  lemma InvokeMissingFrontendRequestIsNotFound(
    env: TransactionEnv, pause: PauseFn, request: Historyservice.PauseActivityRequest,
    pending: PendingActivities, activityIds: seq<ActivityId>)
    requires request.frontendRequest.None?
    requires env.acquire(InvokeCall(request).key).None?
    requires multiset(activityIds) == ResolvedTargets(Workflowservice.GetActivity(request.frontendRequest), pending)
    ensures InvokeCall(request).key == WorkflowKey(request.namespaceId, "", "")
    ensures TransactionError(env, InvokeCall(request).key, Some(UpdateResult(pause, pending, activityIds)))
      == Some(ErrActivityNotFound)
    ensures UpdateResult(pause, pending, activityIds).trace == []
    ensures UpdateResult(pause, pending, activityIds).state == pending
  {
    assert |multiset(activityIds)| == 0;
  }
}
