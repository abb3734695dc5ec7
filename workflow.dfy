/**
 * The slice of a run's mutable state that pausing activities touches, and the
 * per-activity pause operation, whose implementation is not part of this model.
 */
module Workflow {
  import opened Wrappers
  import opened Consts

  type ActivityId = string

  datatype ActivityType = ActivityType(name: string)

  datatype ActivityInfo = ActivityInfo(activityType: ActivityType)

  /** Pending activities, keyed by activity ID. */
  type PendingActivities = map<ActivityId, ActivityInfo>

  /** What one call of workflow.PauseActivity leaves behind: the state it produced and its error. */
  datatype PauseOutcome = PauseOutcome(state: PendingActivities, err: Option<Error>)

  /**
   * workflow.PauseActivity, left uninterpreted: any deterministic effect on the
   * pending activities, successful or not. Nothing is assumed about what a failing
   * call leaves in the state.
   */
  type PauseFn = (PendingActivities, ActivityId) -> PauseOutcome

  class MutableState {
    var pendingActivityInfos: PendingActivities

    constructor (pending: PendingActivities)
      ensures pendingActivityInfos == pending
    {
      pendingActivityInfos := pending;
    }

    /** The pending activities, as held: same IDs, same records. */
    function GetPendingActivityInfos(): (pending: PendingActivities)
      reads this
      ensures pending.Keys == pendingActivityInfos.Keys
      ensures forall id :: id in pending ==> pending[id] == pendingActivityInfos[id]
    {
      pendingActivityInfos
    }
  }

  /** Pauses one activity of `mutableState` in place, by way of the collaborator `pause`. */
  method PauseActivity(mutableState: MutableState, activityId: ActivityId, pause: PauseFn)
    returns (err: Option<Error>)
    modifies mutableState
    ensures mutableState.pendingActivityInfos == pause(old(mutableState.pendingActivityInfos), activityId).state
    ensures err == pause(old(mutableState.pendingActivityInfos), activityId).err
  {
    var outcome := pause(mutableState.pendingActivityInfos, activityId);
    mutableState.pendingActivityInfos := outcome.state;
    err := outcome.err;
  }
}
