/** The frontend's PauseActivity request, as the history service receives it. */
module Workflowservice {
  import opened Wrappers

  datatype WorkflowExecution = WorkflowExecution(workflowId: string, runId: string)

  /** The request's `activity` oneof: an explicit activity ID, an activity type name, or unset. */
  datatype ActivitySelector = NoActivity | ById(id: string) | ByType(typeName: string)

  datatype PauseActivityRequest = PauseActivityRequest(
    execution: Option<WorkflowExecution>,
    activity: ActivitySelector)

  // Protobuf getters are nil-safe: on a missing message they yield the zero value.

  function GetExecution(request: Option<PauseActivityRequest>): (execution: Option<WorkflowExecution>)
    ensures request.None? ==> execution.None?
    ensures request.Some? ==> execution == request.value.execution
  {
    if request.Some? then request.value.execution else None
  }

  function GetWorkflowId(execution: Option<WorkflowExecution>): (workflowId: string)
    ensures execution.None? ==> workflowId == ""
    ensures execution.Some? ==> workflowId == execution.value.workflowId
  {
    if execution.Some? then execution.value.workflowId else ""
  }

  function GetRunId(execution: Option<WorkflowExecution>): (runId: string)
    ensures execution.None? ==> runId == ""
    ensures execution.Some? ==> runId == execution.value.runId
  {
    if execution.Some? then execution.value.runId else ""
  }

  function GetActivity(request: Option<PauseActivityRequest>): (activity: ActivitySelector)
    ensures request.None? ==> activity.NoActivity?
    ensures request.Some? ==> activity == request.value.activity
  {
    if request.Some? then request.value.activity else NoActivity
  }
}
