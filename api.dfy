/**
 * The vocabulary of the update-transaction primitive (api.GetAndUpdateWorkflowWithNew):
 * the action an update function returns and the collaborators the primitive consults.
 */
module Api {
  import opened Wrappers
  import opened Consts
  import opened Definition
  import opened Workflow

  /** What an update function asks of the transaction: skip persistence, or also schedule a workflow task. */
  datatype UpdateWorkflowAction = UpdateWorkflowAction(noop: bool, createWorkflowTask: bool)

  /**
   * The request's consistency token, the primitive's optional leading argument. The
   * handler always passes none, so its fields are never read here.
   */
  datatype VectorClock = VectorClock(shardId: int, clock: int, clusterId: int)

  /** A request to continue into a new run, the primitive's optional trailing argument. */
  datatype NewWorkflow = NewWorkflow(runId: string)

  /** The arguments a caller hands to the primitive besides its update function. */
  datatype TransactionCall = TransactionCall(
    reqClock: Option<VectorClock>,
    key: WorkflowKey,
    newWorkflow: Option<NewWorkflow>)

  /**
   * The outcomes of what the primitive itself does and this model does not see:
   * acquiring the run's lease, and persisting the mutated state with the action.
   */
  datatype TransactionEnv = TransactionEnv(
    acquire: WorkflowKey -> Option<Error>,
    commit: (WorkflowKey, PendingActivities, UpdateWorkflowAction) -> Option<Error>)
}
