/** Identity of one workflow run. */
module Definition {
  datatype WorkflowKey = WorkflowKey(namespaceId: string, workflowId: string, runId: string)

  /** The key of the run (namespaceId, workflowId, runId), each component kept as given. */
  function NewWorkflowKey(namespaceId: string, workflowId: string, runId: string): (key: WorkflowKey)
    ensures key.namespaceId == namespaceId && key.workflowId == workflowId && key.runId == runId
  {
    WorkflowKey(namespaceId, workflowId, runId)
  }
}
