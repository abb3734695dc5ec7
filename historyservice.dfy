/** The history service's PauseActivity request and response. */
module Historyservice {
  import opened Wrappers
  import Workflowservice

  datatype PauseActivityRequest = PauseActivityRequest(
    namespaceId: string,
    frontendRequest: Option<Workflowservice.PauseActivityRequest>)

  /** The response carries no fields. */
  datatype PauseActivityResponse = PauseActivityResponse
}
