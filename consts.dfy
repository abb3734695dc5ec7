/**
 * Errors that cross the history service's API boundary. The handler itself raises
 * only ActivityNotFound; the others are the kinds its collaborators (the lease, the
 * persistence step, the per-activity pause) may return through `env` and `pause`.
 */
module Consts {
  datatype Error =
    | ActivityNotFound                 // the selector matched no pending activity
    | NotFound                         // the run does not exist
    | ShardOwnershipLost               // the shard's fencing token is stale
    | ConcurrentUpdate                 // the optimistic-concurrency precondition failed
    | InvalidArgument(message: string) // e.g. an activity in a state that cannot be paused

  /** consts.ErrActivityNotFound */
  const ErrActivityNotFound: Error := ActivityNotFound
}
