/**
 * The status a sourcing request is shown and counted with, shared by the
 * sales dashboard and the sourcing list: the status of the request's first
 * task when it has one, else the request's own status.
 */
module SourcingStatus {
  import opened Js
  import opened Optional

  /** `req.sourcing_tasks?.[0]?.status || req.status`; a missing or empty
      task status falls back to the request's. */
  function EffectiveStatus(firstTaskStatus: Option<string>, requestStatus: string): (r: string)
    ensures firstTaskStatus.Some? && firstTaskStatus.value != "" ==> r == firstTaskStatus.value
    ensures firstTaskStatus.None? || firstTaskStatus.value == "" ==> r == requestStatus
  {
    if firstTaskStatus.Some? then OrElse(firstTaskStatus.value, requestStatus) else requestStatus
  }
}
