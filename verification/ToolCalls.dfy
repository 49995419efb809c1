/** The states of tool calls and of the queue items that carry them to a worker. */
module ToolCalls {

  datatype CallStatus =
    | Planned | PendingApproval | Leased | RunningPreEffect | EffectSent | Uncertain | Reconciling
    | Succeeded | Failed | FailedRetryable | Obsolete | NeedsMigration | ManualIntervention

  datatype QueueStatus = Queued | LeasedItem | BlockedApproval | FailedItem | CompletedItem
}
