/** Failure values for the exceptions the scheduler's core throws, and the
    wrappers that carry them. */
module Outcomes {

  /** Why an operation failed, named after its cause in the source. */
  datatype Error =
    | OutOfRange         // Priority's range check in its init block
    | IllegalTransition  // State.succeededBy on an event the state does not accept
    | InvalidOperation   // needWaiting() on a basic task; Preempt before any job was launched
    | InvalidState       // Scheduler.offer of a task that is not Ready, Suspended or Waiting
    | Corrupted          // Scheduler.pop took a task that is not Ready
    | Empty              // TasksQueue.pop or maxPriority on an empty queue

  datatype Result<+T> = Ok(value: T) | Err(error: Error)

  datatype Option<+T> = None | Some(value: T)
}
