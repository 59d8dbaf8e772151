/** Task and attempt statuses and their transition tables (domain/tasks.py). */
module Tasks {
  import opened Prelude

  datatype TaskStatus =
    | Proposed | Queued | Running | Succeeded | Failed
    | ReturnedToLead | Blocked | BudgetBlocked | Cancelled
  {
    predicate Terminal() {
      Succeeded? || ReturnedToLead? || Blocked? || BudgetBlocked? || Cancelled?
    }
  }

  datatype AttemptStatus =
    | AttemptAssigned | AttemptRunning | AttemptSucceeded | AttemptFailed
    | AttemptBlocked | AttemptCancelled | AttemptInterrupted

  datatype TransitionError = IllegalTransition | SecondAttemptRequeue

  function Targets(current: TaskStatus): set<TaskStatus> {
    match current
    case Proposed => {Queued, Blocked}
    case Queued => {Running, Blocked, Cancelled}
    case Running => {Succeeded, Failed, ReturnedToLead, Blocked, BudgetBlocked, Cancelled}
    case Failed => {Queued, ReturnedToLead}
    case _ => {}
  }

  function TransitionTask(current: TaskStatus, target: TaskStatus, attemptNumber: int)
    : Result<TaskStatus, TransitionError>
  {
    if current == target && current.Terminal() then Ok(current)
    else if target !in Targets(current) then Err(IllegalTransition)
    else if current == Failed && target == Queued && attemptNumber != 1 then Err(SecondAttemptRequeue)
    else Ok(target)
  }

  /** Where a status is reached from. */
  predicate Precedes(current: TaskStatus, target: TaskStatus, attemptNumber: int) {
    match target
    case Proposed => false
    case Queued => current == Proposed || (current == Failed && attemptNumber == 1)
    case Running => current == Queued
    case Succeeded => current == Running
    case Failed => current == Running
    case ReturnedToLead => current == Running || current == Failed
    case Blocked => current == Proposed || current == Queued || current == Running
    case BudgetBlocked => current == Running
    case Cancelled => current == Queued || current == Running
  }

  /** A transition is accepted exactly from a status that precedes its target, or into the status where
      the task has already ended. */
  lemma {:induction false} TransitionsExactly(current: TaskStatus, target: TaskStatus, attemptNumber: int)
    ensures TransitionTask(current, target, attemptNumber).Ok? <==>
      || Precedes(current, target, attemptNumber)
      || (current == target && current in {Succeeded, ReturnedToLead, Blocked, BudgetBlocked, Cancelled})
    ensures TransitionTask(current, target, attemptNumber).Ok? ==> TransitionTask(current, target, attemptNumber).value == target
  {
  }
}
