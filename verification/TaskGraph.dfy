/** The two-attempt life of a task (agents/task_graph.py): assign, run, evaluate, and once more after a
    failure, over the registry of tasks. */
module TaskGraphs {
  import opened Prelude
  import opened Tasks
  import opened TaskRegistries
  import opened Selector
  import F = Floors

  datatype ResultStatus = Done | Failure | Obstructed | Withdrawn | OutOfBudget | Returned

  datatype Category = ProviderError | TaskFailure | BudgetBlockedCategory | RoutingIneligible | OtherCategory

  datatype AttemptSummary = AttemptSummary(attempt: Id, number: int, status: AttemptStatus, model: Key)

  datatype FailureReason = FailureReason(attempt: Id, category: Category)

  datatype TaskResult = TaskResult(
    status: ResultStatus, category: Option<Category>, attempts: seq<AttemptSummary>, failures: seq<FailureReason>)

  /** What `assign` returns for an attempt. */
  datatype AssignReply =
    | Bound(attempt: Id, task: Id, number: int, model: Key, floor: Option<int>)
    | NoRoute(constraint: Option<Reason>)

  /** How `execute` ends. */
  datatype ExecuteReply = Answered(task: Id, status: ResultStatus, category: Option<Category>) | ProviderRaised | OtherRaised

  datatype GraphError = AssignmentMismatch | FloorNotRaised | IdentityMismatch

  function AttemptStatusOf(status: ResultStatus): AttemptStatus {
    match status
    case Done => AttemptSucceeded
    case Failure => AttemptFailed
    case Withdrawn => AttemptCancelled
    case Obstructed => AttemptBlocked
    case OutOfBudget => AttemptBlocked
    case Returned => AttemptFailed
  }

  function TaskStatusOf(status: ResultStatus, number: int): TaskStatus {
    match status
    case Done => Succeeded
    case Failure => if number == 2 then ReturnedToLead else Failed
    case Withdrawn => Cancelled
    case Obstructed => Blocked
    case OutOfBudget => BudgetBlocked
    case Returned => ReturnedToLead
  }

  /** The status of the result when `assign` found no route. */
  function RefusedStatus(reply: AssignReply): ResultStatus
    requires reply.NoRoute?
  {
    if reply.constraint == Some(BudgetUnaffordable) then OutOfBudget else Obstructed
  }

  /** How the registry leaves a task, by the last reply of `assign` and the status of the result. A
      queued task that finds no route can only be moved to blocked. */
  function FinalStatus(last: AssignReply, status: ResultStatus): TaskStatus {
    if last.NoRoute? then Blocked else TaskStatusOf(status, 2)
  }

  lemma {:induction false} EndsAs(status: ResultStatus, number: int)
    ensures !(status.Failure? && number != 2) ==>
      && TaskStatusOf(if status.Failure? then Returned else status, 2) == TaskStatusOf(status, number)
      && TaskStatusOf(status, number).Terminal()
  {
  }

  /** The category that `evaluate` supplies for a result without one. */
  function Categorized(status: ResultStatus, category: Option<Category>): Option<Category> {
    if status.Failure? && category.None? then Some(TaskFailure)
    else if status.OutOfBudget? && category.None? then Some(BudgetBlockedCategory)
    else category
  }

  /** What came of an execution: an exception counts as a failure. */
  function Came(reply: ExecuteReply): ResultStatus {
    if reply.Answered? then reply.status else Failure
  }

  /** Why: what the answer says, or else what its status or the exception implies. */
  function Explained(reply: ExecuteReply): Option<Category> {
    match reply
    case Answered(_, _, Some(category)) => Some(category)
    case Answered(_, Failure, None) => Some(TaskFailure)
    case Answered(_, OutOfBudget, None) => Some(BudgetBlockedCategory)
    case Answered(_, _, None) => None
    case ProviderRaised => Some(ProviderError)
    case OtherRaised => Some(TaskFailure)
  }

  /** The attempt is recorded as it came: done, withdrawn, held up, or else failed. */
  predicate Summarizes(attempt: AttemptStatus, came: ResultStatus) {
    && (attempt == AttemptSucceeded <==> came == Done)
    && (attempt == AttemptCancelled <==> came == Withdrawn)
    && (attempt == AttemptBlocked <==> came in {Obstructed, OutOfBudget})
    && (attempt == AttemptFailed <==> came in {Failure, Returned})
  }

  /** A reason for each attempt that did not succeed, where there is one. */
  ghost function ReasonsFor(attempts: seq<AttemptSummary>, execute: int -> ExecuteReply): seq<FailureReason> {
    if attempts == [] then []
    else
      var last, reply := attempts[|attempts| - 1], execute(|attempts|);
      ReasonsFor(attempts[..|attempts| - 1], execute)
      + if Came(reply) != Done && Explained(reply).Some? then [FailureReason(last.attempt, Explained(reply).value)] else []
  }

  function AttemptIds(attempts: seq<AttemptSummary>): (ids: seq<Id>)
    ensures |ids| == |attempts| && forall i :: 0 <= i < |attempts| ==> ids[i] == attempts[i].attempt
  {
    seq(|attempts|, i requires 0 <= i < |attempts| => attempts[i].attempt)
  }

  /** The attempts are numbered in order, recorded as they came, with their reasons, and settled. */
  ghost predicate Recorded(attempts: seq<AttemptSummary>, failures: seq<FailureReason>, settled: seq<Id>, execute: int -> ExecuteReply) {
    && settled == AttemptIds(attempts)
    && (forall i :: 0 <= i < |attempts| ==> attempts[i].number == i + 1 && Summarizes(attempts[i].status, Came(execute(i + 1))))
    && failures == ReasonsFor(attempts, execute)
  }

  lemma {:induction false} RecordsAnother(attempts: seq<AttemptSummary>, failures: seq<FailureReason>, settled: seq<Id>,
                                          execute: int -> ExecuteReply, last: AttemptSummary, status: ResultStatus,
                                          category: Option<Category>, more: seq<FailureReason>)
    requires Recorded(attempts, failures, settled, execute) && last.number == |attempts| + 1
    requires status == Came(execute(last.number)) && category == Explained(execute(last.number)) && last.status == AttemptStatusOf(status)
    requires more == if category.Some? && !status.Done? then failures + [FailureReason(last.attempt, category.value)] else failures
    ensures Recorded(attempts + [last], more, settled + [last.attempt], execute)
  {
    StatusSummarizes(status);
    IdsAppend(attempts, last);
    assert (attempts + [last])[..|attempts|] == attempts;
    hide AttemptIds, Summarizes, AttemptStatusOf, Came, Explained;
  }

  lemma {:induction false} StatusSummarizes(came: ResultStatus)
    ensures Summarizes(AttemptStatusOf(came), came)
  {
  }

  lemma {:induction false} IdsAppend(attempts: seq<AttemptSummary>, last: AttemptSummary)
    ensures AttemptIds(attempts + [last]) == AttemptIds(attempts) + [last.attempt]
  {
  }

  /** The result of a refused assignment, or of the last execution. */
  ghost predicate Results(result: TaskResult, last: AssignReply, reply: ExecuteReply) {
    && !result.status.Failure?
    && (last.NoRoute? ==>
          && result.status == RefusedStatus(last)
          && result.category == Some(if result.status.OutOfBudget? then BudgetBlockedCategory else RoutingIneligible))
    && (last.Bound? ==>
          && result.status == (if Came(reply).Failure? then Returned else Came(reply))
          && result.category == Explained(reply))
  }

  lemma {:induction false} ResultsBound(result: TaskResult, last: AssignReply, reply: ExecuteReply, status: ResultStatus)
    requires last.Bound? && status == Came(reply) && result.status == (if status.Failure? then Returned else status)
    requires result.category == Explained(reply)
    ensures Results(result, last, reply)
  {
  }

  /** At most two attempts, the second after a failure of the first and with its model among those that
      `assign` was told to avoid. */
  ghost predicate Course(number: int, excluded: seq<Key>, assignment: Option<AssignReply>, attempts: seq<AttemptSummary>,
                         assign: (int, seq<Key>) -> AssignReply, execute: int -> ExecuteReply) {
    && (number == 1 || number == 2) && number - 1 <= |attempts| <= number
    && (number == 1 ==> excluded == [])
    && (number == 2 ==>
          && assign(1, []).Bound? && excluded == [assign(1, []).model] && assignment.Some? && assignment.value.Bound?
          && attempts[0].status.AttemptFailed? && attempts[0].model == assign(1, []).model && Came(execute(1)).Failure?)
    && (|attempts| == 2 ==> assign(2, excluded).Bound? && attempts[1].model == assign(2, excluded).model)
  }

  lemma {:induction false} CourseContinues(number: int, excluded: seq<Key>, assignment: Option<AssignReply>, attempts: seq<AttemptSummary>,
                                           assign: (int, seq<Key>) -> AssignReply, execute: int -> ExecuteReply, last: AttemptSummary)
    requires Course(number, excluded, assignment, attempts, assign, execute) && |attempts| == number - 1
    requires assignment == Some(assign(number, excluded)) && assign(number, excluded).Bound?
    requires last.model == assign(number, excluded).model
    ensures Course(number, excluded, assignment, attempts + [last], assign, execute)
  {
    hide Came;
  }

  lemma {:induction false} CourseTurns(assignment: Option<AssignReply>, assign: (int, seq<Key>) -> AssignReply, execute: int -> ExecuteReply,
                                       last: AttemptSummary)
    requires assignment == Some(assign(1, [])) && assign(1, []).Bound? && Came(execute(1)).Failure?
    requires last.model == assign(1, []).model && last.status.AttemptFailed?
    ensures Course(2, [assign(1, []).model], assignment, [last], assign, execute)
  {
    hide Came;
  }

  /** What an evaluation that ends the task leaves. */
  lemma {:induction false} Concludes(start: Registry, task: Id, attempts: seq<AttemptSummary>, failures: seq<FailureReason>, settled: seq<Id>,
                                     execute: int -> ExecuteReply, last: AttemptSummary, more: seq<FailureReason>, status: ResultStatus,
                                     supplied: Option<Category>, bound: AssignReply, reply: ExecuteReply, result: TaskResult)
    requires task in start.tasks && Recorded(attempts, failures, settled, execute) && last.number == |attempts| + 1
    requires reply == execute(last.number) && status == Came(reply) && Categorized(status, supplied) == Explained(reply)
    requires last.status == AttemptStatusOf(status) && !(status.Failure? && last.number != 2) && bound.Bound?
    requires var category := Categorized(status, supplied);
      more == if category.Some? && !status.Done? then failures + [FailureReason(last.attempt, category.value)] else failures
    requires result.status == (if status.Failure? then Returned else status) && result.category == Categorized(status, supplied)
    ensures Recorded(attempts + [last], more, settled + [last.attempt], execute) && Results(result, bound, reply)
    ensures var final := TaskStatusOf(status, last.number);
      && final.Terminal() && final == FinalStatus(bound, result.status)
      && Moved(Moved(start, task, Running), task, final) == Moved(start, task, final)
  {
    hide Recorded, Moved, Categorized, Explained, AttemptStatusOf, Came;
    MovedAgain(start, task, Running, TaskStatusOf(status, last.number));
    EndsAs(status, last.number);
    RecordsAnother(attempts, failures, settled, execute, last, status, Categorized(status, supplied), more);
    ResultsBound(result, bound, reply, status);
  }

  /** The registry with one task in another status. */
  ghost function Moved(r: Registry, task: Id, status: TaskStatus): Registry
    requires task in r.tasks
  {
    r.(tasks := r.tasks[task := r.tasks[task].(status := status)])
  }

  lemma {:induction false} MovedAgain(r: Registry, task: Id, first: TaskStatus, second: TaskStatus)
    requires task in r.tasks
    ensures Moved(Moved(r, task, first), task, second) == Moved(r, task, second)
    ensures first == r.tasks[task].status ==> Moved(r, task, first) == r
  {
    var moved := Moved(Moved(r, task, first), task, second);
    assert moved.tasks == Moved(r, task, second).tasks;
    assert r.tasks[task := r.tasks[task]] == r.tasks;
  }

  class TaskGraph {
    const registry: TaskRegistry
    const task: Id
    var number: int
    var excluded: seq<Key>
    var assignment: Option<AssignReply>
    var attempts: seq<AttemptSummary>
    var failures: seq<FailureReason>
    var result: Option<TaskResult>

    /** What the callbacks were told. */
    var settled: seq<Id>
    var persisted: seq<TaskResult>
    var exhausted: nat

    constructor (registry: TaskRegistry, task: Id)
      ensures this.registry == registry && this.task == task
      ensures number == 1 && excluded == [] && assignment.None? && attempts == [] && failures == [] && result.None?
      ensures settled == [] && persisted == [] && exhausted == 0
    {
      this.registry, this.task := registry, task;
      number, excluded, assignment, attempts, failures, result := 1, [], None, [], [], None;
      settled, persisted, exhausted := [], [], 0;
    }

    /** The registry accepts every transition that the graph asks for: it is legal, and the task has
        the status that is expected. */
    method Transition(expected: TaskStatus, target: TaskStatus, attemptNumber: int)
      requires task in registry.tasks && registry.tasks[task].status == expected && !expected.Terminal()
      requires TransitionTask(expected, target, attemptNumber) == Ok(target)
      modifies registry
      ensures registry.State() == Moved(old(registry.State()), task, target)
    {
      var fault := registry.Transition(task, expected, target, attemptNumber);
      assert fault.None?;
    }

    method AssignAttempt(reply: AssignReply) returns (error: Option<GraphError>)
      requires task in registry.tasks && registry.tasks[task].status == Queued && result.None?
      requires number == 1 || (number == 2 && assignment.Some? && assignment.value.Bound?)
      modifies this, registry
      ensures number == old(number) && excluded == old(excluded) && attempts == old(attempts) && failures == old(failures)
      ensures settled == old(settled) && exhausted == old(exhausted)
      ensures error.Some? ==>
        && registry.State() == old(registry.State()) && persisted == old(persisted) && assignment == old(assignment)
        && reply.Bound?
        && (if reply.task != task || reply.number != number then error.value == AssignmentMismatch
            else error.value == FloorNotRaised && number == 2 && !F.Raised(old(assignment).value.floor, reply.floor))
      ensures error.None? && reply.NoRoute? ==>
        && registry.State() == Moved(old(registry.State()), task, Blocked) && assignment == old(assignment)
        && result.Some? && persisted == old(persisted) + [result.value]
        && result.value.attempts == attempts && result.value.failures == failures
        && result.value.status == (if reply.constraint == Some(BudgetUnaffordable) then OutOfBudget else Obstructed)
        && result.value.category == Some(if result.value.status.OutOfBudget? then BudgetBlockedCategory else RoutingIneligible)
      ensures error.None? && reply.Bound? ==>
        && registry.State() == old(registry.State()) && persisted == old(persisted)
        && result.None? && assignment == Some(reply) && reply.task == task && reply.number == number
    {
      if reply.NoRoute? {
        var blocked := reply.constraint == Some(BudgetUnaffordable);
        Transition(Queued, Blocked, number);
        error := None;
        var last := TaskResult(
          if blocked then OutOfBudget else Obstructed,
          Some(if blocked then BudgetBlockedCategory else RoutingIneligible), attempts, failures);
        result, persisted := Some(last), persisted + [last];
        return;
      }
      if reply.task != task || reply.number != number {
        return Some(AssignmentMismatch);
      }
      if number == 2 {
        var required := F.EscalationFloor(assignment.value.floor);
        if required.Some? && reply.floor.Some? && reply.floor.value < required.value {
          return Some(FloorNotRaised);
        }
      }
      assignment := Some(reply);
      error := None;
    }

    method RunAttempt(reply: ExecuteReply) returns (status: ResultStatus, category: Option<Category>, error: Option<GraphError>)
      requires task in registry.tasks && registry.tasks[task].status == Queued
      modifies registry
      ensures registry.State() == Moved(old(registry.State()), task, Running)
      ensures error.Some? <==> reply.Answered? && reply.task != task
      ensures error.Some? ==> error.value == IdentityMismatch
      ensures error.None? ==> status == Came(reply) && Categorized(status, category) == Explained(reply)
    {
      Transition(Queued, Running, number);
      error := None;
      match reply
      case Answered(answered, s, c) =>
        status, category := s, c;
        if answered != task {
          error := Some(IdentityMismatch);
        }
      case ProviderRaised => status, category := Failure, Some(ProviderError);
      case OtherRaised => status, category := Failure, Some(TaskFailure);
    }

    /** Adds an attempt to the record and settles it. */
    method RecordAttempt(status: ResultStatus, supplied: Option<Category>)
      requires assignment.Some? && assignment.value.Bound?
      modifies this`attempts, this`failures, this`settled
      ensures attempts == old(attempts) + [AttemptSummary(assignment.value.attempt, number, AttemptStatusOf(status), assignment.value.model)]
      ensures settled == old(settled) + [assignment.value.attempt]
      ensures var category := Categorized(status, supplied);
        failures == if category.Some? && !status.Done? then old(failures) + [FailureReason(assignment.value.attempt, category.value)]
                    else old(failures)
    {
      var bound := assignment.value;
      var category := Categorized(status, supplied);
      attempts := attempts + [AttemptSummary(bound.attempt, number, AttemptStatusOf(status), bound.model)];
      if category.Some? && !status.Done? {
        failures := failures + [FailureReason(bound.attempt, category.value)];
      }
      settled := settled + [bound.attempt];
    }

    /** The end of the task, with one persisted result. */
    method Finish(status: ResultStatus, supplied: Option<Category>)
      requires task in registry.tasks && registry.tasks[task].status == Running
      requires (number == 1 && !status.Failure?) || number == 2
      modifies this`result, this`persisted, this`exhausted, registry
      ensures registry.State() == Moved(old(registry.State()), task, TaskStatusOf(status, number))
      ensures result.Some? && persisted == old(persisted) + [result.value]
      ensures result.value.attempts == attempts && result.value.failures == failures
      ensures result.value.status == if status.Failure? then Returned else status
      ensures result.value.category == Categorized(status, supplied)
      ensures exhausted == old(exhausted) + if result.value.status.Returned? then 1 else 0
    {
      Transition(Running, TaskStatusOf(status, number), number);
      var last := TaskResult(if status.Failure? then Returned else status, Categorized(status, supplied), attempts, failures);
      result, persisted := Some(last), persisted + [last];
      if last.status.Returned? {
        exhausted := exhausted + 1;
      }
    }

    /** Ends the task, or queues it for its second attempt. */
    method Evaluate(status: ResultStatus, supplied: Option<Category>)
      requires task in registry.tasks && registry.tasks[task].status == Running
      requires (number == 1 || number == 2) && assignment.Some? && assignment.value.Bound?
      modifies this, registry
      ensures assignment == old(assignment)
      ensures attempts == old(attempts) + [AttemptSummary(assignment.value.attempt, old(number), AttemptStatusOf(status), assignment.value.model)]
      ensures settled == old(settled) + [assignment.value.attempt]
      ensures var category := Categorized(status, supplied);
        failures == if category.Some? && !status.Done? then old(failures) + [FailureReason(assignment.value.attempt, category.value)]
                    else old(failures)
      ensures status.Failure? && old(number) == 1 ==>
        && registry.State() == Moved(old(registry.State()), task, Queued)
        && number == 2 && excluded == [assignment.value.model] && result.None?
        && persisted == old(persisted) && exhausted == old(exhausted)
      ensures !(status.Failure? && old(number) == 1) ==>
        && registry.State() == Moved(old(registry.State()), task, TaskStatusOf(status, old(number)))
        && number == old(number) && excluded == old(excluded)
        && result.Some? && persisted == old(persisted) + [result.value]
        && result.value.attempts == attempts && result.value.failures == failures
        && result.value.status == (if status.Failure? then Returned else status)
        && result.value.category == Categorized(status, supplied)
        && exhausted == old(exhausted) + if result.value.status.Returned? then 1 else 0
    {
      RecordAttempt(status, supplied);
      if !status.Failure? || number == 2 {
        Finish(status, supplied);
      } else {
        Transition(Running, Failed, number);
        Transition(Failed, Queued, 1);
        MovedAgain(old(registry.State()), task, Failed, Queued);
        number, excluded, result := 2, [assignment.value.model], None;
      }
    }

    // ----- The loop over the nodes -----

    /** The record of attempts so far. */
    ghost predicate Tracked(assign: (int, seq<Key>) -> AssignReply, execute: int -> ExecuteReply)
      reads this
    {
      Recorded(attempts, failures, settled, execute) && Course(number, excluded, assignment, attempts, assign, execute)
    }

    ghost predicate Waiting(start: Registry, assign: (int, seq<Key>) -> AssignReply, execute: int -> ExecuteReply)
      reads this, registry
    {
      && task in start.tasks && registry.State() == Moved(start, task, Queued)
      && Tracked(assign, execute) && result.None? && |attempts| == number - 1 && persisted == [] && exhausted == 0
      && (number == 2 ==> assignment == Some(assign(1, [])))
    }

    ghost predicate Ended(start: Registry, assign: (int, seq<Key>) -> AssignReply, execute: int -> ExecuteReply, final: TaskStatus)
      reads this, registry
    {
      && task in start.tasks && registry.State() == Moved(start, task, final) && final.Terminal()
      && Tracked(assign, execute) && result.Some? && persisted == [result.value]
      && result.value.attempts == attempts && result.value.failures == failures
      && final == FinalStatus(assign(number, excluded), result.value.status)
      && Results(result.value, assign(number, excluded), execute(number))
      && |attempts| == (if assign(number, excluded).NoRoute? then number - 1 else number)
      && exhausted == if result.value.status.Returned? then 1 else 0
    }

    /** The reply that an error complains about. */
    ghost predicate ErrorIsDue(assign: (int, seq<Key>) -> AssignReply, execute: int -> ExecuteReply, error: GraphError)
      reads this
    {
      var last := assign(number, excluded);
      last.Bound? &&
      match error
      case AssignmentMismatch => last.task != task || last.number != number
      case FloorNotRaised => number == 2 && assign(1, []).Bound? && !F.Raised(assign(1, []).floor, last.floor)
      case IdentityMismatch => execute(number).Answered? && execute(number).task != task
    }

    method Execute(ghost start: Registry, assign: (int, seq<Key>) -> AssignReply, ghost execute: int -> ExecuteReply, reply: ExecuteReply)
      returns (error: Option<GraphError>, ghost final: TaskStatus)
      requires task in start.tasks && registry.State() == Moved(start, task, Queued)
      requires Tracked(assign, execute) && result.None? && |attempts| == number - 1 && persisted == [] && exhausted == 0
      requires assignment == Some(assign(number, excluded)) && assign(number, excluded).Bound? && reply == execute(number)
      modifies this, registry
      ensures error.None? ==> (Waiting(start, assign, execute) && number > old(number)) || Ended(start, assign, execute, final)
      ensures error.Some? ==> reply.Answered? && reply.task != task && number == old(number) && excluded == old(excluded)
      ensures error.Some? ==>
        && error.value == IdentityMismatch && Tracked(assign, execute) && persisted == [] && exhausted == 0
        && |attempts| == number - 1
        && registry.State() == Moved(start, task, Running)
    {
      var status, category;
      final := Queued;
      status, category, error := RunAttempt(reply);
      MovedAgain(start, task, Queued, Running);
      if error.None? {
        hide Recorded, Explained, Categorized, Came, F.Raised, RefusedStatus;
        final := TaskStatusOf(status, number);
        if status.Failure? && number == 1 {
          QueueAgain(start, assign, execute, status, category);
        } else {
          Conclude(start, assign, execute, status, category);
        }
      }
    }

    /** After a first failure the evaluation queues the task for its second attempt. */
    method QueueAgain(ghost start: Registry, ghost assign: (int, seq<Key>) -> AssignReply, ghost execute: int -> ExecuteReply,
                      status: ResultStatus, category: Option<Category>)
      requires task in start.tasks && registry.State() == Moved(start, task, Running)
      requires Tracked(assign, execute) && result.None? && |attempts| == number - 1 && persisted == [] && exhausted == 0
      requires assignment == Some(assign(number, excluded)) && assign(number, excluded).Bound?
      requires status == Came(execute(number)) && Categorized(status, category) == Explained(execute(number))
      requires status.Failure? && number == 1
      modifies this, registry
      ensures Waiting(start, assign, execute) && number == 2
    {
      MovedAgain(start, task, Running, Queued);
      assert registry.tasks[task].status == Running && attempts == [] && excluded == [] && assign(1, []).Bound?;
      ghost var earlier, paid := failures, settled;
      hide Recorded, Course, Explained, Categorized, Moved, RefusedStatus, TaskStatusOf, Came, AttemptIds;
      Evaluate(status, category);
      RecordsAnother([], earlier, paid, execute, attempts[0], status, Categorized(status, category), failures);
      CourseTurns(assignment, assign, execute, attempts[0]);
    }

    lemma {:induction false} EndedWhen(start: Registry, assign: (int, seq<Key>) -> AssignReply, execute: int -> ExecuteReply, final: TaskStatus)
      requires task in start.tasks && registry.State() == Moved(start, task, final) && final.Terminal()
      requires Tracked(assign, execute) && |attempts| == number && assign(number, excluded).Bound?
      requires result.Some? && persisted == [result.value]
      requires result.value.attempts == attempts && result.value.failures == failures
      requires final == FinalStatus(assign(number, excluded), result.value.status)
      requires Results(result.value, assign(number, excluded), execute(number))
      requires exhausted == if result.value.status.Returned? then 1 else 0
      ensures Ended(start, assign, execute, final)
    {
      hide Results, Recorded, Course, Moved, FinalStatus;
    }

    /** Otherwise it ends the task. */
    method Conclude(ghost start: Registry, ghost assign: (int, seq<Key>) -> AssignReply, ghost execute: int -> ExecuteReply,
                    status: ResultStatus, category: Option<Category>)
      requires task in start.tasks && registry.State() == Moved(start, task, Running)
      requires Tracked(assign, execute) && result.None? && |attempts| == number - 1 && persisted == [] && exhausted == 0
      requires assignment == Some(assign(number, excluded)) && assign(number, excluded).Bound?
      requires status == Came(execute(number)) && Categorized(status, category) == Explained(execute(number))
      requires !(status.Failure? && number == 1)
      modifies this, registry
      ensures Ended(start, assign, execute, TaskStatusOf(status, old(number)))
    {
      assert registry.tasks[task].status == Running && (number == 1 || number == 2);
      hide Ended, Recorded, Course, Explained, Categorized, Moved, Results, FinalStatus, TaskStatusOf, TaskStatus.Terminal, Came, AttemptIds, AttemptStatusOf;
      ghost var before, earlier, paid, last, reply := attempts, failures, settled, assign(number, excluded), execute(number);
      Evaluate(status, category);
      assert attempts[|before|].number == number;
      CourseContinues(number, excluded, assignment, before, assign, execute, attempts[|before|]);
      Concludes(start, task, before, earlier, paid, execute, attempts[|before|], failures, status, category, last, reply, result.value);
      EndedWhen(start, assign, execute, TaskStatusOf(status, number));
    }

    /** One way from assignment to evaluation. */
    method Attempt(ghost start: Registry, assign: (int, seq<Key>) -> AssignReply, execute: int -> ExecuteReply)
      returns (error: Option<GraphError>, ghost final: TaskStatus)
      requires Waiting(start, assign, execute)
      modifies this, registry
      ensures error.None? ==> (Waiting(start, assign, execute) && number > old(number)) || Ended(start, assign, execute, final)
      ensures error.Some? ==> Tracked(assign, execute) && persisted == [] && exhausted == 0 && |attempts| == number - 1
      ensures error.Some? ==>
        registry.State() == Moved(start, task, if error.value.IdentityMismatch? then Running else Queued)
      ensures error.Some? ==> ErrorIsDue(assign, execute, error.value)
    {
      final := Blocked;
      error := AssignAttempt(assign(number, excluded));
      if error.Some? {
        return;
      }
      if result.Some? {
        MovedAgain(start, task, Queued, Blocked);
      } else {
        error, final := Execute(start, assign, execute, execute(number));
      }
    }

    /** Drives the nodes from a queued task to its result. `assign` and `execute` are any callbacks. */
    method Run(assign: (int, seq<Key>) -> AssignReply, execute: int -> ExecuteReply) returns (r: Result<TaskResult, GraphError>)
      requires task in registry.tasks && registry.tasks[task].status == Queued
      requires number == 1 && excluded == [] && assignment.None? && attempts == [] && failures == [] && result.None?
      requires settled == [] && persisted == [] && exhausted == 0
      modifies this, registry
      // An error is a callback's, and leaves the task queued or running. The attempt that it ends is
      // neither recorded nor settled.
      ensures r.Err? ==> persisted == [] && |attempts| == number - 1
      ensures r.Err? ==>
        registry.State() == Moved(old(registry.State()), task, if r.error.IdentityMismatch? then Running else Queued)
      // One result is persisted; it is never "failed". The registry agrees with it, except exactly
      // when the last assignment found that the budget does not allow a model.
      ensures r.Ok? ==> persisted == [r.value] && !r.value.status.Failure? && r.value.attempts == attempts
      ensures number == 1 ==> excluded == []
      ensures number != 1 ==> number == 2 && assign(1, []).Bound? && excluded == [assign(1, []).model]
      ensures r.Ok? ==> |attempts| == if assign(number, excluded).NoRoute? then number - 1 else number
      ensures r.Ok? ==>
        && FinalStatus(assign(number, excluded), r.value.status).Terminal()
        && registry.State() == Moved(old(registry.State()), task, FinalStatus(assign(number, excluded), r.value.status))
        && (assign(number, excluded).NoRoute? ==> r.value.status == RefusedStatus(assign(number, excluded)))
      ensures r.Ok? ==>
        (registry.State() == Moved(old(registry.State()), task, TaskStatusOf(r.value.status, 2)) <==>
         assign(number, excluded) != NoRoute(Some(BudgetUnaffordable)))
      // How the registry shows what the result says.
      ensures r.Ok? ==> task in registry.tasks
      ensures r.Ok? ==>
        var status, refused := registry.tasks[task].status, assign(number, excluded).NoRoute?;
        && (status == Succeeded <==> r.value.status == Done)
        && (status == Cancelled <==> r.value.status == Withdrawn)
        && (status == ReturnedToLead <==> r.value.status == Returned)
        && (status == BudgetBlocked <==> r.value.status == OutOfBudget && !refused)
        && (status == Blocked <==> r.value.status == Obstructed || (r.value.status == OutOfBudget && refused))
      // The result is what came of the last execution, a second failure returned to the lead; or that
      // there was no route. It carries why, and why each attempt failed.
      ensures r.Ok? ==>
        var last := assign(number, excluded);
        && (last.Bound? ==>
              && r.value.status == (if Came(execute(number)).Failure? then Returned else Came(execute(number)))
              && r.value.category == Explained(execute(number)))
        && (last.NoRoute? && last.constraint == Some(BudgetUnaffordable) ==>
              r.value.status == OutOfBudget && r.value.category == Some(BudgetBlockedCategory))
        && (last.NoRoute? && last.constraint != Some(BudgetUnaffordable) ==>
              r.value.status == Obstructed && r.value.category == Some(RoutingIneligible))
      ensures r.Ok? ==> r.value.failures == ReasonsFor(attempts, execute)
      ensures number == 2 ==> Came(execute(1)).Failure?
      ensures forall i :: 0 <= i < |attempts| ==> Summarizes(attempts[i].status, Came(execute(i + 1)))
      // At most two attempts, numbered in order, the second only after a failure; each is settled once.
      ensures |attempts| <= 2 && forall i :: 0 <= i < |attempts| ==> attempts[i].number == i + 1
      ensures |attempts| == 2 ==> attempts[0].status.AttemptFailed?
      ensures settled == AttemptIds(attempts)
      ensures exhausted <= 1 && (exhausted == 1 <==> r.Ok? && r.value.status.Returned?)
      // When `assign` honours the exclusion, the second attempt does not use the first model.
      ensures (forall ex: seq<Key> :: assign(2, ex).Bound? ==> assign(2, ex).model !in ex) && |attempts| == 2 ==>
                attempts[0].model != attempts[1].model
      // Each error is due to the last reply of a callback.
      ensures r.Err? ==> ErrorIsDue(assign, execute, r.error)
    {
      ghost var start := registry.State();
      ghost var final := Queued;
      MovedAgain(start, task, Queued, Queued);
      while result.None?
        invariant Waiting(start, assign, execute) || Ended(start, assign, execute, final)
        decreases if result.Some? then 0 else 3 - number
      {
        var error;
        error, final := Attempt(start, assign, execute);
        if error.Some? {
          return Err(error.value);
        }
      }
      StatusesDiffer(start, task, FinalStatus(assign(number, excluded), result.value.status), TaskStatusOf(result.value.status, 2));
      r := Ok(result.value);
    }
  }

  lemma {:induction false} StatusesDiffer(r: Registry, task: Id, one: TaskStatus, other: TaskStatus)
    requires task in r.tasks
    ensures Moved(r, task, one) == Moved(r, task, other) <==> one == other
  {
    assert Moved(r, task, one).tasks[task].status == one && Moved(r, task, other).tasks[task].status == other;
  }

  /** A task for which no model is affordable: the result says budget blocked, the registry blocked. */
  method RunWithoutMoney(registry: TaskRegistry, task: Id) returns (result: TaskResult)
    requires task in registry.tasks && registry.tasks[task].status == Queued
    modifies registry
    ensures result.status == OutOfBudget && result.attempts == []
    ensures task in registry.tasks && registry.tasks[task].status == Blocked
  {
    var graph := new TaskGraph(registry, task);
    var r := graph.Run((number, avoid) => NoRoute(Some(BudgetUnaffordable)), number => OtherRaised);
    result := r.value;
  }
}
