/** Task identity, dependency integrity and compare-and-set status (runtime/task_registry.py). */
module TaskRegistries {
  import opened Prelude
  import opened Graphs
  import opened Tasks

  datatype TaskSpec = TaskSpec(id: Id, parent: Option<Id>, depth: nat, fingerprint: Id, dependsOn: seq<Id>)

  datatype RegisteredTask = RegisteredTask(spec: TaskSpec, status: TaskStatus)

  datatype Code =
    | IdDuplicate | FingerprintExhausted | DependencySelf | DependencyMissing | DepthInvalid
    | ParentMissing | DependencyUnsuccessful | DependencyCycle | FingerprintDuplicate
    | UnknownTask | StateConflict | TransitionInvalid | AttemptNotFailed

  /** The value of a registry's three fields. */
  datatype Registry = Registry(
    tasks: map<Id, RegisteredTask>,
    failures: map<Id, nat>,
    diagnostics: seq<Id>)

  const EMPTY := Registry(map[], map[], [])

  type Specs = map<Id, TaskSpec>

  function SpecsOf(tasks: map<Id, RegisteredTask>): Specs {
    map id | id in tasks :: tasks[id].spec
  }

  function DependencyGraph(specs: Specs): Graph {
    map id | id in specs :: specs[id].dependsOn
  }

  /** The dictionary update that adds a batch under its own task ids. */
  function Combine(specs: Specs, batch: seq<TaskSpec>): Specs {
    if batch == [] then specs
    else Combine(specs, batch[..|batch| - 1])[batch[|batch| - 1].id := batch[|batch| - 1]]
  }

  function FailureCount(failures: map<Id, nat>, fingerprint: Id): nat {
    if fingerprint in failures then failures[fingerprint] else 0
  }

  // ----- What a registry must be -----

  ghost predicate DepthsFollowParents(specs: Specs) {
    forall id :: id in specs ==> DepthFollowsParent(specs, specs[id])
  }

  predicate DepthFollowsParent(specs: Specs, spec: TaskSpec) {
    match spec.parent
    case None => spec.depth == 1
    case Some(parent) => parent in specs && spec.depth == specs[parent].depth + 1
  }

  ghost predicate FingerprintsUnique(specs: Specs) {
    forall a, b :: a in specs && b in specs && specs[a].fingerprint == specs[b].fingerprint ==> a == b
  }

  /** The specifications of one registry: named by id, closed and acyclic under dependencies,
      unique by fingerprint, and nested to the depth they declare. */
  ghost predicate WellFormed(specs: Specs) {
    && (forall id :: id in specs ==> specs[id].id == id)
    && Closed(DependencyGraph(specs))
    && !HasCycle(DependencyGraph(specs))
    && FingerprintsUnique(specs)
    && DepthsFollowParents(specs)
  }

  ghost predicate Integrity(r: Registry) {
    && WellFormed(SpecsOf(r.tasks))
    && forall f :: f in r.failures ==> r.failures[f] <= 2
  }

  // ----- Operations -----

  predicate IdsFresh(tasks: map<Id, RegisteredTask>, batch: seq<TaskSpec>) {
    && (forall i, j :: 0 <= i < j < |batch| ==> batch[i].id != batch[j].id)
    && forall i :: 0 <= i < |batch| ==> batch[i].id !in tasks
  }

  predicate Exhausted(failures: map<Id, nat>, batch: seq<TaskSpec>) {
    exists i :: 0 <= i < |batch| && FailureCount(failures, batch[i].fingerprint) >= 2
  }

  predicate HasDeadDependency(tasks: map<Id, RegisteredTask>, spec: TaskSpec) {
    exists d :: d in spec.dependsOn && d in tasks && tasks[d].status.Terminal() && tasks[d].status != Succeeded
  }

  /** The checks on one specification, in the order they are made. */
  function SpecFault(tasks: map<Id, RegisteredTask>, combined: Specs, spec: TaskSpec): Option<Code> {
    if spec.id in spec.dependsOn then Some(DependencySelf)
    else if exists d :: d in spec.dependsOn && d !in combined then Some(DependencyMissing)
    else if spec.parent.None? && spec.depth != 1 then Some(DepthInvalid)
    else if spec.parent.Some? && spec.parent.value !in combined then Some(ParentMissing)
    else if spec.parent.Some? && spec.depth != combined[spec.parent.value].depth + 1 then Some(DepthInvalid)
    else if HasDeadDependency(tasks, spec) then Some(DependencyUnsuccessful)
    else None
  }

  /** The first fault of the first faulty specification. */
  function FirstFault(tasks: map<Id, RegisteredTask>, combined: Specs, batch: seq<TaskSpec>): Option<Code> {
    if batch == [] then None
    else
      var earlier := FirstFault(tasks, combined, batch[..|batch| - 1]);
      if earlier.Some? then earlier else SpecFault(tasks, combined, batch[|batch| - 1])
  }

  predicate FingerprintsClash(specs: Specs, batch: seq<TaskSpec>) {
    || (exists i, j :: 0 <= i < j < |batch| && batch[i].fingerprint == batch[j].fingerprint)
    || exists i, id :: 0 <= i < |batch| && id in specs && specs[id].fingerprint == batch[i].fingerprint
  }

  function Admit(tasks: map<Id, RegisteredTask>, batch: seq<TaskSpec>): map<Id, RegisteredTask> {
    if batch == [] then tasks
    else Admit(tasks, batch[..|batch| - 1])[batch[|batch| - 1].id := RegisteredTask(batch[|batch| - 1], Proposed)]
  }

  ghost function RegisterOutcome(r: Registry, batch: seq<TaskSpec>): Result<Registry, Code> {
    var specs := SpecsOf(r.tasks);
    var combined := Combine(specs, batch);
    if !IdsFresh(r.tasks, batch) then Err(IdDuplicate)
    else if Exhausted(r.failures, batch) then Err(FingerprintExhausted)
    else if FirstFault(r.tasks, combined, batch).Some? then Err(FirstFault(r.tasks, combined, batch).value)
    else if HasCycle(DependencyGraph(combined)) then Err(DependencyCycle)
    else if FingerprintsClash(specs, batch) then Err(FingerprintDuplicate)
    else Ok(r.(tasks := Admit(r.tasks, batch)))
  }

  function TransitionOutcome(r: Registry, id: Id, expected: TaskStatus, target: TaskStatus, attemptNumber: int)
    : Result<Registry, Code>
  {
    if id !in r.tasks then Err(UnknownTask)
    else
      var current := r.tasks[id].status;
      if current != expected then Err(StateConflict)
      else if current == target && current.Terminal() then Ok(r.(diagnostics := r.diagnostics + [id]))
      else match TransitionTask(current, target, attemptNumber)
        case Err(_) => Err(TransitionInvalid)
        case Ok(status) => Ok(r.(tasks := r.tasks[id := RegisteredTask(r.tasks[id].spec, status)]))
  }

  function FailureOutcome(r: Registry, id: Id): Result<Registry, Code> {
    if id !in r.tasks then Err(UnknownTask)
    else if r.tasks[id].status !in {Failed, ReturnedToLead} then Err(AttemptNotFailed)
    else
      var fingerprint := r.tasks[id].spec.fingerprint;
      var count := FailureCount(r.failures, fingerprint);
      if count >= 2 then Err(FingerprintExhausted)
      else Ok(r.(failures := r.failures[fingerprint := count + 1]))
  }

  // ----- A batch is accepted exactly when the registry stays well formed -----

  lemma {:induction false} CombineEntries(specs: Specs, batch: seq<TaskSpec>)
    requires forall i, j :: 0 <= i < j < |batch| ==> batch[i].id != batch[j].id
    requires forall i :: 0 <= i < |batch| ==> batch[i].id !in specs
    ensures forall id :: id in Combine(specs, batch) <==>
              id in specs || exists i :: 0 <= i < |batch| && batch[i].id == id
    ensures forall id :: id in specs ==> id in Combine(specs, batch) && Combine(specs, batch)[id] == specs[id]
    ensures forall i :: 0 <= i < |batch| ==> Combine(specs, batch)[batch[i].id] == batch[i]
  {
    if batch != [] {
      CombineEntries(specs, batch[..|batch| - 1]);
      forall i | 0 <= i < |batch| - 1 ensures batch[i].id == batch[..|batch| - 1][i].id { }
    }
  }

  lemma {:induction false} AdmitSpecs(tasks: map<Id, RegisteredTask>, batch: seq<TaskSpec>)
    ensures SpecsOf(Admit(tasks, batch)) == Combine(SpecsOf(tasks), batch)
    ensures tasks.Keys <= Admit(tasks, batch).Keys
  {
    if batch != [] {
      AdmitSpecs(tasks, batch[..|batch| - 1]);
    }
  }

  lemma {:induction false} NoFaultIffEachSound(tasks: map<Id, RegisteredTask>, combined: Specs, batch: seq<TaskSpec>)
    ensures FirstFault(tasks, combined, batch).None? <==>
              forall i :: 0 <= i < |batch| ==> SpecFault(tasks, combined, batch[i]).None?
  {
    if batch != [] {
      var rest := batch[..|batch| - 1];
      NoFaultIffEachSound(tasks, combined, rest);
      assert forall i :: 0 <= i < |rest| ==> rest[i] == batch[i];
    }
  }

  lemma {:induction false} SelfDependencyIsCycle(specs: Specs, id: Id)
    requires id in specs && id in specs[id].dependsOn
    ensures HasCycle(DependencyGraph(specs))
  {
    assert Edge(DependencyGraph(specs), id, id);
    assert Cycle(DependencyGraph(specs), [id, id]);
  }

  ghost predicate EachSound(tasks: map<Id, RegisteredTask>, combined: Specs, batch: seq<TaskSpec>) {
    forall i :: 0 <= i < |batch| ==> SpecFault(tasks, combined, batch[i]).None?
  }

  /** No task of the batch depends on one that was returned, blocked or cancelled. */
  ghost predicate NoDeadDependencies(tasks: map<Id, RegisteredTask>, batch: seq<TaskSpec>) {
    forall i, d :: 0 <= i < |batch| && d in batch[i].dependsOn && d in tasks ==>
      tasks[d].status !in {ReturnedToLead, Blocked, BudgetBlocked, Cancelled}
  }

  lemma {:induction false} DeadExactly(tasks: map<Id, RegisteredTask>, batch: seq<TaskSpec>)
    ensures NoDeadDependencies(tasks, batch) <==> forall i :: 0 <= i < |batch| ==> !HasDeadDependency(tasks, batch[i])
  {
    if NoDeadDependencies(tasks, batch) {
      forall i | 0 <= i < |batch| ensures !HasDeadDependency(tasks, batch[i]) {
        assert forall d :: d in batch[i].dependsOn && d in tasks ==> tasks[d].status !in {ReturnedToLead, Blocked, BudgetBlocked, Cancelled};
      }
    } else {
      var i, d :| 0 <= i < |batch| && d in batch[i].dependsOn && d in tasks
                  && tasks[d].status in {ReturnedToLead, Blocked, BudgetBlocked, Cancelled};
      assert HasDeadDependency(tasks, batch[i]);
    }
  }

  ghost predicate DependenciesPresent(specs: Specs, spec: TaskSpec) {
    forall d :: d in spec.dependsOn ==> d in specs
  }

  lemma {:induction false} FaultFreeMeaning(tasks: map<Id, RegisteredTask>, combined: Specs, spec: TaskSpec)
    ensures SpecFault(tasks, combined, spec).None? <==>
              && spec.id !in spec.dependsOn
              && DependenciesPresent(combined, spec)
              && DepthFollowsParent(combined, spec)
              && !HasDeadDependency(tasks, spec)
  {
  }

  lemma {:induction false} ClosedMeaning(specs: Specs)
    ensures Closed(DependencyGraph(specs)) <==> forall id :: id in specs ==> DependenciesPresent(specs, specs[id])
  {
    if Closed(DependencyGraph(specs)) {
      forall id, d | id in specs && d in specs[id].dependsOn ensures d in specs {
        assert id in DependencyGraph(specs) && d in DependencyGraph(specs)[id];
        assert d in DependencyGraph(specs);
      }
    }
    if forall id :: id in specs ==> DependenciesPresent(specs, specs[id]) {
      forall n, d | n in specs && d in DependencyGraph(specs)[n] ensures d in specs {
        assert DependenciesPresent(specs, specs[n]);
      }
    }
  }

  lemma {:induction false} SoundBatchClosesGraph(tasks: map<Id, RegisteredTask>, batch: seq<TaskSpec>)
    requires WellFormed(SpecsOf(tasks)) && IdsFresh(tasks, batch)
    requires EachSound(tasks, Combine(SpecsOf(tasks), batch), batch)
    ensures var combined := Combine(SpecsOf(tasks), batch);
      Closed(DependencyGraph(combined)) && DepthsFollowParents(combined)
  {
    var specs := SpecsOf(tasks);
    var combined := Combine(specs, batch);
    CombineEntries(specs, batch);
    ClosedMeaning(specs);
    forall id | id in combined
      ensures DependenciesPresent(combined, combined[id]) && DepthFollowsParent(combined, combined[id])
    {
      if id in specs {
        assert DependenciesPresent(specs, specs[id]) && DepthFollowsParent(specs, specs[id]);
      } else {
        var i :| 0 <= i < |batch| && batch[i].id == id;
        FaultFreeMeaning(tasks, combined, batch[i]);
      }
    }
    ClosedMeaning(combined);
  }

  lemma {:induction false} WellFormedBatchIsSound(tasks: map<Id, RegisteredTask>, batch: seq<TaskSpec>)
    requires IdsFresh(tasks, batch) && NoDeadDependencies(tasks, batch)
    requires WellFormed(Combine(SpecsOf(tasks), batch))
    ensures EachSound(tasks, Combine(SpecsOf(tasks), batch), batch)
  {
    var combined := Combine(SpecsOf(tasks), batch);
    CombineEntries(SpecsOf(tasks), batch);
    ClosedMeaning(combined);
    DeadExactly(tasks, batch);
    forall i | 0 <= i < |batch| ensures SpecFault(tasks, combined, batch[i]).None? {
      var spec := batch[i];
      assert combined[spec.id] == spec;
      if spec.id in spec.dependsOn {
        SelfDependencyIsCycle(combined, spec.id);
      }
      FaultFreeMeaning(tasks, combined, spec);
    }
  }

  lemma {:induction false} ClashIffNotUnique(specs: Specs, batch: seq<TaskSpec>)
    requires FingerprintsUnique(specs)
    requires forall i, j :: 0 <= i < j < |batch| ==> batch[i].id != batch[j].id
    requires forall i :: 0 <= i < |batch| ==> batch[i].id !in specs
    ensures FingerprintsClash(specs, batch) <==> !FingerprintsUnique(Combine(specs, batch))
  {
    var combined := Combine(specs, batch);
    CombineEntries(specs, batch);
    if i, j :| 0 <= i < j < |batch| && batch[i].fingerprint == batch[j].fingerprint {
      assert combined[batch[i].id] == batch[i] && combined[batch[j].id] == batch[j];
    }
    if i, id :| 0 <= i < |batch| && id in specs && specs[id].fingerprint == batch[i].fingerprint {
      assert combined[batch[i].id] == batch[i] && combined[id] == specs[id];
    }
    if !FingerprintsClash(specs, batch) {
      forall a, b | a in combined && b in combined && combined[a].fingerprint == combined[b].fingerprint
        ensures a == b
      {
        if a !in specs {
          var i :| 0 <= i < |batch| && batch[i].id == a;
        }
        if b !in specs {
          var j :| 0 <= j < |batch| && batch[j].id == b;
        }
      }
    }
  }

  /** The accepted batches are exactly those of fresh, unexhausted tasks, none resting on a task
      that ended without success, whose union with the registry is again well formed. */
  lemma {:induction false} RegistersExactlyWellFormed(r: Registry, batch: seq<TaskSpec>)
    requires Integrity(r)
    ensures RegisterOutcome(r, batch).Ok? <==>
              && IdsFresh(r.tasks, batch)
              && !Exhausted(r.failures, batch)
              && NoDeadDependencies(r.tasks, batch)
              && WellFormed(Combine(SpecsOf(r.tasks), batch))
  {
    var specs := SpecsOf(r.tasks);
    var combined := Combine(specs, batch);
    DeadExactly(r.tasks, batch);
    if IdsFresh(r.tasks, batch) {
      CombineEntries(specs, batch);
      NoFaultIffEachSound(r.tasks, combined, batch);
      ClashIffNotUnique(specs, batch);
      if EachSound(r.tasks, combined, batch) {
        SoundBatchClosesGraph(r.tasks, batch);
        forall i | 0 <= i < |batch| ensures !HasDeadDependency(r.tasks, batch[i]) {
          FaultFreeMeaning(r.tasks, combined, batch[i]);
        }
      }
      if NoDeadDependencies(r.tasks, batch) && WellFormed(combined) {
        WellFormedBatchIsSound(r.tasks, batch);
      }
    }
  }

  // ----- Every history -----

  datatype Operation =
    | DoRegister(batch: seq<TaskSpec>)
    | DoTransition(id: Id, expected: TaskStatus, target: TaskStatus, attemptNumber: int)
    | DoRecordFailure(id: Id)

  ghost function Attempted(r: Registry, op: Operation): Result<Registry, Code> {
    match op
    case DoRegister(batch) => RegisterOutcome(r, batch)
    case DoTransition(id, expected, target, n) => TransitionOutcome(r, id, expected, target, n)
    case DoRecordFailure(id) => FailureOutcome(r, id)
  }

  /** A rejected operation leaves the registry as it was. */
  ghost function Apply(r: Registry, op: Operation): Registry {
    match Attempted(r, op)
    case Ok(next) => next
    case Err(_) => r
  }

  ghost function Run(r: Registry, ops: seq<Operation>): Registry {
    if ops == [] then r else Apply(Run(r, ops[..|ops| - 1]), ops[|ops| - 1])
  }

  /** What no step undoes: a task keeps its specification and its terminal status, and a
      fingerprint keeps its failures. */
  ghost predicate Evolves(before: Registry, after: Registry) {
    && (forall id :: id in before.tasks ==>
          && id in after.tasks && after.tasks[id].spec == before.tasks[id].spec
          && (before.tasks[id].status.Terminal() ==> after.tasks[id].status == before.tasks[id].status))
    && (forall f :: FailureCount(before.failures, f) <= FailureCount(after.failures, f))
    && before.diagnostics <= after.diagnostics
  }

  lemma {:induction false} AdmitKeeps(tasks: map<Id, RegisteredTask>, batch: seq<TaskSpec>)
    requires forall i :: 0 <= i < |batch| ==> batch[i].id !in tasks
    ensures forall id :: id in tasks ==> id in Admit(tasks, batch) && Admit(tasks, batch)[id] == tasks[id]
  {
    if batch != [] {
      AdmitKeeps(tasks, batch[..|batch| - 1]);
    }
  }

  lemma {:induction false} StepKeepsIntegrity(r: Registry, op: Operation)
    requires Integrity(r)
    ensures Integrity(Apply(r, op)) && Evolves(r, Apply(r, op))
  {
    if op.DoRegister? && RegisterOutcome(r, op.batch).Ok? {
      RegistersExactlyWellFormed(r, op.batch);
      AdmitSpecs(r.tasks, op.batch);
      AdmitKeeps(r.tasks, op.batch);
    } else if op.DoTransition? {
      assert SpecsOf(Apply(r, op).tasks) == SpecsOf(r.tasks);
    }
  }

  /** After any sequence of operations on a new registry it is closed, acyclic, unique by
      fingerprint and nested to its declared depths, and has at most two failures a fingerprint. */
  lemma {:induction false} HistoryKeepsIntegrity(ops: seq<Operation>)
    ensures Integrity(Run(EMPTY, ops))
  {
    if ops == [] {
      TopologicalMeansAcyclic(DependencyGraph(SpecsOf(EMPTY.tasks)), []);
    } else {
      HistoryKeepsIntegrity(ops[..|ops| - 1]);
      StepKeepsIntegrity(Run(EMPTY, ops[..|ops| - 1]), ops[|ops| - 1]);
    }
  }

  /** Whatever happens after a point in a history, nothing settled at that point is undone. */
  lemma {:induction false} HistoryOnlyEvolves(r: Registry, ops: seq<Operation>)
    requires Integrity(r)
    ensures Integrity(Run(r, ops)) && Evolves(r, Run(r, ops))
  {
    if ops != [] {
      HistoryOnlyEvolves(r, ops[..|ops| - 1]);
      StepKeepsIntegrity(Run(r, ops[..|ops| - 1]), ops[|ops| - 1]);
    }
  }

  /** The tasks from `id` up to a task without a parent. */
  ghost function ParentChain(specs: Specs, id: Id): seq<Id>
    requires DepthsFollowParents(specs) && id in specs
    decreases specs[id].depth
  {
    assert DepthFollowsParent(specs, specs[id]);
    if specs[id].parent.None? then [id] else [id] + ParentChain(specs, specs[id].parent.value)
  }

  /** In every reachable registry a task's depth is the length of its parent chain. */
  lemma {:induction false} DepthIsChainLength(specs: Specs, id: Id)
    requires DepthsFollowParents(specs) && id in specs
    ensures |ParentChain(specs, id)| == specs[id].depth
    decreases specs[id].depth
  {
    assert DepthFollowsParent(specs, specs[id]);
    if specs[id].parent.Some? {
      DepthIsChainLength(specs, specs[id].parent.value);
    }
  }

  // ----- The registry as the program holds it -----

  class TaskRegistry {
    var tasks: map<Id, RegisteredTask>
    var failedFingerprintAttempts: map<Id, nat>
    var diagnostics: seq<Id>

    ghost function State(): Registry
      reads this
    {
      Registry(tasks, failedFingerprintAttempts, diagnostics)
    }

    constructor ()
      ensures State() == EMPTY
    {
      tasks, failedFingerprintAttempts, diagnostics := map[], map[], [];
    }

    method RegisterMany(batch: seq<TaskSpec>) returns (fault: Option<Code>)
      requires Integrity(State())
      modifies this
      ensures match RegisterOutcome(old(State()), batch)
        case Ok(next) => fault.None? && State() == next
        case Err(code) => fault == Some(code) && State() == old(State())
    {
      if !IdsFresh(tasks, batch) {
        return Some(IdDuplicate);
      }
      if Exhausted(failedFingerprintAttempts, batch) {
        return Some(FingerprintExhausted);
      }
      var combined := Combine(SpecsOf(tasks), batch);
      var i := 0;
      while i < |batch|
        invariant 0 <= i <= |batch|
        invariant FirstFault(tasks, combined, batch[..i]).None?
      {
        assert batch[..i + 1][..i] == batch[..i];
        var found := SpecFault(tasks, combined, batch[i]);
        if found.Some? {
          FaultStands(tasks, combined, batch, i + 1);
          return found;
        }
        i := i + 1;
      }
      assert batch[..i] == batch;
      NoFaultIffEachSound(tasks, combined, batch);
      SoundBatchClosesGraph(tasks, batch);
      var cyclic := FindCycle(DependencyGraph(combined), Sorted(combined.Keys));
      if cyclic {
        return Some(DependencyCycle);
      }
      if FingerprintsClash(SpecsOf(tasks), batch) {
        return Some(FingerprintDuplicate);
      }
      tasks := Admit(tasks, batch);
      return None;
    }

    method Transition(id: Id, expected: TaskStatus, target: TaskStatus, attemptNumber: int)
      returns (fault: Option<Code>)
      modifies this
      ensures match TransitionOutcome(old(State()), id, expected, target, attemptNumber)
        case Ok(next) => fault.None? && State() == next
        case Err(code) => fault == Some(code) && State() == old(State())
    {
      if id !in tasks {
        return Some(UnknownTask);
      }
      var current := tasks[id];
      if current.status != expected {
        return Some(StateConflict);
      }
      if current.status == target && current.status.Terminal() {
        diagnostics := diagnostics + [id];
        return None;
      }
      var status := TransitionTask(current.status, target, attemptNumber);
      if status.Err? {
        return Some(TransitionInvalid);
      }
      tasks := tasks[id := RegisteredTask(current.spec, status.value)];
      return None;
    }

    method RecordFailedAutomaticAttempt(id: Id) returns (r: Result<nat, Code>)
      modifies this
      ensures match FailureOutcome(old(State()), id)
        case Ok(next) => r.Ok? && State() == next && r.value == FailureCount(next.failures, tasks[id].spec.fingerprint)
        case Err(code) => r == Err(code) && State() == old(State())
    {
      if id !in tasks {
        return Err(UnknownTask);
      }
      if tasks[id].status !in {Failed, ReturnedToLead} {
        return Err(AttemptNotFailed);
      }
      var fingerprint := tasks[id].spec.fingerprint;
      var count := FailureCount(failedFingerprintAttempts, fingerprint);
      if count >= 2 {
        return Err(FingerprintExhausted);
      }
      failedFingerprintAttempts := failedFingerprintAttempts[fingerprint := count + 1];
      return Ok(count + 1);
    }
  }

  /** A fault found in a prefix of the batch is the batch's first fault. */
  lemma {:induction false} FaultStands(tasks: map<Id, RegisteredTask>, combined: Specs, batch: seq<TaskSpec>, n: nat)
    requires n <= |batch| && FirstFault(tasks, combined, batch[..n]).Some?
    ensures FirstFault(tasks, combined, batch) == FirstFault(tasks, combined, batch[..n])
  {
    if n < |batch| {
      var rest := batch[..|batch| - 1];
      assert rest[..n] == batch[..n];
      FaultStands(tasks, combined, rest, n);
    } else {
      assert batch[..n] == batch;
    }
  }
}
