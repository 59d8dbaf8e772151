/** What the end of a task means for the tasks that depend on it (runtime/task_registry.py and
    agents/task_graph.py). */
module TaskSuccession {
  import opened Prelude
  import opened Graphs
  import opened Tasks
  import opened TaskRegistries
  import opened TaskGraphs
  import S = Selector

  // ----- Registering one task -----

  /** A new task for the registry: its id and fingerprint are not in use, and its depth is that of its
      parent and one more. */
  ghost predicate Fits(r: Registry, spec: TaskSpec) {
    && spec.id !in r.tasks
    && FailureCount(r.failures, spec.fingerprint) < 2
    && (forall id :: id in r.tasks ==> r.tasks[id].spec.fingerprint != spec.fingerprint)
    && match spec.parent
       case None => spec.depth == 1
       case Some(parent) => parent in r.tasks && spec.depth == r.tasks[parent].spec.depth + 1
  }

  /** Each task that it depends on is known and has not ended without success. */
  ghost predicate MayDepend(r: Registry, spec: TaskSpec) {
    forall d :: d in spec.dependsOn ==>
      d in r.tasks && r.tasks[d].status !in {ReturnedToLead, Blocked, BudgetBlocked, Cancelled}
  }

  lemma {:induction false} WalkAvoids(g: Graph, added: Id, p: seq<Id>)
    requires Walk(g, p) && |p| >= 2 && forall n :: n in g ==> added !in g[n]
    ensures forall i :: 1 <= i < |p| ==> p[i] != added
    decreases |p|
  {
    assert Edge(g, p[0], p[1]);
    if |p| > 2 {
      WalkAvoids(g, added, p[1..]);
      assert forall i :: 2 <= i < |p| ==> p[i] == p[1..][i - 1];
    }
  }

  lemma {:induction false} WalkRemains(g: Graph, h: Graph, added: Id, p: seq<Id>)
    requires Walk(h, p) && forall i :: 0 <= i < |p| ==> p[i] != added
    requires forall n :: n in h && n != added ==> n in g && g[n] == h[n]
    ensures Walk(g, p)
    decreases |p|
  {
    if |p| >= 2 {
      assert Edge(h, p[0], p[1]);
      WalkRemains(g, h, added, p[1..]);
    }
  }

  /** A node that nothing depends on closes no cycle. */
  lemma {:induction false} NoCycleThroughNew(g: Graph, h: Graph, added: Id)
    requires !HasCycle(g) && (forall n :: n in h ==> added !in h[n])
    requires forall n :: n in h && n != added ==> n in g && g[n] == h[n]
    ensures !HasCycle(h)
  {
    forall p | Cycle(h, p) ensures false {
      WalkAvoids(h, added, p);
      assert p[|p| - 1] != added;
      WalkRemains(g, h, added, p);
      assert Cycle(g, p);
    }
  }

  /** The same for specifications: no dependency is missing, the fingerprint is new, and the depth is
      right. */
  ghost predicate Joins(specs: Specs, spec: TaskSpec) {
    && (forall d :: d in spec.dependsOn ==> d in specs)
    && (forall id :: id in specs ==> specs[id].fingerprint != spec.fingerprint)
    && match spec.parent
       case None => spec.depth == 1
       case Some(parent) => parent in specs && spec.depth == specs[parent].depth + 1
  }

  lemma {:induction false} JoinsWell(specs: Specs, spec: TaskSpec)
    requires WellFormed(specs) && spec.id !in specs && Joins(specs, spec)
    ensures WellFormed(specs[spec.id := spec])
  {
    JoinsClosed(specs, spec);
    JoinsAcyclic(specs, spec);
    hide HasCycle, Closed, DepthsFollowParents, DependencyGraph;
  }

  lemma {:induction false} JoinsClosed(specs: Specs, spec: TaskSpec)
    requires WellFormed(specs) && spec.id !in specs && Joins(specs, spec)
    ensures Closed(DependencyGraph(specs[spec.id := spec])) && DepthsFollowParents(specs[spec.id := spec])
  {
    hide HasCycle, FingerprintsUnique;
    var after := specs[spec.id := spec];
    ClosedMeaning(specs);
    forall id | id in after ensures DependenciesPresent(after, after[id]) && DepthFollowsParent(after, after[id]) {
      if id != spec.id {
        assert DependenciesPresent(specs, specs[id]) && DepthFollowsParent(specs, specs[id]);
      }
    }
    ClosedMeaning(after);
    hide Closed, DependencyGraph;
  }

  lemma {:induction false} JoinsAcyclic(specs: Specs, spec: TaskSpec)
    requires WellFormed(specs) && spec.id !in specs && Joins(specs, spec)
    ensures !HasCycle(DependencyGraph(specs[spec.id := spec]))
  {
    hide HasCycle, FingerprintsUnique, DepthsFollowParents;
    var h := DependencyGraph(specs[spec.id := spec]);
    ClosedMeaning(specs);
    forall n | n in h ensures spec.id !in h[n] {
      if n in specs {
        assert DependenciesPresent(specs, specs[n]);
      }
    }
    NoCycleThroughNew(DependencyGraph(specs), h, spec.id);
  }

  lemma {:induction false} WellMeansJoins(specs: Specs, spec: TaskSpec)
    requires spec.id !in specs && WellFormed(specs[spec.id := spec])
    ensures Joins(specs, spec)
  {
    var after := specs[spec.id := spec];
    ClosedMeaning(after);
    assert after[spec.id] == spec && DependenciesPresent(after, spec) && DepthFollowsParent(after, spec);
    if spec.id in spec.dependsOn {
      SelfDependencyIsCycle(after, spec.id);
    }
    forall id | id in specs ensures specs[id].fingerprint != spec.fingerprint {
      assert after[id] == specs[id];
    }
  }

  lemma {:induction false} AdmitsOne(tasks: map<Id, RegisteredTask>, spec: TaskSpec)
    ensures Admit(tasks, [spec]) == tasks[spec.id := RegisteredTask(spec, Proposed)]
    ensures Combine(SpecsOf(tasks), [spec]) == SpecsOf(tasks)[spec.id := spec]
  {
    assert [spec][..0] == [];
  }

  lemma {:induction false} FitsExactly(r: Registry, spec: TaskSpec)
    ensures Fits(r, spec) && MayDepend(r, spec) <==>
      && IdsFresh(r.tasks, [spec]) && !Exhausted(r.failures, [spec]) && NoDeadDependencies(r.tasks, [spec])
      && Joins(SpecsOf(r.tasks), spec)
  {
    assert [spec][0] == spec;
    if NoDeadDependencies(r.tasks, [spec]) {
      forall d | d in spec.dependsOn && d in r.tasks
        ensures r.tasks[d].status !in {ReturnedToLead, Blocked, BudgetBlocked, Cancelled}
      {
        assert d in [spec][0].dependsOn;
      }
    }
    if Fits(r, spec) {
      forall id | id in SpecsOf(r.tasks) ensures SpecsOf(r.tasks)[id].fingerprint != spec.fingerprint {
        assert id in r.tasks;
      }
    }
    if Joins(SpecsOf(r.tasks), spec) {
      forall id | id in r.tasks ensures r.tasks[id].spec.fingerprint != spec.fingerprint {
        assert id in SpecsOf(r.tasks);
      }
    }
  }

  /** One task is accepted exactly when it fits and may depend on what it names. It waits as proposed,
      and nothing else changes. */
  lemma {:induction false} RegistersOne(r: Registry, spec: TaskSpec)
    requires Integrity(r)
    ensures RegisterOutcome(r, [spec]).Ok? <==> Fits(r, spec) && MayDepend(r, spec)
    ensures RegisterOutcome(r, [spec]).Ok? ==>
      RegisterOutcome(r, [spec]).value == r.(tasks := r.tasks[spec.id := RegisteredTask(spec, Proposed)])
  {
    RegistersExactlyWellFormed(r, [spec]);
    AdmitsOne(r.tasks, spec);
    OutcomeAdmits(r, [spec]);
    hide RegisterOutcome, WellFormed, Joins, Fits, MayDepend, Exhausted, NoDeadDependencies;
    FitsExactly(r, spec);
    if IdsFresh(r.tasks, [spec]) {
      assert [spec][0].id !in r.tasks;
      if Joins(SpecsOf(r.tasks), spec) {
        JoinsWell(SpecsOf(r.tasks), spec);
      }
      if WellFormed(SpecsOf(r.tasks)[spec.id := spec]) {
        WellMeansJoins(SpecsOf(r.tasks), spec);
      }
    }
  }

  lemma {:induction false} OutcomeAdmits(r: Registry, batch: seq<TaskSpec>)
    ensures RegisterOutcome(r, batch).Ok? ==> RegisterOutcome(r, batch).value == r.(tasks := Admit(r.tasks, batch))
  {
  }

  // ----- Failures of a fingerprint -----

  /** A failure is counted for a task that failed or was returned, while its fingerprint has fewer than two;
      and once it has two, no task with that fingerprint registers. */
  lemma {:induction false} FailureCounts(r: Registry, id: Id, spec: TaskSpec)
    ensures FailureOutcome(r, id).Ok? <==>
      id in r.tasks && r.tasks[id].status in {Failed, ReturnedToLead} && FailureCount(r.failures, r.tasks[id].spec.fingerprint) < 2
    ensures FailureOutcome(r, id).Ok? ==>
      var next, f := FailureOutcome(r, id).value, r.tasks[id].spec.fingerprint;
      && next == r.(failures := r.failures[f := FailureCount(r.failures, f) + 1])
      && (FailureCount(r.failures, f) == 1 && spec.fingerprint == f ==> RegisterOutcome(next, [spec]).Err?)
  {
    if FailureOutcome(r, id).Ok? && spec.fingerprint == r.tasks[id].spec.fingerprint {
      assert [spec][0].fingerprint == spec.fingerprint;
    }
  }

  // ----- After a run -----

  /** Runs a task and then registers one that depends on it alone: it is accepted, unless the run ended
      with anything but success. */
  method RunThenRegister(registry: TaskRegistry, task: Id, next: TaskSpec,
                         assign: (int, seq<S.Key>) -> AssignReply, execute: int -> ExecuteReply)
    returns (r: Result<TaskResult, GraphError>, fault: Option<Code>)
    requires Integrity(registry.State()) && task in registry.tasks && registry.tasks[task].status == Queued
    requires Fits(registry.State(), next) && next.dependsOn == [task]
    modifies registry
    ensures fault.None? <==> (r.Ok? ==> r.value.status == Done)
    ensures fault.Some? ==> fault.value == DependencyUnsuccessful && next.id !in registry.tasks
    ensures fault.None? ==> next.id in registry.tasks && registry.tasks[next.id] == RegisteredTask(next, Proposed)
  {
    ghost var start := registry.State();
    var graph := new TaskGraph(registry, task);
    r := graph.Run(assign, execute);
    ghost var after := registry.State();
    var status := registry.tasks[task].status;
    MovesOnly(start, task, status, next);
    RegistersOne(after, next);
    fault := registry.RegisterMany([next]);
    if fault.Some? {
      UnsuccessfulIsWhy(after, next, task);
    }
  }

  lemma {:induction false} MovesOnly(r: Registry, task: Id, status: TaskStatus, next: TaskSpec)
    requires Integrity(r) && task in r.tasks && Fits(r, next)
    ensures Integrity(Moved(r, task, status)) && Fits(Moved(r, task, status), next)
  {
    assert SpecsOf(Moved(r, task, status).tasks) == SpecsOf(r.tasks);
  }

  /** The only fault of a task that fits and depends on known tasks. */
  lemma {:induction false} UnsuccessfulIsWhy(r: Registry, spec: TaskSpec, task: Id)
    requires Integrity(r) && Fits(r, spec) && task in r.tasks && spec.dependsOn == [task] && RegisterOutcome(r, [spec]).Err?
    ensures RegisterOutcome(r, [spec]).error == DependencyUnsuccessful
  {
    AdmitsOne(r.tasks, spec);
    RegistersOne(r, spec);
    assert [spec][0] == spec && [spec][..0] == [] && task in spec.dependsOn;
    assert !MayDepend(r, spec);
    assert HasDeadDependency(r.tasks, spec);
    var combined := Combine(SpecsOf(r.tasks), [spec]);
    assert SpecFault(r.tasks, combined, spec) == Some(DependencyUnsuccessful);
    assert IdsFresh(r.tasks, [spec]) && !Exhausted(r.failures, [spec]);
    assert FirstFault(r.tasks, combined, [spec][..0]).None?;
    assert FirstFault(r.tasks, combined, [spec]) == Some(DependencyUnsuccessful);
  }
}
