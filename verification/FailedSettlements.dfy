/** When the settlement of an attempt fails, and what that does to its run. */
module FailedSettlements {
  import opened Prelude
  import opened Tasks
  import opened Journals
  import opened Ledgers
  import opened Chains
  import A = Assignments
  import S = Selector
  import C = Calls
  import P = CallProtocol
  import R = Recoveries
  import N = Reconciliations
  import E = BatchExamples
  import opened Histories

  // ----- When a settlement goes through -----

  /** The attempt's reservation is there, and it is open with the ids of the settlement unused, or it
      was settled by this attempt before and the new amount repeats or may correct the old one. */
  ghost predicate Settles(db: Db, a: Id, reconciled: bool)
    requires a in db.assignments
  {
    var r, cost, authority := db.assignments[a].reservation, C.SettledCost(db, a), C.SettledAuthority(db, a, reconciled);
    && r in db.reservations
    && if r !in db.usage then
         && db.reservations[r].status.Reserved?
         && forall u :: u in db.usage ==> db.usage[u].usageId != a && db.usage[u].key != a
       else
         var u := db.usage[r];
         && u.usageId == a && u.key == a
         && ((u.amount == cost && u.authority == authority) ||
             (!u.Authoritative() && authority == ConservativeEstimate && cost >= u.amount))
  }

  lemma {:induction false} SettlesExactly(db: Db, percent: real, a: Id, reconciled: bool)
    requires a in db.assignments
    ensures C.SettleUsage(db, percent, a, reconciled).Ok? <==> Settles(db, a, reconciled)
  {
    hide C.SettledCost, UpdateWarning, C.AllMeasured;
    var r := db.assignments[a].reservation;
    if r in db.reservations {
      var row := db.reservations[r];
      var next := UsageRecord(a, row.run, row.task, C.SettledCost(db, a), C.SettledAuthority(db, a, reconciled), a);
      assert !next.Authoritative();
    }
  }

  /** A settlement on its own fails exactly outside this condition, and then one more failure is
      outstanding for its assignment; no other count moves. */
  lemma {:induction false} FailsExactly(db: Db, percent: real, a: Id, b: Id)
    requires a in db.assignments
    ensures C.SettleAttempt(db, percent, a).1.None? <==> Settles(db, a, false)
    ensures C.UnsettledCount(C.SettleAttempt(db, percent, a).0, b) ==
            C.UnsettledCount(db, b) + if b == a && !Settles(db, a, false) then 1 else 0
  {
    hide C.SettleUsage, C.UnsettledCount, C.WithUnsettled, Settles;
    SettlesExactly(db, percent, a, false);
    var r := C.SettleUsage(db, percent, a, false);
    if r.Ok? {
      N.SettlingTouchesTheLedger(db, percent, a, false, r.value);
      SameCount(db, r.value, b);
    } else {
      OneMore(db, a, b);
    }
  }

  lemma {:induction false} SameCount(db: Db, after: Db, b: Id)
    requires after.unsettled == db.unsettled
    ensures C.UnsettledCount(after, b) == C.UnsettledCount(db, b)
  {
  }

  lemma {:induction false} OneMore(db: Db, a: Id, b: Id)
    ensures C.UnsettledCount(C.WithUnsettled(db, a), b) == C.UnsettledCount(db, b) + if b == a then 1 else 0
  {
  }

  // ----- Over whole runs -----

  /** The step settles the attempt of `b` in a state where that fails. */
  ghost predicate Fails(db: Db, step: Step, b: Id) {
    step == SettleAttempt(b) && b in db.assignments && !Settles(db, b, false)
  }

  ghost function Failures(db: Db, percent: real, steps: seq<Step>, b: Id): nat
    requires LegalRun(db, percent, steps)
    decreases |steps|
  {
    if steps == [] then 0
    else (if Fails(db, steps[0], b) then 1 else 0) + Failures(Apply(db, percent, steps[0]), percent, steps[1..], b)
  }

  lemma {:induction false} StepCounts(db: Db, percent: real, step: Step, b: Id)
    requires Legal(db, step)
    ensures C.UnsettledCount(Apply(db, percent, step), b) == C.UnsettledCount(db, b) + if Fails(db, step, b) then 1 else 0
  {
    hide Apply, Legal, Settles;
    if IsCallStep(step) {
      CallStepsTouchCalls(db, percent, step);
    } else if IsAssignment(step) {
      AssignStepLeavesCalls(db, percent, step);
    } else if step.SettleAttempt? {
      SettleAttemptApplies(db, percent, step.assignment);
      if step.assignment in db.assignments {
        FailsExactly(db, percent, step.assignment, b);
      }
    } else {
      OtherStepsLeaveAssignments(db, percent, step);
    }
  }

  /** What is outstanding for an assignment after any run is what was before and one for each
      settlement that failed: it grows exactly by those, and nothing lowers it. */
  lemma {:induction false} FailuresCount(db: Db, percent: real, steps: seq<Step>, b: Id)
    requires LegalRun(db, percent, steps)
    ensures C.UnsettledCount(Run(db, percent, steps), b) == C.UnsettledCount(db, b) + Failures(db, percent, steps, b)
    decreases |steps|
  {
    hide Apply, Legal, Fails, C.UnsettledCount;
    if steps != [] {
      StepCounts(db, percent, steps[0], b);
      FailuresCount(Apply(db, percent, steps[0]), percent, steps[1..], b);
    }
  }

  /** A call of the run is ambiguous and has not been reconciled. */
  ghost predicate Unreconciled(db: Db, run: Id) {
    exists c :: c in db.calls && db.calls[c].status.Ambiguous? && AssignmentInRun(db, db.calls[c].assignment, run)
                && !(c in db.failures && db.failures[c].Estimated?)
  }

  lemma {:induction false} UncertainExactly(db: Db, run: Id)
    requires P.CallsSound(db)
    ensures C.Uncertain(db, run) <==>
            Unreconciled(db, run) || exists b :: AssignmentInRun(db, b, run) && C.UnsettledCount(db, b) > 0
  {
    forall c | c in db.calls ensures db.calls[c].status.Ambiguous? <==> c in db.failures {
      assert P.CallRow(db, c, db.calls[c]);
    }
    if C.Uncertain(db, run) {
      if c :| c in db.failures && db.failures[c].Open? && c in db.calls && AssignmentInRun(db, db.calls[c].assignment, run) {
        assert Unreconciled(db, run);
      } else {
        var b :| b in db.unsettled && db.unsettled[b] > 0 && AssignmentInRun(db, b, run);
        assert C.UnsettledCount(db, b) > 0;
      }
    }
  }

  lemma {:induction false} RefusesUncertainty(db: Db, a: Id, key: Id, call: Id, run: Id)
    requires AssignmentInRun(db, a, run) && !C.KeyUsed(db, a, key)
    ensures C.BeginCall(db, a, key, call) == Err(C.OpenFailure) <==> C.Uncertain(db, run)
  {
    hide C.Uncertain, C.KeyUsed, C.Observed, C.NextOrdinal;
  }

  /** Whatever has happened to a new journal, a call with a new key is refused for an open failure
      exactly when some call of its run is ambiguous and not reconciled, or a settlement in its run
      failed at any time before. */
  lemma {:induction false} RefusedExactly(percent: real, steps: seq<Step>, a: Id, key: Id, call: Id, run: Id)
    requires LegalRun(EMPTY, percent, steps)
    requires AssignmentInRun(Run(EMPTY, percent, steps), a, run) && !C.KeyUsed(Run(EMPTY, percent, steps), a, key)
    ensures var later := Run(EMPTY, percent, steps);
      C.BeginCall(later, a, key, call) == Err(C.OpenFailure) <==>
      Unreconciled(later, run) || exists b :: AssignmentInRun(later, b, run) && Failures(EMPTY, percent, steps, b) > 0
  {
    hide *;
    var later := Run(EMPTY, percent, steps);
    FromTheStart(percent, steps);
    SoundParts(later);
    forall b ensures C.UnsettledCount(later, b) == Failures(EMPTY, percent, steps, b) {
      FailuresCount(EMPTY, percent, steps, b);
      NothingOutstanding(b);
    }
    UncertainExactly(later, run);
    RefusesUncertainty(later, a, key, call, run);
  }

  lemma {:induction false} NothingOutstanding(b: Id)
    ensures C.UnsettledCount(EMPTY, b) == 0
  {
  }

  // ----- A settlement that fails -----

  /** One run and one task in two attempts. */
  const CREATED := EMPTY.(
    runs := map[0 := RunRow(0, None)], tasks := map[0 := TaskRow(0, Queued, 0)],
    attempts := map[0 := AttemptRow(0, 1, AttemptAssigned, 0), 1 := AttemptRow(0, 2, AttemptAssigned, 1)])

  function Creation(): seq<Step> {
    [CreateRun(0, None, 0), CreateTask(0, 0, 0), CreateAttempt(0, 0, 1, 0), CreateAttempt(1, 0, 2, 1)]
  }

  /** The first attempt gets a model. A recovery finds that attempt live and the other one dead, and
      releases what the task holds. Then the first attempt ends and is settled. */
  function AfterCreation(): seq<Step> {
    [AssignModel(E.For(0, None), E.OFFER, E.NewIds(0)), Recover(0, {0}), SettleAttempt(0)]
  }

  lemma {:induction false} RunOne(db: Db, percent: real, step: Step, rest: seq<Step>, steps: seq<Step>)
    requires steps == [step] + rest && Legal(db, step) && LegalRun(Apply(db, percent, step), percent, rest)
    ensures LegalRun(db, percent, steps) && Run(db, percent, steps) == Run(Apply(db, percent, step), percent, rest)
  {
    hide Apply, Legal;
    assert steps[0] == step && steps[1..] == rest;
  }

  lemma {:induction false} RunBoth(db: Db, percent: real, first: seq<Step>, rest: seq<Step>)
    requires LegalRun(db, percent, first) && LegalRun(Run(db, percent, first), percent, rest)
    ensures LegalRun(db, percent, first + rest)
    ensures Run(db, percent, first + rest) == Run(Run(db, percent, first), percent, rest)
    decreases |first|
  {
    hide Apply, Legal;
    if first == [] {
      assert first + rest == rest;
    } else {
      var step := first[0];
      RunBoth(Apply(db, percent, step), percent, first[1..], rest);
      RunOne(db, percent, step, first[1..] + rest, first + rest);
    }
  }

  lemma {:induction false} Created(percent: real)
    ensures LegalRun(EMPTY, percent, Creation()) && Run(EMPTY, percent, Creation()) == CREATED
  {
    hide Reserve, Release, Settle, A.AssignOnce, A.AssignBatch, C.SettleAttempt, C.Reconcile, R.Recover;
    var steps := Creation();
    var s1 := Apply(EMPTY, percent, steps[0]);
    var s2 := Apply(s1, percent, steps[1]);
    var s3 := Apply(s2, percent, steps[2]);
    assert Apply(s3, percent, steps[3]) == CREATED;
    hide Apply;
    RunOne(s3, percent, steps[3], [], steps[3..]);
    RunOne(s2, percent, steps[2], steps[3..], steps[2..]);
    RunOne(s1, percent, steps[1], steps[2..], steps[1..]);
    RunOne(EMPTY, percent, steps[0], steps[1..], steps);
  }

  /** What an assignment to the first attempt writes. */
  ghost predicate AssignedTo(db: Db) {
    && db == CREATED.(reservations := db.reservations, assignments := db.assignments, warnings := db.warnings)
    && db.reservations.Keys == {0} && db.reservations[0].task == Some(0) && db.reservations[0].run == 0
    && db.reservations[0].status.Reserved?
    && db.assignments.Keys == {0} && db.assignments[0].attempt == 0 && db.assignments[0].reservation == 0
  }

  lemma {:induction false} CreatedFacts()
    ensures var db, q := CREATED, E.For(0, None);
      && Funded(db) && A.Owned(db, q) && A.ExistingFor(db.assignments, q.attempt, q.fallbackOf).None?
      && FreshIds(db, E.NewIds(0)) && LimitOf(db, 0).None? && TaskCommitted(db, 0, 0) == 0.0
      && A.WithBaseline(db, q) == q && A.SourceOf(db, q) == Ok(None)
  {
    E.NothingCommitted(CREATED, 0, 0);
  }

  lemma {:induction false} CreatedIsAssigned(percent: real)
    ensures var r := A.AssignOnce(CREATED, percent, E.For(0, None), E.OFFER, E.NewIds(0));
      r.Ok? && r.value.1.Assigned? && AssignedTo(r.value.0)
  {
    var db, q, ids := CREATED, E.For(0, None), E.NewIds(0);
    CreatedFacts();
    assert A.FundsFor(db, q, None) == Some(10.0) by {
      AvailableIsUncommitted(db, 0);
    }
    hide A.FundsFor, Funded, FreshIds, A.Owned, A.ExistingFor, A.AssignOnce, TaskCommitted, AssignedTo;
    E.ItIsAssigned(db, percent, q, ids);
    var r := A.AssignOnce(db, percent, q, E.OFFER, ids).value;
    AssignAnatomy(db, percent, q, E.OFFER, ids, r.0, r.1);
    var source, c := NewAssignmentAnatomy(db, percent, q, E.OFFER, ids, r.0, r.1);
    PersistedIsAssigned(percent, c, r.0);
  }

  lemma {:induction false} PersistedIsAssigned(percent: real, c: S.Candidate, after: Db)
    requires A.Persist(CREATED, percent, E.For(0, None), c, E.NewIds(0)) == Ok(after)
    ensures AssignedTo(after)
  {
    hide UpdateWarning;
    var db, q, ids := CREATED, E.For(0, None), E.NewIds(0);
    CreatedFacts();
    var booked, warned := PersistAnatomy(db, percent, q, c, ids, after);
    BookedAnatomy(db, percent, A.Booking(q, c, ids), q.taskLimit, 0.0, booked, warned);
    WarningOnly(Inserted(db, A.Booking(q, c, ids)), percent, q.run);
  }

  /** The recovery releases the reservation of the live attempt. */
  lemma {:induction false} RecoveryReleases(db: Db)
    requires AssignedTo(db)
    ensures var after := R.Recover(db, 0, {0});
      && R.Active(after, 0, 0) && after.assignments == db.assignments && after.tasks.Keys == {0} && after.tasks[0].run == 0
      && 0 in after.reservations && after.reservations[0].status.Released? && after.usage == map[]
      && after.calls == map[] && after.unsettled == map[]
  {
    var after := R.Recover(db, 0, {0});
    assert R.Active(db, 1, 0) && 1 in R.Dead(db, 0, {0}) && 0 !in R.Dead(db, 0, {0});
    assert 0 in R.TasksOf(db, R.Dead(db, 0, {0}));
    assert !R.AwaitsAnswer(db, 0, 0);
    R.ReleasesExactlyTheOrphans(db, 0, {0}, after, 0);
    hide R.Releasable, R.Dead, R.ReleasedFor;
    R.RecoverAnatomy(db, 0, {0}, after);
  }

  lemma {:induction false} ReleasedFails(db: Db, percent: real)
    requires R.Active(db, 0, 0) && 0 in db.assignments && db.assignments[0].attempt == 0 && db.assignments[0].reservation == 0
    requires 0 in db.tasks && db.tasks[0].run == 0 && db.attempts[0].task == 0
    requires 0 in db.reservations && db.reservations[0].status.Released? && db.usage == map[] && db.calls == map[]
    ensures var after := C.SettleAttempt(db, percent, 0);
      && !Settles(db, 0, false) && after.1.Some? && AssignmentInRun(after.0, 0, 0)
      && forall key, call :: C.BeginCall(after.0, 0, key, call) == Err(C.OpenFailure)
  {
    hide C.SettledCost;
    SettlesExactly(db, percent, 0, false);
    var after := C.SettleAttempt(db, percent, 0).0;
    hide C.SettleUsage;
    assert after == C.WithUnsettled(db, 0);
    assert C.Uncertain(after, 0);
    forall key, call ensures C.BeginCall(after, 0, key, call) == Err(C.OpenFailure) {
      RefusesUncertainty(after, 0, key, call, 0);
    }
  }

  /** From a new journal on: the settlement of the live attempt fails, and no call of the run begins. */
  lemma {:induction false} RecoveredThenSettled(percent: real)
    ensures LegalRun(EMPTY, percent, Creation() + AfterCreation())
    ensures var later := Run(EMPTY, percent, Creation() + AfterCreation());
      && Failures(EMPTY, percent, Creation() + AfterCreation(), 0) == 1 && AssignmentInRun(later, 0, 0)
      && forall key, call :: C.BeginCall(later, 0, key, call) == Err(C.OpenFailure)
  {
    hide *;
    Created(percent);
    EndsUnsettled(percent);
    RunBoth(EMPTY, percent, Creation(), AfterCreation());
    FailuresCount(EMPTY, percent, Creation() + AfterCreation(), 0);
    NothingOutstanding(0);
  }

  lemma {:induction false} EndsUnsettled(percent: real)
    ensures LegalRun(CREATED, percent, AfterCreation())
    ensures var later := Run(CREATED, percent, AfterCreation());
      && C.UnsettledCount(later, 0) == 1 && AssignmentInRun(later, 0, 0)
      && forall key, call :: C.BeginCall(later, 0, key, call) == Err(C.OpenFailure)
  {
    hide *;
    CreatedIsAssigned(percent);
    var assign, recover, settle := AssignModel(E.For(0, None), E.OFFER, E.NewIds(0)), Recover(0, {0}), SettleAttempt(0);
    var s1 := A.AssignOnce(CREATED, percent, E.For(0, None), E.OFFER, E.NewIds(0)).value.0;
    var s2 := R.Recover(s1, 0, {0});
    RecoveryReleases(s1);
    RecoveredOwners(s1);
    ReleasedFails(s2, percent);
    FailsExactly(s2, percent, 0, 0);
    NothingYet(s2);
    AssignStepIs(CREATED, percent, E.For(0, None), E.OFFER, E.NewIds(0));
    RecoverApplies(s1, percent, 0, {0});
    SettleAttemptApplies(s2, percent, 0);
    NoSteps(C.SettleAttempt(s2, percent, 0).0, percent);
    RunOne(s2, percent, settle, [], [settle]);
    RunOne(s1, percent, recover, [settle], [recover, settle]);
    RunOne(CREATED, percent, assign, [recover, settle], [assign, recover, settle]);
    StepsAre();
  }

  lemma {:induction false} StepsAre()
    ensures AfterCreation() == [AssignModel(E.For(0, None), E.OFFER, E.NewIds(0)), Recover(0, {0}), SettleAttempt(0)]
  {
  }

  lemma {:induction false} NoSteps(db: Db, percent: real)
    ensures LegalRun(db, percent, []) && Run(db, percent, []) == db
  {
  }

  lemma {:induction false} NothingYet(db: Db)
    requires db.unsettled == map[]
    ensures C.UnsettledCount(db, 0) == 0
  {
  }

  lemma {:induction false} RecoveredOwners(db: Db)
    requires AssignedTo(db)
    ensures var after := R.Recover(db, 0, {0});
      && 0 in after.assignments && after.assignments[0].attempt == 0 && after.assignments[0].reservation == 0
      && 0 in after.attempts && after.attempts[0].task == 0
  {
    var after := R.Recover(db, 0, {0});
    hide R.Releasable, R.Dead, R.ReleasedFor, R.Orphans;
    R.RecoverAnatomy(db, 0, {0}, after);
  }
}
