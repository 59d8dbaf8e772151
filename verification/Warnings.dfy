/** The warning rows over whole runs: every transaction but a recovery keeps them current. */
module Warnings {
  import opened Prelude
  import opened Journals
  import opened Ledgers
  import opened Chains
  import A = Assignments
  import S = Selector
  import B = Batches
  import C = Calls
  import N = Reconciliations
  import R = Recoveries
  import opened Histories
  import Overspending

  /** Every warning row belongs to a run, and each run's row says whether it is at its threshold. */
  ghost predicate Current(db: Db, percent: real) {
    WarningsCurrent(db, percent) && db.warnings.Keys <= db.runs.Keys
  }

  predicate SameLedger(db: Db, after: Db) {
    && after.runs == db.runs && after.reservations == db.reservations
    && after.usage == db.usage && after.warnings == db.warnings
  }

  lemma {:induction false} SameLedgerCurrent(db: Db, after: Db, percent: real)
    requires SameLedger(db, after) && Current(db, percent)
    ensures Current(after, percent)
  {
    hide WarningDue;
    forall run | run in after.runs ensures Warned(after, run) == WarningDue(after, percent, run) {
      B.SameCommitted(after, db, run);
      WarningFollowsCommitted(after, db, percent, run);
      assert Warned(db, run) == WarningDue(db, percent, run);
    }
  }

  lemma {:induction false} ReserveCurrent(db: Db, percent: real, q: ReservationRequest, taskLimit: Option<real>, lead: real, after: Db, warned: bool)
    requires Current(db, percent) && Reserve(db, percent, q, taskLimit, lead) == Ok((after, warned))
    ensures Current(after, percent)
  {
    ReserveWarns(db, percent, q, taskLimit, lead, after, warned);
    hide WarningsCurrent, WarningDue, WarningCrossed;
  }

  lemma {:induction false} ReleaseCurrent(db: Db, percent: real, r: Id, after: Db)
    requires Current(db, percent) && LedgerInv(db) && Release(db, percent, r) == Ok(after)
    ensures Current(after, percent)
  {
    ReleaseWarns(db, percent, r, after);
    ReservedInRun(db, r);
    hide WarningsCurrent, WarningDue, LedgerInv;
  }

  lemma {:induction false} ReservedInRun(db: Db, r: Id)
    requires LedgerInv(db) && r in db.reservations
    ensures db.reservations[r].run in db.runs
  {
    assert db.reservations[r].run in db.runs;
  }

  lemma {:induction false} SettleCurrent(db: Db, percent: real, r: Id, usageId: Id, cost: Option<Money>, authority: Authority, key: Id, after: Db)
    requires Current(db, percent) && LedgerInv(db)
    ensures Settle(db, percent, r, usageId, cost, authority, key) == Ok(after) ==> Current(after, percent)
  {
    if Settle(db, percent, r, usageId, cost, authority, key) == Ok(after) {
      SettleWarns(db, percent, r, usageId, cost, authority, key, after);
      ReservedInRun(db, r);
      hide WarningsCurrent, WarningDue, LedgerInv, SettleBooks;
    }
  }

  // ----- Assignments -----

  lemma {:induction false} PersistCurrent(db: Db, percent: real, q: A.Request, c: S.Candidate, ids: A.Ids, after: Db)
    requires Current(db, percent) && A.Persist(db, percent, q, c, ids) == Ok(after)
    ensures Current(after, percent)
  {
    hide Current, A.Persist, Reserve;
    var booked, warned := PersistAnatomy(db, percent, q, c, ids, after);
    ReserveCurrent(db, percent, A.Booking(q, c, ids), q.taskLimit, 0.0, booked, warned);
    SameLedgerCurrent(booked, after, percent);
  }

  lemma {:induction false} SourceCurrent(db: Db, percent: real, q: A.Request, source: Option<A.Source>, mid: Db)
    requires Current(db, percent) && BooksInv(db) && A.Owned(db, q) && A.SourceOf(db, q) == Ok(source)
    requires source.Some? ==> source.value.reservation in db.reservations
    requires mid == A.SourceReleased(db, percent, q.run, source)
    ensures Current(mid, percent)
  {
    hide Current, Funded, LedgerInv, DecidedOnce, A.SourceOf, A.Owned;
    SourceBelongs(db, q, source);
    if source.Some? && source.value.open {
      ReleaseCurrent(db, percent, source.value.reservation, mid);
    }
  }

  lemma {:induction false} AssignCurrent(db: Db, percent: real, q: A.Request, offer: A.RoutingSnapshot, ids: A.Ids, after: Db, answer: A.Answer)
    requires Current(db, percent) && BooksInv(db) && A.AssignOnce(db, percent, q, offer, ids) == Ok((after, answer))
    ensures Current(after, percent)
  {
    hide *;
    AssignAnatomy(db, percent, q, offer, ids, after, answer);
    if after != db {
      var r := A.WithBaseline(db, q);
      var source, c := NewAssignmentAnatomy(db, percent, r, offer, ids, after, answer);
      var mid := A.SourceReleased(db, percent, r.run, source);
      SourceCurrent(db, percent, r, source, mid);
      PersistCurrent(mid, percent, r, c, ids, after);
    }
  }

  lemma {:induction false} PersistAllCurrent(db: Db, percent: real, choices: seq<A.Choice>, after: Db)
    requires Current(db, percent) && A.PersistAll(db, percent, choices) == Ok(after)
    ensures Current(after, percent)
    decreases |choices|
  {
    hide Current, A.Persist;
    if choices != [] {
      var first := choices[0];
      var next := A.Persist(db, percent, first.request, first.candidate, first.ids).value;
      PersistCurrent(db, percent, first.request, first.candidate, first.ids, next);
      PersistAllCurrent(next, percent, choices[1..], after);
    }
  }

  lemma {:induction false} CommitCurrent(db: Db, percent: real, run: Id, choices: seq<A.Choice>, lead: real, leadId: Id, after: Db)
    requires Current(db, percent) && A.Commit(db, percent, run, choices, lead, leadId) == Ok(after)
    ensures Current(after, percent)
  {
    hide Current, Reserve, A.PersistAll;
    var lent := Reserve(db, percent, A.LeadBooking(run, lead, leadId), None, 0.0).value;
    ReserveCurrent(db, percent, A.LeadBooking(run, lead, leadId), None, 0.0, lent.0, lent.1);
    PersistAllCurrent(lent.0, percent, choices, after);
  }

  lemma {:induction false} BatchCurrent(db: Db, percent: real, qs: seq<A.Request>, offers: seq<A.RoutingSnapshot>, ids: seq<A.Ids>, lead: real, leadId: Id,
                                        after: Db, answer: Batch)
    requires Current(db, percent) && |offers| == |qs| == |ids|
    requires A.AssignBatch(db, percent, qs, offers, ids, lead, leadId) == Ok((after, answer))
    ensures Current(after, percent)
  {
    hide *;
    if qs == [] || A.AttemptsOf(qs) in db.batches {
      B.BatchReplays(db, percent, qs, offers, ids, lead, leadId);
    } else {
      B.BatchAnatomy(db, percent, qs, offers, ids, lead, leadId);
      if answer.lead.Some? {
        var choices := A.BatchChoices(db, qs, offers, ids, lead).value.chosen;
        var booked := A.Commit(db, percent, qs[0].run, choices, lead, leadId).value;
        CommitCurrent(db, percent, qs[0].run, choices, lead, leadId, booked);
        BatchRowOnly(booked, after);
        SameLedgerCurrent(booked, after, percent);
      }
    }
  }

  lemma {:induction false} BatchRowOnly(booked: Db, after: Db)
    requires after == booked.(batches := after.batches)
    ensures SameLedger(booked, after)
  {
  }

  // ----- Settlements and creations -----

  lemma {:induction false} SettleUsageCurrent(db: Db, percent: real, a: Id, reconciled: bool, after: Db)
    requires Current(db, percent) && LedgerInv(db) && a in db.assignments
    ensures C.SettleUsage(db, percent, a, reconciled) == Ok(after) ==> Current(after, percent)
  {
    hide Current, Settle, LedgerInv, C.SettledCost, C.SettledAuthority;
    SettleCurrent(db, percent, db.assignments[a].reservation, a, Some(C.SettledCost(db, a)), C.SettledAuthority(db, a, reconciled), a, after);
  }

  lemma {:induction false} SettleAttemptCurrent(db: Db, percent: real, a: Id)
    requires Current(db, percent) && LedgerInv(db)
    ensures Current(C.SettleAttempt(db, percent, a).0, percent)
  {
    hide Current, LedgerInv, C.SettleUsage;
    if a in db.assignments {
      var r := C.SettleUsage(db, percent, a, false);
      if r.Ok? {
        SettleUsageCurrent(db, percent, a, false, r.value);
      } else {
        SameLedgerCurrent(db, C.WithUnsettled(db, a), percent);
      }
    }
  }

  lemma {:induction false} ReconcileCurrent(db: Db, percent: real, session: Id, c: Id, after: Db, result: C.Reconciliation)
    requires Current(db, percent) && Sound(db) && C.Reconcile(db, percent, session, c) == Ok((after, result))
    ensures Current(after, percent)
  {
    hide Current, Sound, C.Reconcile, C.SettleUsage, N.NothingOpen, N.IsSettled, N.EstimateOf, C.ReconciliationState, Evolves, LedgerInv;
    N.ReconcileAnatomy(db, percent, session, c, after, result);
    var a := result.assignment;
    if !N.IsSettled(db, a) {
      var marked := C.Estimate(db, c);
      SameLedgerCurrent(db, marked, percent);
      EstimateKeepsSound(db, c, marked);
      SoundParts(marked);
      if N.NothingOpen(marked, a) {
        SettleUsageCurrent(marked, percent, a, true, after);
      }
    }
  }

  /** A new run is below its threshold, since it has committed nothing. */
  lemma {:induction false} RunCreatedCurrent(db: Db, percent: real, run: Id, row: RunRow, after: Db)
    requires Current(db, percent) && LedgerInv(db) && 0.0 < percent && run !in db.runs
    requires after == db.(runs := db.runs[run := row])
    ensures Current(after, percent)
  {
    hide WarningDue, LedgerInv;
    Overspending.NothingCommittedYet(db, run);
    forall other | other in after.runs ensures Warned(after, other) == WarningDue(after, percent, other) {
      B.SameCommitted(after, db, other);
      if other == run {
        NotDueAtZero(after, percent, run);
      } else {
        WarningFollowsCommitted(after, db, percent, other);
        assert Warned(db, other) == WarningDue(db, percent, other);
      }
    }
  }

  lemma {:induction false} NotDueAtZero(db: Db, percent: real, run: Id)
    requires 0.0 < percent && Committed(db, run) == 0.0
    ensures !WarningDue(db, percent, run)
  {
    AvailableIsUncommitted(db, run);
    if LimitOf(db, run).Some? && LimitOf(db, run).value > 0.0 {
      assert LimitOf(db, run).value * percent > 0.0;
    }
  }

  lemma {:induction false} CreatedCurrent(db: Db, percent: real, step: Step)
    requires Current(db, percent) && LedgerInv(db) && 0.0 < percent && IsCreation(step)
    ensures Current(Created(db, step), percent)
  {
    hide Current, LedgerInv, SameOwners;
    var after := Created(db, step);
    if after != db {
      if step.CreateRun? {
        RunCreatedCurrent(db, percent, step.run, RunRow(step.session, step.limit), after);
      } else {
        CreatedOwners(db, step);
        SameLedgerCurrent(db, after, percent);
      }
    }
  }

  // ----- Every step, every run -----

  lemma {:induction false} MoneyStepCurrent(db: Db, percent: real, step: Step)
    requires Current(db, percent) && Sound(db) && (step.ReserveMoney? || step.ReleaseMoney? || step.SettleMoney?)
    ensures Current(Apply(db, percent, step), percent)
  {
    hide Current, Sound, LedgerInv, Reserve, Release, Settle;
    SoundParts(db);
    var after := Apply(db, percent, step);
    match step
    case ReserveMoney(q, taskLimit, lead) =>
      var r := Reserve(db, percent, q, taskLimit, lead);
      if r.Ok? { ReserveCurrent(db, percent, q, taskLimit, lead, r.value.0, r.value.1); }
    case ReleaseMoney(id) =>
      if Release(db, percent, id).Ok? { ReleaseCurrent(db, percent, id, after); }
    case SettleMoney(id, usage, cost, authority, key) =>
      SettleCurrent(db, percent, id, usage, cost, authority, key, after);
  }

  lemma {:induction false} AssignStepCurrent(db: Db, percent: real, step: Step)
    requires Current(db, percent) && Sound(db) && Legal(db, step) && IsAssignment(step)
    ensures Current(Apply(db, percent, step), percent)
  {
    hide Current, Sound, BooksInv, A.AssignOnce, A.AssignBatch;
    SoundParts(db);
    match step
    case AssignModel(q, offer, ids) =>
      var r := A.AssignOnce(db, percent, q, offer, ids);
      if r.Ok? { AssignCurrent(db, percent, q, offer, ids, r.value.0, r.value.1); }
    case AssignModels(qs, offers, ids, lead, leadId) =>
      var r := A.AssignBatch(db, percent, qs, offers, ids, lead, leadId);
      if r.Ok? { BatchCurrent(db, percent, qs, offers, ids, lead, leadId, r.value.0, r.value.1); }
  }

  lemma {:induction false} AccountingStepCurrent(db: Db, percent: real, step: Step)
    requires Current(db, percent) && Sound(db) && Legal(db, step)
    requires step.SettleAttempt? || step.Reconcile? || IsCallStep(step)
    ensures Current(Apply(db, percent, step), percent)
  {
    hide Current, Sound, LedgerInv, C.SettleAttempt, C.Reconcile, C.BeginCall, C.MarkSucceeded, C.MarkAmbiguous, C.MarkRejected, C.RecordCall,
      C.MarkUnreturned;
    SoundParts(db);
    if step.SettleAttempt? {
      SettleAttemptCurrent(db, percent, step.assignment);
    } else if step.Reconcile? {
      var r := C.Reconcile(db, percent, step.session, step.call);
      if r.Ok? {
        ReconcileCurrent(db, percent, step.session, step.call, r.value.0, r.value.1);
      }
    } else {
      CallStepsTouchCalls(db, percent, step);
      SameLedgerCurrent(db, Apply(db, percent, step), percent);
    }
  }

  /** The condition under which a step keeps the warnings current; only a recovery has one. */
  ghost predicate Keeps(db: Db, percent: real, step: Step) {
    step.Recover? ==>
      forall run :: run in db.runs && R.AtThreshold(db, percent, run, Committed(db, run)) ==>
        R.AtThreshold(db, percent, run, Committed(db, run) - R.Freed(db, step.session, step.live, run))
  }

  lemma {:induction false} CreationCurrent(db: Db, percent: real, step: Step)
    requires Current(db, percent) && Sound(db) && 0.0 < percent && IsCreation(step)
    ensures Current(Apply(db, percent, step), percent)
  {
    hide Current, Sound, Created, LedgerInv;
    SoundParts(db);
    CreatedCurrent(db, percent, step);
  }

  lemma {:induction false} RecoverCurrent(db: Db, percent: real, session: Id, live: set<Id>)
    requires Current(db, percent)
    ensures Current(R.Recover(db, session, live), percent) <==> Keeps(db, percent, Recover(session, live))
  {
    hide R.Recover, WarningsCurrent, R.AtThreshold, R.Freed, Committed;
    var after := R.Recover(db, session, live);
    R.WarningsAfterRecovery(db, percent, session, live, after);
    R.WarningRowsStay(db, session, live, after);
  }

  /** Every transaction keeps the warning rows current, except exactly a recovery that takes a run
      below its threshold. */
  lemma {:induction false} StepWarns(db: Db, percent: real, step: Step)
    requires Current(db, percent) && Sound(db) && 0.0 < percent && Legal(db, step)
    ensures Current(Apply(db, percent, step), percent) <==> Keeps(db, percent, step)
  {
    hide *;
    if step.Recover? {
      RecoverCurrent(db, percent, step.session, step.live);
      RecoverApplies(db, percent, step.session, step.live);
    } else {
      OthersKeep(db, percent, step);
      if IsCreation(step) {
        CreationCurrent(db, percent, step);
      } else if IsAssignment(step) {
        AssignStepCurrent(db, percent, step);
      } else if step.ReserveMoney? || step.ReleaseMoney? || step.SettleMoney? {
        MoneyStepCurrent(db, percent, step);
      } else {
        OtherKinds(step);
        AccountingStepCurrent(db, percent, step);
      }
    }
  }

  lemma {:induction false} OthersKeep(db: Db, percent: real, step: Step)
    requires !step.Recover?
    ensures Keeps(db, percent, step)
  {
  }

  lemma {:induction false} OtherKinds(step: Step)
    requires !IsCreation(step) && !IsAssignment(step) && !step.Recover?
    requires !step.ReserveMoney? && !step.ReleaseMoney? && !step.SettleMoney?
    ensures step.SettleAttempt? || step.Reconcile? || IsCallStep(step)
  {
  }

  /** Over any sequence of steps in which no recovery takes a run below its threshold, each warning row
      says whether its run has reached the threshold. */
  lemma {:induction false} RunWarns(db: Db, percent: real, steps: seq<Step>)
    requires Current(db, percent) && Sound(db) && 0.0 < percent && LegalRun(db, percent, steps)
    requires AllKeep(db, percent, steps)
    ensures Current(Run(db, percent, steps), percent)
    decreases |steps|
  {
    hide Current, Sound, Evolves, Apply, Legal, Keeps;
    if steps != [] {
      StepWarns(db, percent, steps[0]);
      StepKeepsSound(db, percent, steps[0]);
      RunWarns(Apply(db, percent, steps[0]), percent, steps[1..]);
    }
  }

  ghost predicate AllKeep(db: Db, percent: real, steps: seq<Step>)
    requires LegalRun(db, percent, steps)
    decreases |steps|
  {
    steps != [] ==> Keeps(db, percent, steps[0]) && AllKeep(Apply(db, percent, steps[0]), percent, steps[1..])
  }

  /** A run without recoveries. */
  lemma {:induction false} NoRecoveryKeeps(db: Db, percent: real, steps: seq<Step>)
    requires LegalRun(db, percent, steps) && forall step :: step in steps ==> !step.Recover?
    ensures AllKeep(db, percent, steps)
    decreases |steps|
  {
    hide Apply, Legal;
    if steps != [] {
      assert steps[0] in steps;
      NoRecoveryKeeps(Apply(db, percent, steps[0]), percent, steps[1..]);
    }
  }

  /** In everything that happens to a new journal before a recovery, each warning row is current. */
  lemma {:induction false} WarningsFromTheStart(percent: real, steps: seq<Step>)
    requires 0.0 < percent && LegalRun(EMPTY, percent, steps) && forall step :: step in steps ==> !step.Recover?
    ensures Current(Run(EMPTY, percent, steps), percent)
  {
    hide LegalRun, Run, Sound, Inv;
    EmptyInv();
    NoRecoveryKeeps(EMPTY, percent, steps);
    RunWarns(EMPTY, percent, steps);
  }

  /** In everything that happens to a new journal, as long as no recovery takes a run below its
      threshold, a row says exactly whether what the reservations of its run cost, each counted once,
      has reached the given part of the limit. */
  lemma {:induction false} WarningMeaning(percent: real, steps: seq<Step>, run: Id)
    requires 0.0 < percent && LegalRun(EMPTY, percent, steps) && AllKeep(EMPTY, percent, steps)
    ensures var later := Run(EMPTY, percent, steps);
      run in later.runs ==>
        (run in later.warnings && later.warnings[run] <==>
           LimitOf(later, run).Some? && LimitOf(later, run).value > 0.0
           && Total(Charges(BooksOf(later), run)) >= LimitOf(later, run).value * percent)
  {
    hide *;
    var later := Run(EMPTY, percent, steps);
    EmptyCurrent(percent);
    RunWarns(EMPTY, percent, steps);
    RunKeepsSound(EMPTY, percent, steps);
    SoundParts(later);
    if run in later.runs {
      CurrentRow(later, percent, run);
      DueExactly(later, percent, run);
    }
  }

  lemma {:induction false} EmptyCurrent(percent: real)
    ensures Sound(EMPTY) && Current(EMPTY, percent)
  {
    hide Sound, WarningDue;
    EmptyInv();
  }

  lemma {:induction false} CurrentRow(db: Db, percent: real, run: Id)
    requires Current(db, percent) && run in db.runs
    ensures run in db.warnings && db.warnings[run] <==> WarningDue(db, percent, run)
  {
    hide WarningDue;
    assert Warned(db, run) == WarningDue(db, percent, run);
  }

  lemma {:induction false} DueExactly(db: Db, percent: real, run: Id)
    requires BooksOf(db).Matched()
    ensures WarningDue(db, percent, run) <==>
      LimitOf(db, run).Some? && LimitOf(db, run).value > 0.0
      && Total(Charges(BooksOf(db), run)) >= LimitOf(db, run).value * percent
  {
    hide Books.Matched, Charges, Committed;
    CountedOnce(db, run);
    AvailableIsUncommitted(db, run);
  }
}
