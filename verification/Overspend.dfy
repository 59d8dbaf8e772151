/** How far a run can go over its limit: by what its settlements cost beyond what was held or
    recorded for them before, and by nothing else. */
module Overspending {
  import opened Prelude
  import opened Journals
  import opened Ledgers
  import A = Assignments
  import S = Selector
  import Ch = Chains
  import B = Batches
  import C = Calls
  import N = Reconciliations
  import R = Recoveries
  import opened Histories

  /** A step that takes a run at most to its limit. */
  ghost predicate Bounded(db: Db, after: Db, run: Id) {
    LimitOf(db, run).Some? ==>
      LimitOf(after, run) == LimitOf(db, run) && Committed(after, run) <= Max(LimitOf(db, run).value, Committed(db, run))
  }

  lemma {:induction false} BoundedTransitive(a: Db, b: Db, c: Db, run: Id)
    requires Bounded(a, b, run) && Bounded(b, c, run)
    ensures Bounded(a, c, run)
  {
    hide Committed;
  }

  lemma {:induction false} SameMoney(db: Db, after: Db, run: Id)
    requires after.reservations == db.reservations && after.usage == db.usage
    requires LimitOf(db, run).Some? ==> LimitOf(after, run) == LimitOf(db, run)
    ensures Bounded(db, after, run) && Committed(after, run) == Committed(db, run)
  {
    B.SameCommitted(after, db, run);
  }

  lemma {:induction false} LessMoney(db: Db, after: Db, run: Id)
    requires Committed(after, run) <= Committed(db, run) && after.runs == db.runs
    ensures Bounded(db, after, run)
  {
    hide Committed;
  }

  /** A reservation goes over the limit only by a negative allowance. */
  lemma {:induction false} ReserveBound(db: Db, percent: real, q: ReservationRequest, taskLimit: Option<real>, lead: real, after: Db, warned: bool, run: Id)
    requires Reserve(db, percent, q, taskLimit, lead) == Ok((after, warned))
    ensures LimitOf(after, run) == LimitOf(db, run)
    ensures LimitOf(db, run).Some? ==>
      Committed(after, run) <= Max(LimitOf(db, run).value, Committed(db, run)) + if q.run == run then Max(0.0, 0.0 - lead) else 0.0
  {
    hide Committed, UpdateWarning, Reserve;
    if KeyTaken(db, q.key) {
      ReplayChangesNothing(db, percent, q, taskLimit, lead, after, warned);
    } else {
      BookedAnatomy(db, percent, q, taskLimit, lead, after, warned);
      WarningOnly(Inserted(db, q), percent, q.run);
      InsertCommits(db, q, run);
      B.SameCommitted(after, Inserted(db, q), run);
      if q.run == run {
        ReserveFits(db, percent, q, taskLimit, lead, after, warned);
      }
    }
  }

  lemma {:induction false} ReplayChangesNothing(db: Db, percent: real, q: ReservationRequest, taskLimit: Option<real>, lead: real, after: Db, warned: bool)
    requires Reserve(db, percent, q, taskLimit, lead) == Ok((after, warned)) && KeyTaken(db, q.key)
    ensures after == db
  {
  }

  lemma {:induction false} BookingBound(db: Db, percent: real, q: ReservationRequest, taskLimit: Option<real>, after: Db, warned: bool, run: Id)
    requires Reserve(db, percent, q, taskLimit, 0.0) == Ok((after, warned))
    ensures Bounded(db, after, run)
  {
    hide Reserve, Committed;
    ReserveBound(db, percent, q, taskLimit, 0.0, after, warned, run);
  }

  lemma {:induction false} PersistBound(db: Db, percent: real, q: A.Request, c: S.Candidate, ids: A.Ids, after: Db, run: Id)
    requires A.Persist(db, percent, q, c, ids) == Ok(after)
    ensures Bounded(db, after, run)
  {
    hide Reserve, A.Persist, Committed;
    var booked, warned := Ch.PersistAnatomy(db, percent, q, c, ids, after);
    BookingBound(db, percent, A.Booking(q, c, ids), q.taskLimit, booked, warned, run);
    SameMoney(booked, after, run);
    BoundedTransitive(db, booked, after, run);
  }

  lemma {:induction false} SourceBound(db: Db, percent: real, run: Id, source: Option<A.Source>, after: Db, other: Id)
    requires source.Some? ==> source.value.reservation in db.reservations
    requires after == A.SourceReleased(db, percent, run, source)
    ensures Bounded(db, after, other)
  {
    hide UpdateWarning, Committed;
    if source.Some? && source.value.open {
      var freed := Freed(db, source.value.reservation);
      WarningOnly(freed, percent, run);
      FreeUncommits(db, source.value.reservation, other);
      B.SameCommitted(after, freed, other);
      LessMoney(db, after, other);
    } else {
      SameMoney(db, after, other);
    }
  }

  lemma {:induction false} AssignBound(db: Db, percent: real, q: A.Request, offer: A.RoutingSnapshot, ids: A.Ids, after: Db, answer: A.Answer, run: Id)
    requires A.AssignOnce(db, percent, q, offer, ids) == Ok((after, answer))
    ensures Bounded(db, after, run)
  {
    hide *;
    Ch.AssignAnatomy(db, percent, q, offer, ids, after, answer);
    if after == db {
      SameMoney(db, after, run);
    } else {
      var r := A.WithBaseline(db, q);
      var source, c := Ch.NewAssignmentAnatomy(db, percent, r, offer, ids, after, answer);
      var mid := A.SourceReleased(db, percent, r.run, source);
      SourceBound(db, percent, r.run, source, mid, run);
      PersistBound(mid, percent, r, c, ids, after, run);
      BoundedTransitive(db, mid, after, run);
    }
  }

  lemma {:induction false} PersistAllBound(db: Db, percent: real, choices: seq<A.Choice>, after: Db, run: Id)
    requires A.PersistAll(db, percent, choices) == Ok(after)
    ensures Bounded(db, after, run)
    decreases |choices|
  {
    hide A.Persist, Bounded;
    if choices == [] {
      SameMoney(db, after, run);
    } else {
      var next := A.Persist(db, percent, choices[0].request, choices[0].candidate, choices[0].ids).value;
      PersistBound(db, percent, choices[0].request, choices[0].candidate, choices[0].ids, next, run);
      PersistAllBound(next, percent, choices[1..], after, run);
      BoundedTransitive(db, next, after, run);
    }
  }

  lemma {:induction false} CommitBound(db: Db, percent: real, of: Id, choices: seq<A.Choice>, lead: real, leadId: Id, after: Db, run: Id)
    requires A.Commit(db, percent, of, choices, lead, leadId) == Ok(after)
    ensures Bounded(db, after, run)
  {
    hide Reserve, A.PersistAll, Bounded;
    var lent := Reserve(db, percent, A.LeadBooking(of, lead, leadId), None, 0.0).value;
    BookingBound(db, percent, A.LeadBooking(of, lead, leadId), None, lent.0, lent.1, run);
    PersistAllBound(lent.0, percent, choices, after, run);
    BoundedTransitive(db, lent.0, after, run);
  }

  lemma {:induction false} BatchBound(db: Db, percent: real, qs: seq<A.Request>, offers: seq<A.RoutingSnapshot>, ids: seq<A.Ids>, lead: real, leadId: Id,
                   after: Db, answer: Batch, run: Id)
    requires |offers| == |qs| == |ids| && A.AssignBatch(db, percent, qs, offers, ids, lead, leadId) == Ok((after, answer))
    ensures Bounded(db, after, run)
  {
    hide *;
    SameMoney(db, db, run);
    if qs == [] || A.AttemptsOf(qs) in db.batches {
      B.BatchReplays(db, percent, qs, offers, ids, lead, leadId);
    } else {
      B.BatchAnatomy(db, percent, qs, offers, ids, lead, leadId);
      if answer.lead.Some? {
        var choices := A.BatchChoices(db, qs, offers, ids, lead).value.chosen;
        var booked := A.Commit(db, percent, qs[0].run, choices, lead, leadId).value;
        CommitBound(db, percent, qs[0].run, choices, lead, leadId, booked, run);
        BatchRowOnly(booked, after, run);
        BoundedTransitive(db, booked, after, run);
      }
    }
  }

  lemma {:induction false} BatchRowOnly(booked: Db, after: Db, run: Id)
    requires after == booked.(batches := after.batches)
    ensures Bounded(booked, after, run)
  {
    SameMoney(booked, after, run);
  }

  // ----- Debt -----

  /** By how much the usage recorded for a reservation exceeds what was held or recorded before. */
  function Overrun(db: Db, after: Db, r: Id, run: Id): Money {
    if r in db.reservations && db.reservations[r].run == run && r in after.usage then
      Max(0.0, after.usage[r].amount - Prior(BooksOf(db), r))
    else 0.0
  }

  /** The reservation that a step may settle. */
  function Touched(db: Db, step: Step): Option<Id> {
    match step
    case SettleMoney(r, _, _, _, _) => Some(r)
    case SettleAttempt(a) => if a in db.assignments then Some(db.assignments[a].reservation) else None
    case Reconcile(_, c) =>
      if c in db.calls && db.calls[c].assignment in db.assignments then
        Some(db.assignments[db.calls[c].assignment].reservation)
      else None
    case _ => None
  }

  /** What a step may take a run over its limit. A negative allowance, which no caller passes, counts too. */
  function Debt(db: Db, percent: real, step: Step, run: Id): Money
    requires Legal(db, step)
  {
    match Touched(db, step)
    case Some(r) => Overrun(db, Apply(db, percent, step), r, run)
    case None => if step.ReserveMoney? && step.booking.run == run then Max(0.0, 0.0 - step.lead) else 0.0
  }

  lemma {:induction false} SettleBound(db: Db, percent: real, r: Id, usageId: Id, cost: Option<Money>, authority: Authority, key: Id, after: Db, run: Id)
    requires BooksOf(db).Matched()
    ensures Settle(db, percent, r, usageId, cost, authority, key) == Ok(after) ==>
      after.runs == db.runs && Committed(after, run) <= Committed(db, run) + Overrun(db, after, r, run)
  {
    hide Settle, SettleBooks, Books.Matched, Sum;
    if Settle(db, percent, r, usageId, cost, authority, key) == Ok(after) {
      SettleAnatomy(db, percent, r, usageId, cost, authority, key, after);
      SettlesTheCost(BooksOf(db), r, usageId, cost.value, authority, key, BooksOf(after));
      SettleCommits(BooksOf(db), r, usageId, cost.value, authority, key, run, BooksOf(after));
    }
  }

  lemma {:induction false} SettleAnatomy(db: Db, percent: real, r: Id, usageId: Id, cost: Option<Money>, authority: Authority, key: Id, after: Db)
    requires Settle(db, percent, r, usageId, cost, authority, key) == Ok(after)
    ensures r in db.reservations && cost.Some? && after.runs == db.runs
    ensures SettleBooks(BooksOf(db), r, usageId, cost.value, authority, key) == Ok(BooksOf(after))
  {
    hide UpdateWarning, SettleBooks;
    var books := SettleBooks(BooksOf(db), r, usageId, cost.value, authority, key).value;
    if books != BooksOf(db) {
      WarningOnly(WithBooks(db, books), percent, db.reservations[r].run);
    }
  }

  lemma {:induction false} SettlesTheCost(b: Books, r: Id, usageId: Id, cost: Money, authority: Authority, key: Id, after: Books)
    requires r in b.reservations && SettleBooks(b, r, usageId, cost, authority, key) == Ok(after)
    ensures r in after.usage && after.usage[r].amount == cost
  {
  }

  // ----- Every step, every run -----

  lemma {:induction false} SettleUsageBound(db: Db, percent: real, a: Id, reconciled: bool, after: Db, run: Id)
    requires Sound(db) && a in db.assignments
    ensures C.SettleUsage(db, percent, a, reconciled) == Ok(after) ==>
      after.runs == db.runs && Committed(after, run) <= Committed(db, run) + Overrun(db, after, db.assignments[a].reservation, run)
  {
    hide Sound, Settle, Books.Matched, C.SettledCost, C.SettledAuthority, Overrun, Committed;
    SoundParts(db);
    SettleBound(db, percent, db.assignments[a].reservation, a, Some(C.SettledCost(db, a)), C.SettledAuthority(db, a, reconciled), a, after, run);
  }

  lemma {:induction false} ReconcileBound(db: Db, percent: real, session: Id, c: Id, after: Db, result: C.Reconciliation, run: Id)
    requires Sound(db)
    ensures C.Reconcile(db, percent, session, c) == Ok((after, result)) ==>
      && result.assignment in db.assignments && C.CallOf(db, c, result.assignment) && after.runs == db.runs
      && Committed(after, run) <= Committed(db, run) + Overrun(db, after, db.assignments[result.assignment].reservation, run)
  {
    hide Sound, C.Reconcile, C.SettleUsage, N.NothingOpen, N.IsSettled, N.EstimateOf, C.ReconciliationState, Committed;
    if C.Reconcile(db, percent, session, c) == Ok((after, result)) {
      N.ReconcileAnatomy(db, percent, session, c, after, result);
      var a := result.assignment;
      if !N.IsSettled(db, a) {
        var marked := C.Estimate(db, c);
        SameMoney(db, marked, run);
        EstimateKeepsSound(db, c, marked);
        if N.NothingOpen(marked, a) {
          SettleUsageBound(marked, percent, a, true, after, run);
        }
      }
    }
  }

  /** A step that does not touch the ledger. */
  lemma {:induction false} UntouchedMoney(db: Db, percent: real, step: Step)
    requires Legal(db, step) && (IsCallStep(step) || IsCreation(step))
    ensures var after := Apply(db, percent, step); after.reservations == db.reservations && after.usage == db.usage
  {
    hide *;
    if IsCallStep(step) {
      CallStepsTouchCalls(db, percent, step);
    } else {
      CreationIsCreated(db, percent, step);
    }
  }

  lemma {:induction false} CreationIsCreated(db: Db, percent: real, step: Step)
    requires IsCreation(step)
    ensures var after := Apply(db, percent, step); after.reservations == db.reservations && after.usage == db.usage
  {
    hide Reserve, Release, Settle, A.AssignOnce, A.AssignBatch, C.SettleAttempt, C.Reconcile, R.Recover, Created, C.MarkUnreturned;
  }

  lemma {:induction false} LimitStays(db: Db, after: Db, run: Id)
    requires Evolves(db, after) && run in db.runs
    ensures run in after.runs && LimitOf(after, run) == LimitOf(db, run)
  {
    hide Ch.AssignmentsKept;
    assert after.runs[run] == db.runs[run];
  }

  ghost predicate WithinDebt(db: Db, after: Db, run: Id, debt: Money) {
    LimitOf(db, run).Some? ==> Committed(after, run) <= Max(LimitOf(db, run).value, Committed(db, run)) + debt
  }

  lemma {:induction false} MoneyStepBound(db: Db, percent: real, step: Step, run: Id)
    requires Sound(db) && Legal(db, step) && (step.ReserveMoney? || step.ReleaseMoney? || step.SettleMoney?)
    ensures WithinDebt(db, Apply(db, percent, step), run, Debt(db, percent, step, run))
  {
    hide Sound, Reserve, Release, Settle, Books.Matched, Committed, Overrun;
    SoundParts(db);
    var after := Apply(db, percent, step);
    match step
    case ReserveMoney(q, taskLimit, lead) =>
      var r := Reserve(db, percent, q, taskLimit, lead);
      if r.Ok? { ReserveBound(db, percent, q, taskLimit, lead, r.value.0, r.value.1, run); }
    case ReleaseMoney(id) =>
      if Release(db, percent, id).Ok? { ReleaseBound(db, percent, id, after, run); }
    case SettleMoney(id, usage, cost, authority, key) =>
      if Settle(db, percent, id, usage, cost, authority, key).Ok? {
        SettleBound(db, percent, id, usage, cost, authority, key, after, run);
      }
  }

  lemma {:induction false} ReleaseBound(db: Db, percent: real, r: Id, after: Db, run: Id)
    requires Release(db, percent, r) == Ok(after)
    ensures Committed(after, run) <= Committed(db, run)
  {
    hide UpdateWarning, Committed;
    if db.reservations[r].status.Reserved? {
      WarningOnly(Freed(db, r), percent, db.reservations[r].run);
      FreeUncommits(db, r, run);
      B.SameCommitted(after, Freed(db, r), run);
    }
  }

  lemma {:induction false} AssignStepBound(db: Db, percent: real, step: Step, run: Id)
    requires Legal(db, step) && (step.AssignModel? || step.AssignModels?)
    ensures Bounded(db, Apply(db, percent, step), run)
  {
    hide A.AssignOnce, A.AssignBatch, Bounded;
    SameMoney(db, db, run);
    match step
    case AssignModel(q, offer, ids) =>
      var r := A.AssignOnce(db, percent, q, offer, ids);
      if r.Ok? { AssignBound(db, percent, q, offer, ids, r.value.0, r.value.1, run); }
    case AssignModels(qs, offers, ids, lead, leadId) =>
      var r := A.AssignBatch(db, percent, qs, offers, ids, lead, leadId);
      if r.Ok? { BatchBound(db, percent, qs, offers, ids, lead, leadId, r.value.0, r.value.1, run); }
  }

  lemma {:induction false} SettleAttemptBound(db: Db, percent: real, a: Id, run: Id)
    requires Sound(db)
    ensures WithinDebt(db, Apply(db, percent, SettleAttempt(a)), run, Debt(db, percent, SettleAttempt(a), run))
  {
    hide Sound, C.SettleUsage, Committed, Overrun;
    if a in db.assignments {
      var r := C.SettleUsage(db, percent, a, false);
      if r.Ok? {
        SettleUsageBound(db, percent, a, false, r.value, run);
      } else {
        SameMoney(db, C.WithUnsettled(db, a), run);
      }
    }
  }

  lemma {:induction false} ReconcileStepBound(db: Db, percent: real, session: Id, c: Id, run: Id)
    requires Sound(db)
    ensures WithinDebt(db, Apply(db, percent, Reconcile(session, c)), run, Debt(db, percent, Reconcile(session, c), run))
  {
    hide Sound, C.Reconcile, Committed, Overrun;
    var r := C.Reconcile(db, percent, session, c);
    if r.Ok? {
      ReconcileBound(db, percent, session, c, r.value.0, r.value.1, run);
    }
  }

  lemma {:induction false} RecoverBound(db: Db, percent: real, session: Id, live: set<Id>, run: Id)
    ensures WithinDebt(db, Apply(db, percent, Recover(session, live)), run, Debt(db, percent, Recover(session, live), run))
  {
    hide R.Recover, Committed;
    R.RecoveryFreesMoney(db, session, live, R.Recover(db, session, live), run);
  }

  /** One step takes a run over its limit by no more than the step's debt. */
  lemma {:induction false} StepBound(db: Db, percent: real, step: Step, run: Id)
    requires Sound(db) && Legal(db, step)
    ensures WithinDebt(db, Apply(db, percent, step), run, Debt(db, percent, step, run))
  {
    hide Sound, Apply, Debt, Committed, Legal;
    if step.ReserveMoney? || step.ReleaseMoney? || step.SettleMoney? {
      MoneyStepBound(db, percent, step, run);
    } else if step.AssignModel? || step.AssignModels? {
      AssignStepBound(db, percent, step, run);
    } else if step.SettleAttempt? {
      SettleAttemptBound(db, percent, step.assignment, run);
    } else if step.Reconcile? {
      ReconcileStepBound(db, percent, step.session, step.call, run);
    } else if step.Recover? {
      RecoverBound(db, percent, step.session, step.live, run);
    } else {
      UntouchedMoney(db, percent, step);
      B.SameCommitted(Apply(db, percent, step), db, run);
    }
  }

  ghost function TotalDebt(db: Db, percent: real, steps: seq<Step>, run: Id): Money
    requires LegalRun(db, percent, steps)
    decreases |steps|
  {
    if steps == [] then 0.0
    else Debt(db, percent, steps[0], run) + TotalDebt(Apply(db, percent, steps[0]), percent, steps[1..], run)
  }

  /** Over any run of the system, what a run has committed stays within its limit, or within what it
      had already committed, up to the debt of the steps. */
  lemma {:induction false} RunBound(db: Db, percent: real, steps: seq<Step>, run: Id)
    requires Sound(db) && LegalRun(db, percent, steps) && run in db.runs
    ensures WithinDebt(db, Run(db, percent, steps), run, TotalDebt(db, percent, steps, run))
    decreases |steps|
  {
    hide Sound, Evolves, Apply, Debt, Committed, Legal;
    if steps != [] {
      var next := Apply(db, percent, steps[0]);
      StepBound(db, percent, steps[0], run);
      StepKeepsSound(db, percent, steps[0]);
      LimitStays(db, next, run);
      RunBound(next, percent, steps[1..], run);
    }
  }

  /** Seen from the ledger: what is available falls below zero by no more than the debt. */
  lemma {:induction false} AvailableBound(db: Db, percent: real, steps: seq<Step>, run: Id)
    requires Sound(db) && LegalRun(db, percent, steps) && run in db.runs && db.runs[run].limit.Some?
    ensures SnapshotOf(db, run).available.Some? && SnapshotOf(Run(db, percent, steps), run).available.Some?
    ensures SnapshotOf(Run(db, percent, steps), run).available.value >=
            Min(0.0, SnapshotOf(db, run).available.value) - TotalDebt(db, percent, steps, run)
  {
    hide Sound, Evolves, Run, TotalDebt, Committed, LegalRun, SnapshotOf;
    RunBound(db, percent, steps, run);
    RunKeepsSound(db, percent, steps);
    LimitStays(db, Run(db, percent, steps), run);
    AvailableIsUncommitted(db, run);
    AvailableIsUncommitted(Run(db, percent, steps), run);
  }

  /** A run that does not exist yet has nothing committed. */
  lemma {:induction false} NothingCommittedYet(db: Db, run: Id)
    requires LedgerInv(db) && run !in db.runs
    ensures Committed(db, run) == 0.0
  {
    forall r | r in db.reservations ensures Charges(BooksOf(db), run)[r] == 0.0 {
      assert db.reservations[r].run in db.runs;
    }
    CountedOnce(db, run);
    NothingTotals(Charges(BooksOf(db), run));
  }

  lemma {:induction false} NothingTotals(amounts: map<Id, real>)
    requires forall k :: k in amounts ==> amounts[k] == 0.0
    ensures Total(amounts) == 0.0
    decreases |amounts|
  {
    if |amounts.Keys| != 0 {
      NothingTotals(amounts - {Least(amounts.Keys)});
    }
  }

  /** From its creation on, whatever else happens, a run whose settlements never cost more than what
      they replace never commits more than its limit, and otherwise exceeds it by at most the debt. */
  lemma {:induction false} WithinTheLimit(db: Db, percent: real, run: Id, limit: real, session: Id, steps: seq<Step>)
    requires Sound(db) && run !in db.runs
    requires LegalRun(Apply(db, percent, CreateRun(run, Some(limit), session)), percent, steps)
    ensures var created := Apply(db, percent, CreateRun(run, Some(limit), session));
      Committed(Run(created, percent, steps), run) <= Max(limit, 0.0) + TotalDebt(created, percent, steps, run)
  {
    hide Sound, Run, TotalDebt, Committed, LegalRun, Evolves;
    var created := Apply(db, percent, CreateRun(run, Some(limit), session));
    StepKeepsSound(db, percent, CreateRun(run, Some(limit), session));
    SoundParts(db);
    NothingCommittedYet(db, run);
    B.SameCommitted(created, db, run);
    RunBound(created, percent, steps, run);
  }

  lemma {:induction false} AppearsEmpty(db: Db, percent: real, step: Step, run: Id)
    requires Sound(db) && Legal(db, step) && run !in db.runs && run in Apply(db, percent, step).runs
    ensures Committed(Apply(db, percent, step), run) == 0.0
  {
    hide *;
    SoundParts(db);
    NothingCommittedYet(db, run);
    if step.CreateRun? {
      CreatesRun(step);
      UntouchedMoney(db, percent, step);
      B.SameCommitted(Apply(db, percent, step), db, run);
    } else {
      RunsAreSame(db, percent, step);
    }
  }

  lemma {:induction false} CreatesRun(step: Step)
    requires step.CreateRun?
    ensures IsCreation(step)
  {
  }

  /** A run that is created somewhere along the way. */
  lemma {:induction false} BoundOnceCreated(db: Db, percent: real, steps: seq<Step>, run: Id)
    requires Sound(db) && LegalRun(db, percent, steps) && run !in db.runs
    ensures var later := Run(db, percent, steps);
      LimitOf(later, run).Some? ==> Committed(later, run) <= Max(LimitOf(later, run).value, 0.0) + TotalDebt(db, percent, steps, run)
    decreases |steps|
  {
    hide Sound, Evolves, Apply, Debt, Committed, Legal;
    if steps != [] {
      var next := Apply(db, percent, steps[0]);
      StepKeepsSound(db, percent, steps[0]);
      if run in next.runs {
        AppearsEmpty(db, percent, steps[0], run);
        RunBound(next, percent, steps[1..], run);
        RunKeepsSound(next, percent, steps[1..]);
        LimitStays(next, Run(next, percent, steps[1..]), run);
      } else {
        BoundOnceCreated(next, percent, steps[1..], run);
      }
    }
  }

  /** In everything that can happen to a new journal, a run has never committed more than its limit
      and the debt of the steps taken. */
  lemma {:induction false} EveryRunWithinItsLimit(percent: real, steps: seq<Step>, run: Id)
    requires LegalRun(EMPTY, percent, steps)
    ensures var later := Run(EMPTY, percent, steps);
      LimitOf(later, run).Some? ==> Committed(later, run) <= Max(LimitOf(later, run).value, 0.0) + TotalDebt(EMPTY, percent, steps, run)
  {
    hide Sound, Inv, Run, TotalDebt, LegalRun, Committed, LimitOf;
    EmptyInv();
    BoundOnceCreated(EMPTY, percent, steps, run);
  }
}
