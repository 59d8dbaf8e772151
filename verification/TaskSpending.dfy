/** What a task has spent and holds: counted once, bounded by the limit that its requests carry, and
    exceeded only by what settlements cost beyond what they replace. */
module TaskSpending {
  import opened Prelude
  import opened Journals
  import opened Ledgers
  import A = Assignments
  import S = Selector
  import Ch = Chains
  import B = Batches
  import C = Calls
  import N = Reconciliations
  import R = Recoveries
  import O = Overspending
  import opened Histories

  // ----- Counted once -----

  /** What one reservation costs a task of a run. */
  function TaskCharge(b: Books, run: Id, task: Id, r: Id): real
    requires r in b.reservations
  {
    if b.reservations[r].run != run || b.reservations[r].task != Some(task) then 0.0
    else match b.reservations[r].status
      case Reserved => b.reservations[r].amount
      case Released => 0.0
      case Settled => if r in b.usage then b.usage[r].amount else 0.0
  }

  function TaskCharges(b: Books, run: Id, task: Id): map<Id, real> {
    map r | r in b.reservations :: TaskCharge(b, run, task, r)
  }

  /** All that a task has spent or holds. */
  function Spent(db: Db, run: Id, task: Id): real {
    Total(TaskCharges(BooksOf(db), run, task))
  }

  function HeldAmountsFor(reservations: map<Id, Reservation>, run: Id, task: Id): map<Id, real> {
    map r | r in reservations :: HeldFor(run, task)(reservations[r])
  }

  function UsedAmountsFor(usage: map<Id, UsageRecord>, run: Id, task: Id): map<Id, real> {
    map r | r in usage :: UsedFor(run, task)(usage[r])
  }

  lemma {:induction false} HeldForTotal(reservations: map<Id, Reservation>, run: Id, task: Id)
    ensures Sum(reservations, HeldFor(run, task)) == Total(HeldAmountsFor(reservations, run, task))
    decreases |reservations|
  {
    var amounts := HeldAmountsFor(reservations, run, task);
    assert amounts.Keys == reservations.Keys;
    if |reservations.Keys| != 0 {
      var k := Least(reservations.Keys);
      HeldForTotal(reservations - {k}, run, task);
      assert amounts - {k} == HeldAmountsFor(reservations - {k}, run, task);
    }
  }

  lemma {:induction false} UsedForTotal(usage: map<Id, UsageRecord>, run: Id, task: Id)
    ensures Sum(usage, UsedFor(run, task)) == Total(UsedAmountsFor(usage, run, task))
    decreases |usage|
  {
    var amounts := UsedAmountsFor(usage, run, task);
    assert amounts.Keys == usage.Keys;
    if |usage.Keys| != 0 {
      var k := Least(usage.Keys);
      UsedForTotal(usage - {k}, run, task);
      assert amounts - {k} == UsedAmountsFor(usage - {k}, run, task);
    }
  }

  lemma {:induction false} TaskChargesAre(b: Books, run: Id, task: Id)
    requires b.Matched()
    ensures Plus(HeldAmountsFor(b.reservations, run, task), UsedAmountsFor(b.usage, run, task)) == TaskCharges(b, run, task)
    ensures UsedAmountsFor(b.usage, run, task).Keys <= HeldAmountsFor(b.reservations, run, task).Keys
  {
    forall r | r in b.usage ensures r in b.reservations {
      assert b.usage[r].run == b.reservations[r].run;
    }
    forall r | r in b.reservations
      ensures Plus(HeldAmountsFor(b.reservations, run, task), UsedAmountsFor(b.usage, run, task))[r] == TaskCharge(b, run, task, r)
    {
      if r in b.usage {
        assert b.usage[r].run == b.reservations[r].run && b.usage[r].task == b.reservations[r].task;
      }
    }
  }

  /** What the ledger calls a task's commitment is what its reservations cost, each counted once. */
  lemma {:induction false} TaskCountedOnce(db: Db, run: Id, task: Id)
    requires BooksOf(db).Matched()
    ensures TaskCommitted(db, run, task) == Spent(db, run, task)
  {
    TaskChargesAre(BooksOf(db), run, task);
    TotalPlus(HeldAmountsFor(db.reservations, run, task), UsedAmountsFor(db.usage, run, task));
    HeldForTotal(db.reservations, run, task);
    UsedForTotal(db.usage, run, task);
  }

  /** An accepted new reservation for a task leaves the task within the limit it was made with. */
  lemma {:induction false} ReserveFitsTheTask(db: Db, percent: real, q: ReservationRequest, taskLimit: Option<real>, lead: real, after: Db, warned: bool,
                                              task: Id)
    requires LedgerInv(db) && Reserve(db, percent, q, taskLimit, lead) == Ok((after, warned)) && !KeyTaken(db, q.key)
    requires q.task == Some(task)
    ensures Spent(after, q.run, task) == Spent(db, q.run, task) + q.amount
    ensures taskLimit.Some? ==> Spent(after, q.run, task) <= taskLimit.value
  {
    hide Spent, Books.Linked, Books.Matched, UpdateWarning;
    ReserveKeeps(db, percent, q, taskLimit, lead, after, warned);
    TaskCountedOnce(db, q.run, task);
    TaskCountedOnce(after, q.run, task);
    BookedAnatomy(db, percent, q, taskLimit, lead, after, warned);
    WarningOnly(Inserted(db, q), percent, q.run);
    B.InsertCommitsTask(db, q, q.run, task);
    SameTables(Inserted(db, q), after, q.run, task);
  }

  lemma {:induction false} SameTables(db: Db, after: Db, run: Id, task: Id)
    requires after.reservations == db.reservations && after.usage == db.usage
    ensures TaskCommitted(after, run, task) == TaskCommitted(db, run, task) && Spent(after, run, task) == Spent(db, run, task)
  {
    assert BooksOf(after) == BooksOf(db);
  }

  // ----- Steps that stay within the limit -----

  /** A step that takes the task at most to the limit. */
  ghost predicate Bounded(db: Db, after: Db, run: Id, task: Id, limit: real) {
    TaskCommitted(after, run, task) <= Max(limit, TaskCommitted(db, run, task))
  }

  lemma {:induction false} BoundedTransitive(a: Db, b: Db, c: Db, run: Id, task: Id, limit: real)
    requires Bounded(a, b, run, task, limit) && Bounded(b, c, run, task, limit)
    ensures Bounded(a, c, run, task, limit)
  {
    hide TaskCommitted;
  }

  lemma {:induction false} SameMoney(db: Db, after: Db, run: Id, task: Id, limit: real)
    requires after.reservations == db.reservations && after.usage == db.usage
    ensures Bounded(db, after, run, task, limit)
  {
    SameTables(db, after, run, task);
    hide TaskCommitted;
  }

  predicate LimitedTo(taskLimit: Option<real>, limit: real) {
    taskLimit.Some? && taskLimit.value <= limit
  }

  lemma {:induction false} ReserveBound(db: Db, percent: real, q: ReservationRequest, taskLimit: Option<real>, lead: real, after: Db, warned: bool,
                                        run: Id, task: Id, limit: real)
    requires Reserve(db, percent, q, taskLimit, lead) == Ok((after, warned))
    requires q.run == run && q.task == Some(task) ==> LimitedTo(taskLimit, limit)
    ensures Bounded(db, after, run, task, limit)
  {
    hide UpdateWarning;
    if KeyTaken(db, q.key) {
      SameMoney(db, after, run, task, limit);
    } else {
      BookedAnatomy(db, percent, q, taskLimit, lead, after, warned);
      WarningOnly(Inserted(db, q), percent, q.run);
      B.InsertCommitsTask(db, q, run, task);
      SameTables(Inserted(db, q), after, run, task);
      hide TaskCommitted;
    }
  }

  predicate RequestLimited(q: A.Request, run: Id, task: Id, limit: real) {
    q.run == run && q.task == task ==> LimitedTo(q.taskLimit, limit)
  }

  lemma {:induction false} PersistBound(db: Db, percent: real, q: A.Request, c: S.Candidate, ids: A.Ids, after: Db, run: Id, task: Id, limit: real)
    requires A.Persist(db, percent, q, c, ids) == Ok(after) && RequestLimited(q, run, task, limit)
    ensures Bounded(db, after, run, task, limit)
  {
    hide Reserve, A.Persist, Bounded;
    var booked, warned := Ch.PersistAnatomy(db, percent, q, c, ids, after);
    ReserveBound(db, percent, A.Booking(q, c, ids), q.taskLimit, 0.0, booked, warned, run, task, limit);
    SameMoney(booked, after, run, task, limit);
    BoundedTransitive(db, booked, after, run, task, limit);
  }

  lemma {:induction false} FreeBound(db: Db, r: Id, run: Id, task: Id, limit: real)
    requires r in db.reservations
    ensures Bounded(db, Freed(db, r), run, task, limit)
  {
    Ch.FreeUncommitsTask(db, r, run, task);
    hide TaskCommitted, Freed;
  }

  lemma {:induction false} SourceBound(db: Db, percent: real, owner: Id, source: Option<A.Source>, after: Db, run: Id, task: Id, limit: real)
    requires source.Some? ==> source.value.reservation in db.reservations
    requires after == A.SourceReleased(db, percent, owner, source)
    ensures Bounded(db, after, run, task, limit)
  {
    hide UpdateWarning, Bounded;
    if source.Some? && source.value.open {
      var freed := Freed(db, source.value.reservation);
      WarningOnly(freed, percent, owner);
      FreeBound(db, source.value.reservation, run, task, limit);
      SameMoney(freed, after, run, task, limit);
      BoundedTransitive(db, freed, after, run, task, limit);
    } else {
      SameMoney(db, after, run, task, limit);
    }
  }

  lemma {:induction false} BaselineLimited(db: Db, q: A.Request, run: Id, task: Id, limit: real)
    requires RequestLimited(q, run, task, limit)
    ensures RequestLimited(A.WithBaseline(db, q), run, task, limit)
  {
  }

  lemma {:induction false} AssignBound(db: Db, percent: real, q: A.Request, offer: A.RoutingSnapshot, ids: A.Ids, after: Db, answer: A.Answer,
                                       run: Id, task: Id, limit: real)
    requires A.AssignOnce(db, percent, q, offer, ids) == Ok((after, answer)) && RequestLimited(q, run, task, limit)
    ensures Bounded(db, after, run, task, limit)
  {
    hide *;
    Ch.AssignAnatomy(db, percent, q, offer, ids, after, answer);
    if after == db {
      SameMoney(db, after, run, task, limit);
    } else {
      var r := A.WithBaseline(db, q);
      BaselineLimited(db, q, run, task, limit);
      var source, c := Ch.NewAssignmentAnatomy(db, percent, r, offer, ids, after, answer);
      var mid := A.SourceReleased(db, percent, r.run, source);
      SourceBound(db, percent, r.run, source, mid, run, task, limit);
      PersistBound(mid, percent, r, c, ids, after, run, task, limit);
      BoundedTransitive(db, mid, after, run, task, limit);
    }
  }

  lemma {:induction false} PersistAllBound(db: Db, percent: real, choices: seq<A.Choice>, after: Db, run: Id, task: Id, limit: real)
    requires A.PersistAll(db, percent, choices) == Ok(after)
    requires forall choice :: choice in choices ==> RequestLimited(choice.request, run, task, limit)
    ensures Bounded(db, after, run, task, limit)
    decreases |choices|
  {
    hide A.Persist, Bounded, RequestLimited;
    if choices == [] {
      SameMoney(db, after, run, task, limit);
    } else {
      var first := choices[0];
      assert first in choices;
      var next := A.Persist(db, percent, first.request, first.candidate, first.ids).value;
      PersistBound(db, percent, first.request, first.candidate, first.ids, next, run, task, limit);
      PersistAllBound(next, percent, choices[1..], after, run, task, limit);
      BoundedTransitive(db, next, after, run, task, limit);
    }
  }

  lemma {:induction false} CommitBound(db: Db, percent: real, of: Id, choices: seq<A.Choice>, lead: real, leadId: Id, after: Db,
                                       run: Id, task: Id, limit: real)
    requires A.Commit(db, percent, of, choices, lead, leadId) == Ok(after)
    requires forall choice :: choice in choices ==> RequestLimited(choice.request, run, task, limit)
    ensures Bounded(db, after, run, task, limit)
  {
    hide Reserve, A.PersistAll, Bounded, RequestLimited;
    var lent := Reserve(db, percent, A.LeadBooking(of, lead, leadId), None, 0.0).value;
    ReserveBound(db, percent, A.LeadBooking(of, lead, leadId), None, 0.0, lent.0, lent.1, run, task, limit);
    PersistAllBound(lent.0, percent, choices, after, run, task, limit);
    BoundedTransitive(db, lent.0, after, run, task, limit);
  }

  lemma {:induction false} ChosenAreLimited(db: Db, qs: seq<A.Request>, offers: seq<A.RoutingSnapshot>, ids: seq<A.Ids>, lead: real, choices: A.Choices,
                                            run: Id, task: Id, limit: real)
    requires qs != [] && |offers| == |qs| == |ids| && A.BatchChoices(db, qs, offers, ids, lead) == Ok(choices)
    requires forall q :: q in qs ==> RequestLimited(q, run, task, limit)
    ensures forall choice :: choice in choices.chosen ==> RequestLimited(choice.request, run, task, limit)
  {
    hide A.Decide, TaskCommitted, SnapshotOf, RequestLimited, A.WithBaseline;
    var rs := A.WithBaselines(db, qs);
    B.ChosenAnswer(db, rs, offers, ids, A.More(SnapshotOf(db, qs[0].run).available, 0.0 - lead), choices);
    forall choice | choice in choices.chosen ensures RequestLimited(choice.request, run, task, limit) {
      assert B.Answers(db, choice, rs, ids);
      var i :| 0 <= i < |rs| && rs[i] == choice.request;
      assert qs[i] in qs;
      BaselineLimited(db, qs[i], run, task, limit);
    }
  }

  lemma {:induction false} BatchBound(db: Db, percent: real, qs: seq<A.Request>, offers: seq<A.RoutingSnapshot>, ids: seq<A.Ids>, lead: real, leadId: Id,
                                      after: Db, answer: Batch, run: Id, task: Id, limit: real)
    requires |offers| == |qs| == |ids| && A.AssignBatch(db, percent, qs, offers, ids, lead, leadId) == Ok((after, answer))
    requires forall q :: q in qs ==> RequestLimited(q, run, task, limit)
    ensures Bounded(db, after, run, task, limit)
  {
    hide *;
    SameMoney(db, db, run, task, limit);
    if qs == [] || A.AttemptsOf(qs) in db.batches {
      B.BatchReplays(db, percent, qs, offers, ids, lead, leadId);
    } else {
      B.BatchAnatomy(db, percent, qs, offers, ids, lead, leadId);
      if answer.lead.Some? {
        var choices := A.BatchChoices(db, qs, offers, ids, lead).value;
        ChosenAreLimited(db, qs, offers, ids, lead, choices, run, task, limit);
        var booked := A.Commit(db, percent, qs[0].run, choices.chosen, lead, leadId).value;
        CommitBound(db, percent, qs[0].run, choices.chosen, lead, leadId, booked, run, task, limit);
        BatchRowOnly(booked, after, run, task, limit);
        BoundedTransitive(db, booked, after, run, task, limit);
      }
    }
  }

  lemma {:induction false} BatchRowOnly(booked: Db, after: Db, run: Id, task: Id, limit: real)
    requires after == booked.(batches := after.batches)
    ensures Bounded(booked, after, run, task, limit)
  {
    SameMoney(booked, after, run, task, limit);
  }

  // ----- Settlements -----

  function BooksTaskCommitted(b: Books, run: Id, task: Id): real {
    Sum(b.usage, UsedFor(run, task)) + Sum(b.reservations, HeldFor(run, task))
  }

  predicate OfTask(b: Books, r: Id, run: Id, task: Id) {
    r in b.reservations && b.reservations[r].run == run && b.reservations[r].task == Some(task)
  }

  lemma {:induction false} ReplaceCommits(b: Books, r: Id, next: UsageRecord, run: Id, task: Id)
    requires r in b.usage && next.run == b.usage[r].run && next.task == b.usage[r].task
    ensures BooksTaskCommitted(b.(usage := b.usage[r := next]), run, task) ==
            BooksTaskCommitted(b, run, task) + if next.run == run && next.task == Some(task) then next.amount - b.usage[r].amount else 0.0
  {
    SumPut(b.usage, UsedFor(run, task), r, next);
  }

  lemma {:induction false} ChargeCommits(b: Books, r: Id, next: UsageRecord, run: Id, task: Id)
    requires r !in b.usage && r in b.reservations
    requires next.run == b.reservations[r].run && next.task == b.reservations[r].task && b.reservations[r].status.Reserved?
    ensures BooksTaskCommitted(Books(b.reservations[r := b.reservations[r].(status := Settled)], b.usage[r := next]), run, task) ==
            BooksTaskCommitted(b, run, task) +
            if next.run == run && next.task == Some(task) then next.amount - b.reservations[r].amount else 0.0
  {
    SumPut(b.usage, UsedFor(run, task), r, next);
    SumPut(b.reservations, HeldFor(run, task), r, b.reservations[r].(status := Settled));
  }

  /** A settlement moves its task by the difference between the cost and what stood there before. */
  lemma {:induction false} SettleCommitsTask(b: Books, r: Id, usageId: Id, cost: Money, authority: Authority, key: Id, run: Id, task: Id, after: Books)
    requires b.Matched() && r in b.reservations
    requires SettleBooks(b, r, usageId, cost, authority, key) == Ok(after)
    ensures BooksTaskCommitted(after, run, task) ==
            BooksTaskCommitted(b, run, task) + if OfTask(b, r, run, task) then cost - Prior(b, r) else 0.0
  {
    var row := b.reservations[r];
    var next := UsageRecord(usageId, row.run, row.task, cost, authority, key);
    if r !in b.usage {
      ChargeCommits(b, r, next, run, task);
    } else {
      assert b.usage[r].run == row.run && b.usage[r].task == row.task;
      ReplaceCommits(b, r, b.usage[r].(amount := cost, authority := authority), run, task);
    }
  }

  /** By how much the usage recorded for a reservation of the task exceeds what was held or recorded. */
  function Overrun(db: Db, after: Db, r: Id, run: Id, task: Id): Money {
    if OfTask(BooksOf(db), r, run, task) && r in after.usage then Max(0.0, after.usage[r].amount - Prior(BooksOf(db), r)) else 0.0
  }

  ghost predicate WithinDebt(db: Db, after: Db, run: Id, task: Id, limit: real, debt: Money) {
    TaskCommitted(after, run, task) <= Max(limit, TaskCommitted(db, run, task)) + debt
  }

  lemma {:induction false} BoundedIsWithin(db: Db, after: Db, run: Id, task: Id, limit: real, debt: Money)
    requires Bounded(db, after, run, task, limit)
    ensures WithinDebt(db, after, run, task, limit, debt)
  {
    hide TaskCommitted;
  }

  lemma {:induction false} SettleBound(db: Db, percent: real, r: Id, usageId: Id, cost: Option<Money>, authority: Authority, key: Id, after: Db,
                                       run: Id, task: Id, limit: real)
    requires BooksOf(db).Matched() && Settle(db, percent, r, usageId, cost, authority, key) == Ok(after)
    ensures WithinDebt(db, after, run, task, limit, Overrun(db, after, r, run, task))
  {
    hide Settle, SettleBooks, Books.Matched, Sum;
    O.SettleAnatomy(db, percent, r, usageId, cost, authority, key, after);
    O.SettlesTheCost(BooksOf(db), r, usageId, cost.value, authority, key, BooksOf(after));
    SettleCommitsTask(BooksOf(db), r, usageId, cost.value, authority, key, run, task, BooksOf(after));
  }

  lemma {:induction false} SettleUsageBound(db: Db, percent: real, a: Id, reconciled: bool, after: Db, run: Id, task: Id, limit: real)
    requires Sound(db) && a in db.assignments && C.SettleUsage(db, percent, a, reconciled) == Ok(after)
    ensures WithinDebt(db, after, run, task, limit, Overrun(db, after, db.assignments[a].reservation, run, task))
  {
    hide Sound, Settle, Books.Matched, C.SettledCost, C.SettledAuthority, Overrun, WithinDebt;
    SoundParts(db);
    SettleBound(db, percent, db.assignments[a].reservation, a, Some(C.SettledCost(db, a)), C.SettledAuthority(db, a, reconciled), a, after,
                run, task, limit);
  }

  lemma {:induction false} ReconcileBound(db: Db, percent: real, session: Id, c: Id, after: Db, result: C.Reconciliation, run: Id, task: Id, limit: real)
    requires Sound(db) && C.Reconcile(db, percent, session, c) == Ok((after, result))
    ensures result.assignment in db.assignments && C.CallOf(db, c, result.assignment)
    ensures WithinDebt(db, after, run, task, limit, Overrun(db, after, db.assignments[result.assignment].reservation, run, task))
  {
    hide Sound, C.Reconcile, C.SettleUsage, N.NothingOpen, N.IsSettled, N.EstimateOf, C.ReconciliationState, Bounded, WithinDebt;
    N.ReconcileAnatomy(db, percent, session, c, after, result);
    var a := result.assignment;
    var marked := C.Estimate(db, c);
    var debt := Overrun(db, after, db.assignments[a].reservation, run, task);
    if N.IsSettled(db, a) || !N.NothingOpen(marked, a) {
      SameMoney(db, after, run, task, limit);
      BoundedIsWithin(db, after, run, task, limit, debt);
    } else {
      EstimateKeepsSound(db, c, marked);
      SettleUsageBound(marked, percent, a, true, after, run, task, limit);
      SameStart(db, marked, after, run, task, limit, debt);
    }
  }

  lemma {:induction false} SameStart(db: Db, marked: Db, after: Db, run: Id, task: Id, limit: real, debt: Money)
    requires marked.reservations == db.reservations && marked.usage == db.usage && WithinDebt(marked, after, run, task, limit, debt)
    ensures WithinDebt(db, after, run, task, limit, debt)
  {
    SameTables(db, marked, run, task);
    hide TaskCommitted;
  }

  // ----- Every step, every run -----

  /** Each request for the task that a step makes carries at most the limit. */
  predicate Carries(step: Step, run: Id, task: Id, limit: real) {
    match step
    case ReserveMoney(q, taskLimit, _) => q.run == run && q.task == Some(task) ==> LimitedTo(taskLimit, limit)
    case AssignModel(q, _, _) => RequestLimited(q, run, task, limit)
    case AssignModels(qs, _, _, _, _) => forall q :: q in qs ==> RequestLimited(q, run, task, limit)
    case _ => true
  }

  /** What a step may take the task over the limit. */
  function Debt(db: Db, percent: real, step: Step, run: Id, task: Id): Money
    requires Legal(db, step)
  {
    match O.Touched(db, step)
    case Some(r) => Overrun(db, Apply(db, percent, step), r, run, task)
    case None => 0.0
  }

  lemma {:induction false} AskingStepBound(db: Db, percent: real, step: Step, run: Id, task: Id, limit: real)
    requires Legal(db, step) && Carries(step, run, task, limit) && (step.ReserveMoney? || IsAssignment(step))
    ensures Bounded(db, Apply(db, percent, step), run, task, limit)
  {
    hide Reserve, A.AssignOnce, A.AssignBatch, Bounded, RequestLimited, LimitedTo;
    SameMoney(db, db, run, task, limit);
    match step
    case ReserveMoney(q, taskLimit, lead) =>
      var r := Reserve(db, percent, q, taskLimit, lead);
      if r.Ok? { ReserveBound(db, percent, q, taskLimit, lead, r.value.0, r.value.1, run, task, limit); }
    case AssignModel(q, offer, ids) =>
      var r := A.AssignOnce(db, percent, q, offer, ids);
      if r.Ok? { AssignBound(db, percent, q, offer, ids, r.value.0, r.value.1, run, task, limit); }
    case AssignModels(qs, offers, ids, lead, leadId) =>
      var r := A.AssignBatch(db, percent, qs, offers, ids, lead, leadId);
      if r.Ok? { BatchBound(db, percent, qs, offers, ids, lead, leadId, r.value.0, r.value.1, run, task, limit); }
  }

  lemma {:induction false} ReleaseStepBound(db: Db, percent: real, step: Step, run: Id, task: Id, limit: real)
    requires step.ReleaseMoney? || step.Recover?
    ensures Bounded(db, Apply(db, percent, step), run, task, limit)
  {
    hide Release, R.Recover, Bounded;
    SameMoney(db, db, run, task, limit);
    if step.ReleaseMoney? {
      if Release(db, percent, step.reservation).Ok? {
        ReleaseBound(db, percent, step.reservation, Release(db, percent, step.reservation).value, run, task, limit);
      }
    } else {
      RecoverBound(db, step.session, step.live, R.Recover(db, step.session, step.live), run, task, limit);
    }
  }

  lemma {:induction false} ReleaseBound(db: Db, percent: real, r: Id, after: Db, run: Id, task: Id, limit: real)
    requires Release(db, percent, r) == Ok(after)
    ensures Bounded(db, after, run, task, limit)
  {
    hide UpdateWarning, Bounded;
    if db.reservations[r].status.Reserved? {
      WarningOnly(Freed(db, r), percent, db.reservations[r].run);
      FreeBound(db, r, run, task, limit);
      SameMoney(Freed(db, r), after, run, task, limit);
      BoundedTransitive(db, Freed(db, r), after, run, task, limit);
    } else {
      SameMoney(db, after, run, task, limit);
    }
  }

  lemma {:induction false} RecoverBound(db: Db, session: Id, live: set<Id>, after: Db, run: Id, task: Id, limit: real)
    requires after == R.Recover(db, session, live)
    ensures Bounded(db, after, run, task, limit)
  {
    hide R.Releasable, R.Orphans, R.Dead;
    R.RecoverAnatomy(db, session, live, after);
    forall r | r in after.reservations ensures HeldFor(run, task)(after.reservations[r]) <= HeldFor(run, task)(db.reservations[r]) {
    }
    SumMonotone(after.reservations, HeldFor(run, task), db.reservations, HeldFor(run, task));
  }

  lemma {:induction false} SettlingStepBound(db: Db, percent: real, step: Step, run: Id, task: Id, limit: real)
    requires Sound(db) && Legal(db, step) && (step.SettleMoney? || step.SettleAttempt? || step.Reconcile?)
    ensures WithinDebt(db, Apply(db, percent, step), run, task, limit, Debt(db, percent, step, run, task))
  {
    hide Sound, Settle, C.SettleUsage, C.Reconcile, Books.Matched, Overrun, WithinDebt, Bounded;
    SoundParts(db);
    var after := Apply(db, percent, step);
    match step
    case SettleMoney(r, usage, cost, authority, key) =>
      if Settle(db, percent, r, usage, cost, authority, key).Ok? {
        SettleBound(db, percent, r, usage, cost, authority, key, after, run, task, limit);
      } else {
        Unmoved(db, after, run, task, limit, Debt(db, percent, step, run, task));
      }
    case SettleAttempt(a) =>
      if a in db.assignments && C.SettleUsage(db, percent, a, false).Ok? {
        SettleUsageBound(db, percent, a, false, after, run, task, limit);
      } else {
        Unmoved(db, after, run, task, limit, Debt(db, percent, step, run, task));
      }
    case Reconcile(session, c) =>
      var r := C.Reconcile(db, percent, session, c);
      if r.Ok? {
        ReconcileBound(db, percent, session, c, r.value.0, r.value.1, run, task, limit);
      } else {
        Unmoved(db, after, run, task, limit, Debt(db, percent, step, run, task));
      }
  }

  lemma {:induction false} Unmoved(db: Db, after: Db, run: Id, task: Id, limit: real, debt: Money)
    requires after.reservations == db.reservations && after.usage == db.usage
    ensures WithinDebt(db, after, run, task, limit, debt)
  {
    hide Bounded, WithinDebt;
    SameMoney(db, after, run, task, limit);
    BoundedIsWithin(db, after, run, task, limit, debt);
  }

  /** One step takes a task over the limit of its requests by no more than the step's debt. */
  lemma {:induction false} StepBound(db: Db, percent: real, step: Step, run: Id, task: Id, limit: real)
    requires Sound(db) && Legal(db, step) && Carries(step, run, task, limit)
    ensures WithinDebt(db, Apply(db, percent, step), run, task, limit, Debt(db, percent, step, run, task))
  {
    hide Sound, Apply, Debt, Legal, Carries, Bounded, WithinDebt;
    var after, debt := Apply(db, percent, step), Debt(db, percent, step, run, task);
    if step.ReserveMoney? || IsAssignment(step) {
      AskingStepBound(db, percent, step, run, task, limit);
      BoundedIsWithin(db, after, run, task, limit, debt);
    } else if step.ReleaseMoney? || step.Recover? {
      ReleaseStepBound(db, percent, step, run, task, limit);
      BoundedIsWithin(db, after, run, task, limit, debt);
    } else if step.SettleMoney? || step.SettleAttempt? || step.Reconcile? {
      SettlingStepBound(db, percent, step, run, task, limit);
    } else {
      O.UntouchedMoney(db, percent, step);
      Unmoved(db, after, run, task, limit, debt);
    }
  }

  ghost function TotalDebt(db: Db, percent: real, steps: seq<Step>, run: Id, task: Id): Money
    requires LegalRun(db, percent, steps)
    decreases |steps|
  {
    if steps == [] then 0.0
    else Debt(db, percent, steps[0], run, task) + TotalDebt(Apply(db, percent, steps[0]), percent, steps[1..], run, task)
  }

  lemma {:induction false} RunBound(db: Db, percent: real, steps: seq<Step>, run: Id, task: Id, limit: real)
    requires Sound(db) && LegalRun(db, percent, steps) && forall step :: step in steps ==> Carries(step, run, task, limit)
    ensures WithinDebt(db, Run(db, percent, steps), run, task, limit, TotalDebt(db, percent, steps, run, task))
    decreases |steps|
  {
    hide Sound, Evolves, Apply, Debt, TaskCommitted, Legal, Carries;
    if steps != [] {
      var next := Apply(db, percent, steps[0]);
      assert steps[0] in steps;
      StepBound(db, percent, steps[0], run, task, limit);
      StepKeepsSound(db, percent, steps[0]);
      RunBound(next, percent, steps[1..], run, task, limit);
    }
  }

  /** Over any run of the system, a task whose requests all carry a limit has spent and holds at most
      that limit, or what it had before, and the debt of its settlements. */
  lemma {:induction false} TaskWithinItsLimit(db: Db, percent: real, steps: seq<Step>, run: Id, task: Id, limit: real)
    requires Sound(db) && LegalRun(db, percent, steps) && forall step :: step in steps ==> Carries(step, run, task, limit)
    ensures Spent(Run(db, percent, steps), run, task) <= Max(limit, Spent(db, run, task)) + TotalDebt(db, percent, steps, run, task)
  {
    hide Sound, Evolves, Run, TotalDebt, LegalRun, Carries, Spent, TaskCommitted, Books.Matched;
    RunBound(db, percent, steps, run, task, limit);
    RunKeepsSound(db, percent, steps);
    SoundParts(db);
    SoundParts(Run(db, percent, steps));
    TaskCountedOnce(db, run, task);
    TaskCountedOnce(Run(db, percent, steps), run, task);
  }

  /** And in everything that can happen to a new journal. */
  lemma {:induction false} TaskWithinItsLimitFromTheStart(percent: real, steps: seq<Step>, run: Id, task: Id, limit: real)
    requires LegalRun(EMPTY, percent, steps) && forall step :: step in steps ==> Carries(step, run, task, limit)
    ensures Spent(Run(EMPTY, percent, steps), run, task) <= Max(limit, 0.0) + TotalDebt(EMPTY, percent, steps, run, task)
  {
    hide Sound, Inv, Run, TotalDebt, LegalRun, Carries, Spent;
    EmptyInv();
    NothingSpent(run, task);
    TaskWithinItsLimit(EMPTY, percent, steps, run, task, limit);
  }

  lemma {:induction false} NothingSpent(run: Id, task: Id)
    ensures Spent(EMPTY, run, task) == 0.0
  {
    assert TaskCharges(BooksOf(EMPTY), run, task).Keys == {};
  }
}
