/** Two small databases on which batches go wrong: two requests for one task that fail together, and
    a fallback whose source still holds money. */
module BatchExamples {
  import opened Prelude
  import opened Tasks
  import opened Journals
  import opened Ledgers
  import opened Selector
  import opened Assignments
  import opened Chains
  import opened Batches

  /** One run without a limit and one task in two attempts that both count as first ones. */
  const TWO_ATTEMPTS := Db(
    map[0 := RunRow(0, None)], map[0 := TaskRow(0, Queued, 0)],
    map[0 := AttemptRow(0, 1, AttemptAssigned, 0), 1 := AttemptRow(0, 1, AttemptAssigned, 1)],
    map[], map[], map[], map[], map[], map[], map[], map[], map[])

  const SIX := Offer(0, 6.0, Some(Capability(0.8, 0.8, 0.8, 0.5)))

  const OFFER := RoutingSnapshot(0, 0, true, [SIX])

  /** A request for one of the attempts of the task, with a task limit of 10. */
  function For(attempt: Id, fallbackOf: Option<Id>): Request {
    Request(0, 0, 0, attempt, 1, 0, AUTOMATIC, 0, Some(10.0), None, fallbackOf)
  }

  function NewIds(n: Id): Ids {
    Ids(n, n)
  }

  /** Where the funds reach, the one model on offer is chosen. */
  lemma {:induction false} SixIsChosen(db: Db, q: Request, source: Option<Source>, funds: Option<real>)
    requires q.requirements == AUTOMATIC && (funds.Some? ==> funds.value >= 6.0)
    requires source.Some? ==> source.value.model == 0
    ensures Decide(db, q, source, funds, [SIX]) == Ok(Choose(SIX))
  {
    assert SIX in [SIX] && ExclusionReason(SIX, AUTOMATIC, funds, q.pin).None?;
    hide SelectSpec, ExclusionReason;
    SelectsTheOptimum([SIX], AUTOMATIC, funds, q.pin);
    assert forall c :: c in [SIX] ==> c == SIX && c.capability.Some?;
  }

  lemma {:induction false} NothingCommitted(db: Db, run: Id, task: Id)
    requires db.usage == map[] && db.reservations == map[]
    ensures TaskCommitted(db, run, task) == 0.0
  {
    assert db.usage.Keys == {} && db.reservations.Keys == {};
  }

  lemma {:induction false} ChooseOne(db: Db, q: Request, ids: Ids)
    requires q.requirements == AUTOMATIC && Matches(q, OFFER)
    requires q.taskLimit.Some? ==> TaskCommitted(db, q.run, q.task) + 6.0 <= q.taskLimit.value
    ensures ChooseAll(db, [q], [OFFER], [ids], None) == Ok(Choices([Choice(q, SIX, ids)], []))
  {
    hide Decide, TaskCommitted;
    SixIsChosen(db, q, None, BatchFunds(db, q, None));
    assert [q][1..] == [] && [OFFER][1..] == [] && [ids][1..] == [];
    assert ChooseAll(db, [], [], [], None) == Ok(Choices([], []));
    assert [Choice(q, SIX, ids)] + [] == [Choice(q, SIX, ids)];
  }

  lemma {:induction false} ChooseBoth(db: Db, p: Request, q: Request, a: Ids, b: Ids)
    requires p.requirements == q.requirements == AUTOMATIC && Matches(p, OFFER) && Matches(q, OFFER)
    requires p.taskLimit.Some? ==> TaskCommitted(db, p.run, p.task) + 6.0 <= p.taskLimit.value
    requires q.taskLimit.Some? ==> TaskCommitted(db, q.run, q.task) + 6.0 <= q.taskLimit.value
    ensures ChooseAll(db, [p, q], [OFFER, OFFER], [a, b], None) == Ok(Choices([Choice(p, SIX, a), Choice(q, SIX, b)], []))
  {
    hide Decide, TaskCommitted;
    SixIsChosen(db, p, None, BatchFunds(db, p, None));
    ChooseOne(db, q, b);
    assert [p, q][1..] == [q] && [OFFER, OFFER][1..] == [OFFER] && [a, b][1..] == [b];
    assert [Choice(p, SIX, a)] + [Choice(q, SIX, b)] == [Choice(p, SIX, a), Choice(q, SIX, b)];
  }

  lemma {:induction false} ItIsAssigned(db: Db, percent: real, q: Request, ids: Ids)
    requires Funded(db) && Owned(db, q) && KeyFree(db.assignments, q) && FreshIds(db, ids) && IsCurrent(q, OFFER)
    requires q.number == 1 && q.fallbackOf.None? && q.requirements == AUTOMATIC
    requires FundsFor(db, q, None).Some? ==> FundsFor(db, q, None).value >= 6.0
    ensures AssignOnce(db, percent, q, OFFER, ids).Ok? && AssignOnce(db, percent, q, OFFER, ids).value.1.Assigned?
  {
    hide Decide, FundsFor, Funded, FreshIds, Reserve;
    SixIsChosen(db, q, None, FundsFor(db, q, None));
    var r := AssignOnce(db, percent, q, OFFER, ids);
    if r.Err? && r.error.Ledger? {
      AffordedIsAccepted(db, percent, q, OFFER, ids, r.error.ledger);
    }
  }

  lemma {:induction false} TwoAttemptsFacts()
    ensures var db := TWO_ATTEMPTS;
      && LimitOf(db, 0).None? && TaskCommitted(db, 0, 0) == 0.0 && Funded(db)
      && Owned(db, For(0, None)) && Owned(db, For(1, None))
      && (forall q :: KeyFree(db.assignments, q)) && (forall ids :: FreshIds(db, ids)) && (forall key :: !KeyTaken(db, key))
  {
    var db := TWO_ATTEMPTS;
    NothingCommitted(db, 0, 0);
    forall q ensures KeyFree(db.assignments, q) {
    }
  }

  lemma {:induction false} AloneItIsAssigned(attempt: Id)
    requires attempt in {0, 1}
    ensures var r := AssignOnce(TWO_ATTEMPTS, 0.8, For(attempt, None), OFFER, NewIds(attempt)); r.Ok? && r.value.1.Assigned?
  {
    TwoAttemptsFacts();
    var db, q := TWO_ATTEMPTS, For(attempt, None);
    assert FundsFor(db, q, None) == Some(10.0) by {
      AvailableIsUncommitted(db, 0);
    }
    hide FundsFor, Funded, KeyFree, FreshIds, Owned, AssignOnce, TaskCommitted;
    ItIsAssigned(db, 0.8, q, NewIds(attempt));
  }

  function BothChosen(): seq<Choice> {
    [Choice(For(0, None), SIX, NewIds(0)), Choice(For(1, None), SIX, NewIds(1))]
  }

  lemma {:induction false} BothAreChosen()
    ensures BatchChoices(TWO_ATTEMPTS, [For(0, None), For(1, None)], [OFFER, OFFER], [NewIds(0), NewIds(1)], 0.0)
            == Ok(Choices(BothChosen(), []))
  {
    var db, qs := TWO_ATTEMPTS, [For(0, None), For(1, None)];
    TwoAttemptsFacts();
    AvailableIsUncommitted(db, 0);
    hide TaskCommitted, SnapshotOf, ChooseAll;
    assert WithBaselines(db, qs) == qs;
    ChooseBoth(db, For(0, None), For(1, None), NewIds(0), NewIds(1));
  }

  lemma {:induction false} BothDoNotFit()
    ensures !TasksFit(TWO_ATTEMPTS, BothChosen()) && KeysFree(TWO_ATTEMPTS.assignments, BothChosen())
  {
    TwoAttemptsFacts();
    hide TaskCommitted, TasksFit, KeyFree;
    var choices := BothChosen();
    TwoForOneTask(TWO_ATTEMPTS, choices[0], choices[1]);
    assert choices[1..] == [choices[1]] && choices[1..][1..] == [];
  }

  lemma {:induction false} BothAreFresh()
    ensures var db, qs := TWO_ATTEMPTS, [For(0, None), For(1, None)];
      && AllFresh(db, [NewIds(0), NewIds(1)]) && LeadFresh(db, [NewIds(0), NewIds(1)], 2)
      && AttemptsOf(qs) !in db.batches && forall q :: q in qs ==> q.run == qs[0].run && Owned(db, q)
  {
    TwoAttemptsFacts();
    hide Owned, KeyTaken;
    var ids := [NewIds(0), NewIds(1)];
    assert ids[1..] == [NewIds(1)] && ids[1..][1..] == [];
  }

  /** Two requests of which each alone is assigned, and that fail together on the task's limit: each
      was measured against what the task had committed before the batch. */
  lemma {:induction false} TogetherTheyFail()
    ensures forall attempt :: attempt in {0, 1} ==>
      var r := AssignOnce(TWO_ATTEMPTS, 0.8, For(attempt, None), OFFER, NewIds(attempt));
      r.Ok? && r.value.1.Assigned?
    ensures AssignBatch(TWO_ATTEMPTS, 0.8, [For(0, None), For(1, None)], [OFFER, OFFER], [NewIds(0), NewIds(1)], 0.0, 2)
            == Err(Ledger(TaskBudgetBlocked))
  {
    hide *;
    forall attempt | attempt in {0, 1}
      ensures var r := AssignOnce(TWO_ATTEMPTS, 0.8, For(attempt, None), OFFER, NewIds(attempt)); r.Ok? && r.value.1.Assigned?
    {
      AloneItIsAssigned(attempt);
    }
    var db, qs, ids := TWO_ATTEMPTS, [For(0, None), For(1, None)], [NewIds(0), NewIds(1)];
    BothAreChosen();
    BothAreFresh();
    BothDoNotFit();
    TwoChoices();
    BatchIsAffordable(db, qs, [OFFER, OFFER], ids, 0.0, 2, Choices(BothChosen(), []));
    CommitOutcome(db, 0.8, qs[0].run, BothChosen(), 0.0, 2);
    BatchIsCommitted(db, 0.8, qs, [OFFER, OFFER], ids, 0.0, 2);
  }

  lemma {:induction false} TwoChoices()
    ensures |BothChosen()| == 2
  {
  }

  /** The same run and task, with an open assignment of the first attempt. */
  const ONE_ASSIGNED := TWO_ATTEMPTS.(
    reservations := map[0 := Reservation(0, Some(0), 6.0, Reserved, ForAssignment(0), TaskAttempt)],
    assignments := map[0 := Assignment(0, 0, 0, 6.0, Some(0.8), 0, Pricing(None, None, None), None, 0)])

  /** A fallback for that assignment, with no task limit. */
  function Fallback(): Request {
    For(0, Some(0)).(taskLimit := None)
  }

  lemma {:induction false} OneAssignedFacts()
    ensures AssignmentsInv(ONE_ASSIGNED)
    ensures Owned(ONE_ASSIGNED, Fallback()) && KeyFree(ONE_ASSIGNED.assignments, Fallback())
    ensures !SourceReady(ONE_ASSIGNED, Fallback(), SIX.key.model)
    ensures FreshIds(ONE_ASSIGNED, NewIds(1)) && !KeyTaken(ONE_ASSIGNED, ForBatchLead(2)) && 2 !in ONE_ASSIGNED.reservations
  {
  }

  lemma {:induction false} FallbackIsChosen()
    ensures BatchChoices(ONE_ASSIGNED, [Fallback()], [OFFER], [NewIds(1)], 0.0)
            == Ok(Choices([Choice(Fallback(), SIX, NewIds(1))], []))
  {
    var db, qs := ONE_ASSIGNED, [Fallback()];
    AvailableIsUncommitted(db, 0);
    hide TaskCommitted, SnapshotOf, ChooseAll;
    assert WithBaselines(db, qs) == qs;
    ChooseOne(db, Fallback(), NewIds(1));
  }

  lemma {:induction false} FallbackFits()
    ensures var db, choices := ONE_ASSIGNED, [Choice(Fallback(), SIX, NewIds(1))];
      && TasksFit(db, choices) && KeysFree(db.assignments, choices) && AllFresh(db, [NewIds(1)]) && LeadFresh(db, [NewIds(1)], 2)
      && AttemptsOf([Fallback()]) !in db.batches
  {
    OneAssignedFacts();
    hide AssignmentsInv, KeyFree, FreshIds, TaskCommitted;
    var choices := [Choice(Fallback(), SIX, NewIds(1))];
    assert choices[1..] == [] && [NewIds(1)][1..] == [];
  }

  /** A batch that is asked for a fallback whose source still holds money: it succeeds, and the
      invariants of the assignments are gone. */
  lemma {:induction false} BatchBreaksTheChain()
    ensures AssignmentsInv(ONE_ASSIGNED)
    ensures var r := AssignBatch(ONE_ASSIGNED, 0.8, [Fallback()], [OFFER], [NewIds(1)], 0.0, 2);
      r.Ok? && !AssignmentsInv(r.value.0)
  {
    hide *;
    var db, qs, ids := ONE_ASSIGNED, [Fallback()], [NewIds(1)];
    var choice := Choice(Fallback(), SIX, NewIds(1));
    OneAssignedFacts();
    FallbackIsChosen();
    FallbackFits();
    BatchNeverTripsTheRun(db, 0.8, qs, [OFFER], ids, 0.0, 2);
    var r := AssignBatch(db, 0.8, qs, [OFFER], ids, 0.0, 2);
    AnswerAnatomy(db, 0.8, qs, [OFFER], ids, 0.0, 2, r.value.0, r.value.1);
    FallbackNeedsItsSource(db, 0.8, qs, [OFFER], ids, 0.0, 2, r.value.0, r.value.1);
    assert choice in [choice];
  }
}
