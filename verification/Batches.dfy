/** What a batch of assignments keeps: it answers every request once, it never trips the run's
    budget, and it trips a task's budget exactly when its choices for that task do not fit together. */
module Batches {
  import opened Prelude
  import opened Journals
  import opened Ledgers
  import opened Selector
  import opened Assignments
  import opened Chains

  // ----- Every request is answered once -----

  function RequestedTasks(qs: seq<Request>): multiset<Id> {
    if qs == [] then multiset{} else multiset{qs[0].task} + RequestedTasks(qs[1..])
  }

  function ChosenTasks(choices: seq<Choice>): multiset<Id> {
    if choices == [] then multiset{} else multiset{choices[0].request.task} + ChosenTasks(choices[1..])
  }

  function DeferredTasks(deferred: seq<Deferral>): multiset<Id> {
    if deferred == [] then multiset{} else multiset{deferred[0].task} + DeferredTasks(deferred[1..])
  }

  lemma {:induction false} EachIsAnswered(db: Db, qs: seq<Request>, offers: seq<RoutingSnapshot>, ids: seq<Ids>,
                                          remaining: Option<real>, choices: Choices)
    requires |offers| == |qs| == |ids| && ChooseAll(db, qs, offers, ids, remaining) == Ok(choices)
    ensures ChosenTasks(choices.chosen) + DeferredTasks(choices.deferred) == RequestedTasks(qs)
  {
    hide Decide, TaskCommitted;
    if qs != [] {
      var decision := Decide(db, qs[0], None, BatchFunds(db, qs[0], remaining), offers[0].candidates).value;
      var left := if decision.Choose? then After(remaining, decision.candidate) else remaining;
      var rest := ChooseAll(db, qs[1..], offers[1..], ids[1..], left).value;
      EachIsAnswered(db, qs[1..], offers[1..], ids[1..], left, rest);
      if decision.Choose? {
        assert choices.chosen[1..] == rest.chosen;
      } else {
        assert choices.deferred[1..] == rest.deferred;
      }
    }
  }

  // ----- What is chosen fits -----

  function TotalCost(choices: seq<Choice>): real {
    if choices == [] then 0.0 else Cost(choices[0].candidate) + TotalCost(choices[1..])
  }

  lemma {:induction false} TotalCostNotNegative(choices: seq<Choice>)
    ensures 0.0 <= TotalCost(choices)
  {
    if choices != [] {
      TotalCostNotNegative(choices[1..]);
    }
  }

  /** The money that remains after the lead's allowance covers all choices together. */
  lemma {:induction false} ChosenFit(db: Db, qs: seq<Request>, offers: seq<RoutingSnapshot>, ids: seq<Ids>,
                                     remaining: Option<real>, choices: Choices)
    requires |offers| == |qs| == |ids| && ChooseAll(db, qs, offers, ids, remaining) == Ok(choices)
    ensures remaining.Some? && choices.chosen != [] ==> TotalCost(choices.chosen) <= remaining.value
  {
    if qs != [] {
      var decision := Decide(db, qs[0], None, BatchFunds(db, qs[0], remaining), offers[0].candidates).value;
      var left := if decision.Choose? then After(remaining, decision.candidate) else remaining;
      var rest := ChooseAll(db, qs[1..], offers[1..], ids[1..], left).value;
      ChosenFit(db, qs[1..], offers[1..], ids[1..], left, rest);
      if decision.Choose? {
        assert choices.chosen[1..] == rest.chosen;
      }
    }
  }

  predicate TaskAffords(db: Db, q: Request, cost: real) {
    q.taskLimit.Some? ==> TaskCommitted(db, q.run, q.task) + cost <= q.taskLimit.value
  }

  /** Each choice answers one of the requests, under one of the identifiers, and fits its own task. */
  predicate Answers(db: Db, choice: Choice, qs: seq<Request>, ids: seq<Ids>) {
    choice.request in qs && choice.ids in ids && TaskAffords(db, choice.request, Cost(choice.candidate))
  }

  lemma {:induction false} ChosenAnswer(db: Db, qs: seq<Request>, offers: seq<RoutingSnapshot>, ids: seq<Ids>,
                                        remaining: Option<real>, choices: Choices)
    requires |offers| == |qs| == |ids| && ChooseAll(db, qs, offers, ids, remaining) == Ok(choices)
    ensures forall choice :: choice in choices.chosen ==> Answers(db, choice, qs, ids)
  {
    if qs != [] {
      var decision := Decide(db, qs[0], None, BatchFunds(db, qs[0], remaining), offers[0].candidates).value;
      var left := if decision.Choose? then After(remaining, decision.candidate) else remaining;
      var rest := ChooseAll(db, qs[1..], offers[1..], ids[1..], left).value;
      ChosenAnswer(db, qs[1..], offers[1..], ids[1..], left, rest);
      forall choice | choice in choices.chosen ensures Answers(db, choice, qs, ids) {
        if choice in rest.chosen {
          assert Answers(db, choice, qs[1..], ids[1..]);
        } else {
          assert decision.Choose? && choice == Choice(qs[0], decision.candidate, ids[0]);
        }
      }
    }
  }

  // ----- Booking the choices -----

  predicate Apart(a: Ids, b: Ids) {
    a.assignment != b.assignment && a.reservation != b.reservation
  }

  predicate AllFresh(db: Db, ids: seq<Ids>)
    decreases |ids|
  {
    ids != [] ==>
      FreshIds(db, ids[0]) && (forall other :: other in ids[1..] ==> Apart(ids[0], other)) && AllFresh(db, ids[1..])
  }

  predicate ChoicesFresh(db: Db, choices: seq<Choice>)
    decreases |choices|
  {
    choices != [] ==>
      && FreshIds(db, choices[0].ids) && (forall other :: other in choices[1..] ==> Apart(choices[0].ids, other.ids))
      && ChoicesFresh(db, choices[1..])
  }

  lemma {:induction false} ChosenFresh(db: Db, qs: seq<Request>, offers: seq<RoutingSnapshot>, ids: seq<Ids>,
                                       remaining: Option<real>, choices: Choices)
    requires |offers| == |qs| == |ids| && ChooseAll(db, qs, offers, ids, remaining) == Ok(choices)
    requires AllFresh(db, ids)
    ensures ChoicesFresh(db, choices.chosen)
  {
    if qs != [] {
      var decision := Decide(db, qs[0], None, BatchFunds(db, qs[0], remaining), offers[0].candidates).value;
      var left := if decision.Choose? then After(remaining, decision.candidate) else remaining;
      var rest := ChooseAll(db, qs[1..], offers[1..], ids[1..], left).value;
      ChosenFresh(db, qs[1..], offers[1..], ids[1..], left, rest);
      ChosenAnswer(db, qs[1..], offers[1..], ids[1..], left, rest);
      if decision.Choose? {
        assert choices.chosen[1..] == rest.chosen;
        forall other | other in rest.chosen ensures Apart(ids[0], other.ids) {
          assert Answers(db, other, qs[1..], ids[1..]);
        }
      }
    }
  }

  predicate Bookable(db: Db, run: Id, choices: seq<Choice>) {
    run in db.runs && forall choice :: choice in choices ==> choice.request.run == run && choice.request.task in db.tasks
  }

  lemma {:induction false} KeyTakenGrows(db: Db, q: ReservationRequest, key: ReservationKey)
    requires KeyTaken(Inserted(db, q), key) && q.key != key
    ensures KeyTaken(db, key)
  {
    var r :| r in Inserted(db, q).reservations && Inserted(db, q).reservations[r].key == key;
    assert r in db.reservations && db.reservations[r].key == key;
  }

  lemma {:induction false} InsertCommitsTask(db: Db, q: ReservationRequest, run: Id, task: Id)
    requires q.id !in db.reservations
    ensures TaskCommitted(Inserted(db, q), run, task) ==
            TaskCommitted(db, run, task) + if q.run == run && q.task == Some(task) then q.amount else 0.0
  {
    SumPut(db.reservations, HeldFor(run, task), q.id, Reservation(q.run, q.task, q.amount, Reserved, q.key, q.purpose));
  }

  /** Booking one choice takes its cost from the run and from its task, and nothing else. */
  lemma {:induction false} BookOne(db: Db, percent: real, choice: Choice, next: Db)
    requires FreshIds(db, choice.ids) && Persist(db, percent, choice.request, choice.candidate, choice.ids) == Ok(next)
    ensures next.runs == db.runs && next.tasks == db.tasks && next.attempts == db.attempts
    ensures Committed(next, choice.request.run) == Committed(db, choice.request.run) + Cost(choice.candidate)
  {
    hide Reserve, UpdateWarning;
    var booked, warned := PersistAnatomy(db, percent, choice.request, choice.candidate, choice.ids, next);
    var q := Booking(choice.request, choice.candidate, choice.ids);
    BookedAnatomy(db, percent, q, choice.request.taskLimit, 0.0, booked, warned);
    WarningOnly(Inserted(db, q), percent, q.run);
    InsertCommits(db, q, q.run);
  }

  lemma {:induction false} BookOneTask(db: Db, percent: real, choice: Choice, next: Db, task: Id)
    requires FreshIds(db, choice.ids) && Persist(db, percent, choice.request, choice.candidate, choice.ids) == Ok(next)
    ensures TaskCommitted(next, choice.request.run, task) ==
            TaskCommitted(db, choice.request.run, task) + if task == choice.request.task then Cost(choice.candidate) else 0.0
  {
    hide Reserve, UpdateWarning;
    var booked, warned := PersistAnatomy(db, percent, choice.request, choice.candidate, choice.ids, next);
    var q := Booking(choice.request, choice.candidate, choice.ids);
    BookedAnatomy(db, percent, q, choice.request.taskLimit, 0.0, booked, warned);
    WarningOnly(Inserted(db, q), percent, q.run);
    InsertCommitsTask(db, q, q.run, task);
  }

  lemma {:induction false} InsertKeepsFresh(db: Db, percent: real, q: ReservationRequest, ids: Ids)
    requires FreshIds(db, ids) && q.id != ids.reservation && q.key != ForAssignment(ids.assignment)
    ensures FreshIds(UpdateWarning(Inserted(db, q), percent, q.run), ids)
  {
    if KeyTaken(Inserted(db, q), ForAssignment(ids.assignment)) {
      KeyTakenGrows(db, q, ForAssignment(ids.assignment));
    }
  }

  lemma {:induction false} BookOneFresh(db: Db, percent: real, choice: Choice, next: Db, ids: Ids)
    requires FreshIds(db, choice.ids) && Persist(db, percent, choice.request, choice.candidate, choice.ids) == Ok(next)
    requires FreshIds(db, ids) && Apart(choice.ids, ids)
    ensures FreshIds(next, ids)
  {
    hide Reserve, UpdateWarning;
    var booked, warned := PersistAnatomy(db, percent, choice.request, choice.candidate, choice.ids, next);
    var q := Booking(choice.request, choice.candidate, choice.ids);
    BookedAnatomy(db, percent, q, choice.request.taskLimit, 0.0, booked, warned);
    InsertKeepsFresh(db, percent, q, ids);
  }

  /** Swapping a fallback in moves the run's money by exactly its cost less what the source gives up:
      the source holds nothing any more, and the new assignment holds its cost. */
  lemma {:induction false} SwapMovesMoney(db: Db, percent: real, q: Request, source: Option<Source>, c: Candidate, ids: Ids, after: Db)
    requires Funded(db) && Owned(db, q) && SourceOf(db, q) == Ok(source) && FreshIds(db, ids)
    requires source.Some? ==> source.value.reservation in db.reservations
    requires Persist(SourceReleased(db, percent, q.run, source), percent, q, c, ids) == Ok(after)
    ensures Committed(after, q.run) == Committed(db, q.run) - Credit(source) + Cost(c)
    ensures source.Some? ==> !IsOpen(after, source.value.reservation)
    ensures IsOpen(after, ids.reservation) && after.reservations[ids.reservation].amount == Cost(c)
  {
    hide Persist, FreshIds, Funded, Committed;
    var mid := SourceReleased(db, percent, q.run, source);
    SourceBelongs(db, q, source);
    CreditIsFreed(db, percent, q, source, mid);
    ReleaseKeepsFresh(db, percent, q.run, source, ids);
    BookOne(mid, percent, Choice(q, c, ids), after);
    BookedIsOpen(mid, percent, Choice(q, c, ids), after);
    ReleasedIsClosed(db, percent, q.run, source);
  }

  lemma {:induction false} ReleasedIsClosed(db: Db, percent: real, run: Id, source: Option<Source>)
    requires source.Some? ==>
      && source.value.reservation in db.reservations
      && source.value.open == db.reservations[source.value.reservation].status.Reserved?
    ensures source.Some? ==> source.value.reservation in SourceReleased(db, percent, run, source).reservations
    ensures source.Some? ==> !IsOpen(SourceReleased(db, percent, run, source), source.value.reservation)
  {
  }

  lemma {:induction false} BookedIsOpen(db: Db, percent: real, choice: Choice, next: Db)
    requires FreshIds(db, choice.ids) && Persist(db, percent, choice.request, choice.candidate, choice.ids) == Ok(next)
    ensures IsOpen(next, choice.ids.reservation) && next.reservations[choice.ids.reservation].amount == Cost(choice.candidate)
    ensures forall r :: r in db.reservations ==> IsOpen(next, r) == IsOpen(db, r)
  {
    hide Reserve, UpdateWarning;
    var booked, warned := PersistAnatomy(db, percent, choice.request, choice.candidate, choice.ids, next);
    var q := Booking(choice.request, choice.candidate, choice.ids);
    BookedAnatomy(db, percent, q, choice.request.taskLimit, 0.0, booked, warned);
    WarningOnly(Inserted(db, q), percent, q.run);
  }

  lemma {:induction false} RestFresh(db: Db, percent: real, choice: Choice, next: Db, rest: seq<Choice>)
    requires FreshIds(db, choice.ids) && Persist(db, percent, choice.request, choice.candidate, choice.ids) == Ok(next)
    requires ChoicesFresh(db, rest) && forall other :: other in rest ==> Apart(choice.ids, other.ids)
    ensures ChoicesFresh(next, rest)
    decreases |rest|
  {
    hide Persist;
    if rest != [] {
      BookOneFresh(db, percent, choice, next, rest[0].ids);
      RestFresh(db, percent, choice, next, rest[1..]);
    }
  }

  /** What the first `n` choices cost one task. */
  function CostFor(choices: seq<Choice>, task: Id): real {
    if choices == [] then 0.0
    else (if choices[0].request.task == task then Cost(choices[0].candidate) else 0.0) + CostFor(choices[1..], task)
  }

  /** For every choice, what its task has committed plus all choices for that task up to this one
      stays within this choice's task limit. */
  ghost predicate TasksFit(db: Db, choices: seq<Choice>) {
    forall i {:trigger choices[i]} :: 0 <= i < |choices| ==>
      TaskAffords(db, choices[i].request, CostFor(choices[..i + 1], choices[i].request.task))
  }

  lemma {:induction false} TasksFitStep(db: Db, percent: real, run: Id, choices: seq<Choice>, next: Db)
    requires choices != [] && Bookable(db, run, choices) && FreshIds(db, choices[0].ids)
    requires Persist(db, percent, choices[0].request, choices[0].candidate, choices[0].ids) == Ok(next)
    requires TaskAffords(db, choices[0].request, Cost(choices[0].candidate))
    ensures TasksFit(db, choices) <==> TasksFit(next, choices[1..])
  {
    hide Persist, FreshIds;
    forall i | 0 <= i < |choices| - 1
      ensures TaskAffords(db, choices[i + 1].request, CostFor(choices[..i + 2], choices[i + 1].request.task)) <==>
              TaskAffords(next, choices[1..][i].request, CostFor(choices[1..][..i + 1], choices[1..][i].request.task))
    {
      var task := choices[i + 1].request.task;
      assert choices[..i + 2][1..] == choices[1..][..i + 1];
      BookOneTask(db, percent, choices[0], next, task);
      assert choices[i + 1] in choices;
    }
    FirstFits(choices);
    ShiftFits(db, next, choices);
  }

  lemma {:induction false} FirstFits(choices: seq<Choice>)
    requires choices != []
    ensures CostFor(choices[..1], choices[0].request.task) == Cost(choices[0].candidate)
  {
    assert choices[..1][1..] == [];
  }

  lemma {:induction false} ShiftFits(db: Db, next: Db, choices: seq<Choice>)
    requires choices != [] && TaskAffords(db, choices[0].request, CostFor(choices[..1], choices[0].request.task))
    requires forall i {:trigger choices[1..][i]} :: 0 <= i < |choices| - 1 ==>
      (TaskAffords(db, choices[i + 1].request, CostFor(choices[..i + 2], choices[i + 1].request.task)) <==>
       TaskAffords(next, choices[1..][i].request, CostFor(choices[1..][..i + 1], choices[1..][i].request.task)))
    ensures TasksFit(db, choices) <==> TasksFit(next, choices[1..])
  {
    if TasksFit(db, choices) {
      forall i | 0 <= i < |choices[1..]|
        ensures TaskAffords(next, choices[1..][i].request, CostFor(choices[1..][..i + 1], choices[1..][i].request.task))
      {
        assert TaskAffords(db, choices[i + 1].request, CostFor(choices[..i + 2], choices[i + 1].request.task));
      }
    }
    if TasksFit(next, choices[1..]) {
      forall i | 0 <= i < |choices|
        ensures TaskAffords(db, choices[i].request, CostFor(choices[..i + 1], choices[i].request.task))
      {
        if i > 0 {
          var _ := choices[1..][i - 1];
          assert TaskAffords(next, choices[1..][i - 1].request, CostFor(choices[1..][..i], choices[1..][i - 1].request.task));
        }
      }
    }
  }

  predicate RunAffords(db: Db, run: Id, cost: real) {
    LimitOf(db, run).Some? ==> Committed(db, run) + cost <= LimitOf(db, run).value
  }

  lemma {:induction false} BookingOutcome(db: Db, percent: real, run: Id, q: ReservationRequest, taskLimit: Option<real>)
    requires run in db.runs && q.run == run && RunAffords(db, run, q.amount) && !KeyTaken(db, q.key)
    requires q.id !in db.reservations && (q.task.Some? ==> q.task.value in db.tasks)
    ensures match Reserve(db, percent, q, taskLimit, 0.0)
            case Ok(_) => !TaskCannotFund(db, q, taskLimit)
            case Err(e) => e == TaskBudgetBlocked && TaskCannotFund(db, q, taskLimit)
  {
    AvailableIsUncommitted(db, run);
  }

  predicate KeyFree(table: map<Id, Assignment>, q: Request) {
    ExistingFor(table, q.attempt, q.fallbackOf).None?
  }

  predicate SameKey(p: Request, q: Request) {
    p.attempt == q.attempt && p.fallbackOf == q.fallbackOf
  }

  /** The decision keys of the choices are free, and no two are the same. */
  predicate KeysFree(table: map<Id, Assignment>, choices: seq<Choice>)
    decreases |choices|
  {
    choices != [] ==>
      && KeyFree(table, choices[0].request)
      && (forall other :: other in choices[1..] ==> !SameKey(other.request, choices[0].request))
      && KeysFree(table, choices[1..])
  }

  lemma {:induction false} KeyFreeAfter(table: map<Id, Assignment>, a: Id, row: Assignment, q: Request)
    requires a !in table
    ensures KeyFree(table[a := row], q) <==> KeyFree(table, q) && !Decides(row, q.attempt, q.fallbackOf)
  {
    var after := table[a := row];
    var existing := ExistingFor(table, q.attempt, q.fallbackOf);
    if existing.Some? {
      assert after[existing.value] == table[existing.value];
    }
    assert after[a] == row;
    var later := ExistingFor(after, q.attempt, q.fallbackOf);
    if later.Some? && later.value != a {
      assert table[later.value] == after[later.value];
    }
  }

  lemma {:induction false} KeysFreeAfter(table: map<Id, Assignment>, a: Id, row: Assignment, first: Request, rest: seq<Choice>)
    requires a !in table && row.attempt == first.attempt && row.fallbackOf == first.fallbackOf
    ensures KeysFree(table[a := row], rest) <==>
            KeysFree(table, rest) && forall other :: other in rest ==> !SameKey(other.request, first)
    decreases |rest|
  {
    hide KeyFree;
    if rest != [] {
      KeyFreeAfter(table, a, row, rest[0].request);
      KeysFreeAfter(table, a, row, first, rest[1..]);
      assert forall other :: other in rest <==> other == rest[0] || other in rest[1..];
    }
  }

  lemma {:induction false} FirstOutcome(db: Db, percent: real, run: Id, choice: Choice)
    requires Bookable(db, run, [choice]) && FreshIds(db, choice.ids) && RunAffords(db, run, Cost(choice.candidate))
    ensures match Persist(db, percent, choice.request, choice.candidate, choice.ids)
            case Ok(_) => TaskAffords(db, choice.request, Cost(choice.candidate)) && KeyFree(db.assignments, choice.request)
            case Err(e) =>
              (e == Ledger(IdempotencyConflict) && !KeyFree(db.assignments, choice.request)) ||
              (e == Ledger(TaskBudgetBlocked) && !TaskAffords(db, choice.request, Cost(choice.candidate)))
  {
    hide Reserve;
    assert choice in [choice];
    BookingOutcome(db, percent, run, Booking(choice.request, choice.candidate, choice.ids), choice.request.taskLimit);
  }

  /** Booking all choices succeeds exactly when the task limits admit them and their decision keys are
      free, and otherwise fails for the one or the other; the budget of the run always admits them. */
  lemma {:induction false} BookAll(db: Db, percent: real, run: Id, choices: seq<Choice>)
    requires Bookable(db, run, choices) && ChoicesFresh(db, choices) && RunAffords(db, run, TotalCost(choices))
    ensures match PersistAll(db, percent, choices)
            case Ok(after) =>
              TasksFit(db, choices) && KeysFree(db.assignments, choices)
              && Committed(after, run) == Committed(db, run) + TotalCost(choices)
            case Err(e) =>
              (e == Ledger(IdempotencyConflict) && !KeysFree(db.assignments, choices)) ||
              (e == Ledger(TaskBudgetBlocked) && !TasksFit(db, choices))
    decreases |choices|
  {
    hide Persist, FreshIds, Committed, TaskCommitted, KeyFree, TasksFit, KeysFree, TaskAffords;
    if choices == [] {
      NoneFit(db);
    } else {
      var choice := choices[0];
      assert choice in choices;
      TotalCostNotNegative(choices[1..]);
      FirstOutcome(db, percent, run, choice);
      FirstMatters(db, choices);
      match Persist(db, percent, choice.request, choice.candidate, choice.ids)
      case Err(e) =>
      case Ok(next) =>
        BookOne(db, percent, choice, next);
        RestFresh(db, percent, choice, next, choices[1..]);
        TasksFitStep(db, percent, run, choices, next);
        KeysFreeStep(db, percent, choices, next);
        BookAll(next, percent, run, choices[1..]);
    }
  }

  lemma {:induction false} NoneFit(db: Db)
    ensures TasksFit(db, []) && KeysFree(db.assignments, [])
  {
  }

  lemma {:induction false} FirstMatters(db: Db, choices: seq<Choice>)
    requires choices != []
    ensures TasksFit(db, choices) ==> TaskAffords(db, choices[0].request, Cost(choices[0].candidate))
    ensures KeysFree(db.assignments, choices) ==> KeyFree(db.assignments, choices[0].request)
  {
    hide TaskAffords, KeyFree;
    FirstFits(choices);
    var _ := choices[0];
  }

  lemma {:induction false} KeysFreeStep(db: Db, percent: real, choices: seq<Choice>, next: Db)
    requires choices != [] && Persist(db, percent, choices[0].request, choices[0].candidate, choices[0].ids) == Ok(next)
    ensures KeysFree(db.assignments, choices) <==> KeysFree(next.assignments, choices[1..])
  {
    hide Persist, Reserve;
    var first := choices[0];
    var booked, _ := PersistAnatomy(db, percent, first.request, first.candidate, first.ids, next);
    KeysFreeAfter(db.assignments, first.ids.assignment, RowOf(booked, first.request, first.candidate, first.ids), first.request, choices[1..]);
  }

  // ----- The batch -----

  predicate LeadFresh(db: Db, ids: seq<Ids>, leadId: Id) {
    !KeyTaken(db, ForBatchLead(leadId)) && leadId !in db.reservations && forall other :: other in ids ==> other.reservation != leadId
  }

  lemma {:induction false} LeadKeepsFresh(db: Db, percent: real, run: Id, lead: Money, leadId: Id, choices: seq<Choice>, booked: Db)
    requires ChoicesFresh(db, choices) && forall choice :: choice in choices ==> choice.ids.reservation != leadId
    requires booked == UpdateWarning(Inserted(db, LeadBooking(run, lead, leadId)), percent, run)
    ensures ChoicesFresh(booked, choices)
    decreases |choices|
  {
    hide FreshIds, UpdateWarning;
    if choices != [] {
      InsertKeepsFresh(db, percent, LeadBooking(run, lead, leadId), choices[0].ids);
      LeadKeepsFresh(db, percent, run, lead, leadId, choices[1..], booked);
    }
  }

  lemma {:induction false} LeadLeavesTasks(db: Db, run: Id, lead: Money, leadId: Id, choices: seq<Choice>, booked: Db)
    requires leadId !in db.reservations && booked.usage == db.usage
    requires booked.reservations == Inserted(db, LeadBooking(run, lead, leadId)).reservations
    ensures TasksFit(booked, choices) <==> TasksFit(db, choices)
  {
    hide Inserted;
    forall i | 0 <= i < |choices|
      ensures TaskCommitted(booked, choices[i].request.run, choices[i].request.task) ==
              TaskCommitted(db, choices[i].request.run, choices[i].request.task)
    {
      InsertCommitsTask(db, LeadBooking(run, lead, leadId), choices[i].request.run, choices[i].request.task);
      InsertLeavesUsage(db, LeadBooking(run, lead, leadId));
    }
    hide TaskCommitted;
  }

  lemma {:induction false} InsertLeavesUsage(db: Db, q: ReservationRequest)
    ensures Inserted(db, q).usage == db.usage && Inserted(db, q).runs == db.runs && Inserted(db, q).tasks == db.tasks
    ensures Inserted(db, q).assignments == db.assignments
  {
  }

  lemma {:induction false} CommitAnatomy(db: Db, percent: real, run: Id, choices: seq<Choice>, lead: Money, leadId: Id)
    ensures var lent := Reserve(db, percent, LeadBooking(run, lead, leadId), None, 0.0);
      Commit(db, percent, run, choices, lead, leadId) ==
      if lent.Err? then Err(Ledger(lent.error)) else PersistAll(lent.value.0, percent, choices)
  {
  }

  lemma {:induction false} LeadOutcome(db: Db, percent: real, run: Id, choices: seq<Choice>, lead: Money, leadId: Id)
    requires run in db.runs && RunAffords(db, run, lead + TotalCost(choices)) && 0.0 <= TotalCost(choices)
    requires !KeyTaken(db, ForBatchLead(leadId)) && leadId !in db.reservations
    ensures Reserve(db, percent, LeadBooking(run, lead, leadId), None, 0.0).Ok?
  {
    hide Reserve;
    BookingOutcome(db, percent, run, LeadBooking(run, lead, leadId), None);
  }

  /** After the lead's allowance is booked, the choices are still fresh and affordable. */
  lemma {:induction false} LeadBooked(db: Db, percent: real, run: Id, choices: seq<Choice>, lead: Money, leadId: Id, booked: Db, warned: bool)
    requires Bookable(db, run, choices) && ChoicesFresh(db, choices) && RunAffords(db, run, lead + TotalCost(choices))
    requires !KeyTaken(db, ForBatchLead(leadId)) && leadId !in db.reservations
    requires forall choice :: choice in choices ==> choice.ids.reservation != leadId
    requires Reserve(db, percent, LeadBooking(run, lead, leadId), None, 0.0) == Ok((booked, warned))
    ensures Bookable(booked, run, choices) && ChoicesFresh(booked, choices) && RunAffords(booked, run, TotalCost(choices))
    ensures Committed(booked, run) == Committed(db, run) + lead && booked.assignments == db.assignments
    ensures TasksFit(booked, choices) <==> TasksFit(db, choices)
  {
    hide Reserve, UpdateWarning, ChoicesFresh, KeyTaken, TasksFit, Inserted, Committed;
    var q := LeadBooking(run, lead, leadId);
    BookedAnatomy(db, percent, q, None, 0.0, booked, warned);
    WarningOnly(Inserted(db, q), percent, run);
    InsertLeavesUsage(db, q);
    InsertCommits(db, q, run);
    SameCommitted(Inserted(db, q), booked, run);
    LeadKeepsFresh(db, percent, run, lead, leadId, choices, booked);
    LeadLeavesTasks(db, run, lead, leadId, choices, booked);
  }

  /** The lead's allowance and the choices together are reserved within the budget of the run, exactly
      when the allowance is not negative, the task limits admit the choices and their keys are free. */
  lemma {:induction false} CommitOutcome(db: Db, percent: real, run: Id, choices: seq<Choice>, lead: real, leadId: Id)
    requires Bookable(db, run, choices) && ChoicesFresh(db, choices) && RunAffords(db, run, lead + TotalCost(choices))
    requires !KeyTaken(db, ForBatchLead(leadId)) && leadId !in db.reservations
    requires forall choice :: choice in choices ==> choice.ids.reservation != leadId
    ensures match Commit(db, percent, run, choices, lead, leadId)
            case Ok(after) =>
              && 0.0 <= lead && TasksFit(db, choices) && KeysFree(db.assignments, choices)
              && Committed(after, run) == Committed(db, run) + lead + TotalCost(choices)
            case Err(e) =>
              || (e == NegativeAllowance && lead < 0.0)
              || (e == Ledger(IdempotencyConflict) && !KeysFree(db.assignments, choices))
              || (e == Ledger(TaskBudgetBlocked) && !TasksFit(db, choices))
  {
    if 0.0 <= lead {
      hide *;
      CommitAnatomy(db, percent, run, choices, lead, leadId);
      TotalCostNotNegative(choices);
      BookableRun(db, run, choices);
      LeadOutcome(db, percent, run, choices, lead, leadId);
      var lent := Reserve(db, percent, LeadBooking(run, lead, leadId), None, 0.0).value;
      LeadBooked(db, percent, run, choices, lead, leadId, lent.0, lent.1);
      BookAll(lent.0, percent, run, choices);
    }
  }

  lemma {:induction false} BookableRun(db: Db, run: Id, choices: seq<Choice>)
    requires Bookable(db, run, choices)
    ensures run in db.runs
  {
  }

  lemma {:induction false} SameCommitted(a: Db, b: Db, run: Id)
    requires a.usage == b.usage && a.reservations == b.reservations
    ensures Committed(a, run) == Committed(b, run)
  {
  }

  lemma {:induction false} ChoosingLeavesTheLedger(db: Db, qs: seq<Request>, offers: seq<RoutingSnapshot>, ids: seq<Ids>, remaining: Option<real>)
    requires |offers| == |qs| == |ids| && ChooseAll(db, qs, offers, ids, remaining).Err?
    ensures !ChooseAll(db, qs, offers, ids, remaining).error.Ledger?
  {
    hide SelectSpec, TaskCommitted;
    if qs != [] && Matches(qs[0], offers[0]) {
      var decision := Decide(db, qs[0], None, BatchFunds(db, qs[0], remaining), offers[0].candidates);
      if decision.Ok? {
        var left := if decision.value.Choose? then After(remaining, decision.value.candidate) else remaining;
        ChoosingLeavesTheLedger(db, qs[1..], offers[1..], ids[1..], left);
      }
    }
  }

  lemma {:induction false} BatchAnatomy(db: Db, percent: real, qs: seq<Request>, offers: seq<RoutingSnapshot>, ids: seq<Ids>, lead: real, leadId: Id)
    requires qs != [] && |offers| == |qs| == |ids| && AttemptsOf(qs) !in db.batches
    ensures var r := AssignBatch(db, percent, qs, offers, ids, lead, leadId);
      var chosen := BatchChoices(db, qs, offers, ids, lead);
      && (r.Ok? || r.error.Ledger? ==>
            && chosen.Ok?
            && (forall q :: q in qs ==> q.run == qs[0].run && Owned(db, q)))
      && (r.Err? && r.error.Ledger? ==>
            chosen.value.chosen != [] && Commit(db, percent, qs[0].run, chosen.value.chosen, lead, leadId) == Err(r.error))
      && (r.Ok? && r.value.1.lead.Some? ==>
            && chosen.value.chosen != []
            && var booked := Commit(db, percent, qs[0].run, chosen.value.chosen, lead, leadId);
               booked.Ok? && r.value.0 == booked.value.(batches := r.value.0.batches))
      && (r.Ok? && r.value.1.lead.None? ==> r.value.0 == db)
  {
    hide Decide, SnapshotOf, Persist, Reserve;
    var remaining := More(SnapshotOf(db, qs[0].run).available, 0.0 - lead);
    if BatchChoices(db, qs, offers, ids, lead).Err? {
      ChoosingLeavesTheLedger(db, WithBaselines(db, qs), offers, ids, remaining);
    }
  }

  /** What is chosen from owned requests can be booked within the budget. */
  lemma {:induction false} BatchIsAffordable(db: Db, qs: seq<Request>, offers: seq<RoutingSnapshot>, ids: seq<Ids>, lead: real, leadId: Id, choices: Choices)
    requires qs != [] && |offers| == |qs| == |ids| && AllFresh(db, ids) && LeadFresh(db, ids, leadId)
    requires BatchChoices(db, qs, offers, ids, lead) == Ok(choices) && choices.chosen != []
    requires forall q :: q in qs ==> q.run == qs[0].run && Owned(db, q)
    ensures var run := qs[0].run;
      && Bookable(db, run, choices.chosen) && ChoicesFresh(db, choices.chosen)
      && RunAffords(db, run, lead + TotalCost(choices.chosen))
      && (forall choice :: choice in choices.chosen ==> choice.ids.reservation != leadId)
      && !KeyTaken(db, ForBatchLead(leadId)) && leadId !in db.reservations
  {
    hide Decide, FreshIds, TaskCommitted, Committed;
    var rs := WithBaselines(db, qs);
    var remaining := More(SnapshotOf(db, qs[0].run).available, 0.0 - lead);
    ChosenFresh(db, rs, offers, ids, remaining, choices);
    ChosenFit(db, rs, offers, ids, remaining, choices);
    AvailableIsUncommitted(db, qs[0].run);
    ChosenAnswer(db, rs, offers, ids, remaining, choices);
    forall choice | choice in choices.chosen
      ensures choice.request.run == qs[0].run && choice.request.task in db.tasks && choice.ids.reservation != leadId
    {
      assert Answers(db, choice, rs, ids);
      var i :| 0 <= i < |rs| && rs[i] == choice.request;
      assert Owned(db, qs[i]);
    }
    assert qs[0].run in db.runs;
  }

  /** With fresh identifiers a batch of owned requests with something chosen is persisted exactly when
      the allowance is not negative, the task limits admit the choices together and their decision
      keys are free; the ledger refuses it for nothing else, and never for the budget of the run. */
  lemma {:induction false} BatchNeverTripsTheRun(db: Db, percent: real, qs: seq<Request>, offers: seq<RoutingSnapshot>, ids: seq<Ids>, lead: real, leadId: Id)
    requires qs != [] && |offers| == |qs| == |ids| && AllFresh(db, ids) && LeadFresh(db, ids, leadId)
    requires AttemptsOf(qs) !in db.batches
    ensures var r := AssignBatch(db, percent, qs, offers, ids, lead, leadId);
      var choices := BatchChoices(db, qs, offers, ids, lead);
      && (r.Ok? ==> choices.Ok?)
      && (r.Err? && r.error.Ledger? ==>
            && choices.Ok?
            && ((r.error.ledger == IdempotencyConflict && !KeysFree(db.assignments, choices.value.chosen)) ||
                (r.error.ledger == TaskBudgetBlocked && !TasksFit(db, choices.value.chosen))))
      && (choices.Ok? && choices.value.chosen != [] && (forall q :: q in qs ==> q.run == qs[0].run && Owned(db, q)) ==>
            (r.Ok? <==> 0.0 <= lead && TasksFit(db, choices.value.chosen) && KeysFree(db.assignments, choices.value.chosen)))
  {
    hide *;
    BatchAnatomy(db, percent, qs, offers, ids, lead, leadId);
    var choices := BatchChoices(db, qs, offers, ids, lead);
    if choices.Ok? && choices.value.chosen != [] && (forall q :: q in qs ==> q.run == qs[0].run && Owned(db, q)) {
      BatchIsAffordable(db, qs, offers, ids, lead, leadId, choices.value);
      CommitOutcome(db, percent, qs[0].run, choices.value.chosen, lead, leadId);
      BatchIsCommitted(db, percent, qs, offers, ids, lead, leadId);
    }
  }

  lemma {:induction false} BatchIsCommitted(db: Db, percent: real, qs: seq<Request>, offers: seq<RoutingSnapshot>, ids: seq<Ids>, lead: real, leadId: Id)
    requires qs != [] && |offers| == |qs| == |ids| && AttemptsOf(qs) !in db.batches
    requires forall q :: q in qs ==> q.run == qs[0].run && Owned(db, q)
    requires var choices := BatchChoices(db, qs, offers, ids, lead); choices.Ok? && choices.value.chosen != []
    ensures var committed := Commit(db, percent, qs[0].run, BatchChoices(db, qs, offers, ids, lead).value.chosen, lead, leadId);
      var r := AssignBatch(db, percent, qs, offers, ids, lead, leadId);
      (r.Ok? <==> committed.Ok?) && (r.Err? ==> r.error == committed.error)
  {
    hide BatchChoices, Commit, Owned;
  }

  // ----- A batch that succeeds -----

  /** Automatic candidates are rated and manual requests have their pin, so that no selection fails. */
  predicate Selectable(q: Request, offer: RoutingSnapshot) {
    if q.requirements.mode == Manual then q.pin.Some?
    else forall c :: c in offer.candidates ==> c.capability.Some?
  }

  lemma {:induction false} SelectableDecides(db: Db, q: Request, offer: RoutingSnapshot, funds: Option<real>)
    requires Selectable(q, offer)
    ensures Decide(db, q, None, funds, offer.candidates).Ok?
  {
    hide SelectSpec;
    ErrsExactly(offer.candidates, q.requirements, funds, q.pin);
  }

  predicate AllSelectable(qs: seq<Request>, offers: seq<RoutingSnapshot>)
    requires |offers| == |qs|
  {
    qs != [] ==> Matches(qs[0], offers[0]) && Selectable(qs[0], offers[0]) && AllSelectable(qs[1..], offers[1..])
  }

  predicate RequestKeysFree(table: map<Id, Assignment>, qs: seq<Request>)
    decreases |qs|
  {
    qs != [] ==>
      && KeyFree(table, qs[0])
      && (forall other :: other in qs[1..] ==> !SameKey(other, qs[0]))
      && RequestKeysFree(table, qs[1..])
  }

  lemma {:induction false} ChoicesAreMade(db: Db, qs: seq<Request>, offers: seq<RoutingSnapshot>, ids: seq<Ids>, remaining: Option<real>)
    requires |offers| == |qs| == |ids| && AllSelectable(qs, offers) && RequestKeysFree(db.assignments, qs)
    ensures ChooseAll(db, qs, offers, ids, remaining).Ok?
    ensures KeysFree(db.assignments, ChooseAll(db, qs, offers, ids, remaining).value.chosen)
  {
    hide Decide, TaskCommitted, KeyFree, Selectable;
    if qs != [] {
      SelectableDecides(db, qs[0], offers[0], BatchFunds(db, qs[0], remaining));
      var decision := Decide(db, qs[0], None, BatchFunds(db, qs[0], remaining), offers[0].candidates).value;
      var left := if decision.Choose? then After(remaining, decision.candidate) else remaining;
      ChoicesAreMade(db, qs[1..], offers[1..], ids[1..], left);
      var rest := ChooseAll(db, qs[1..], offers[1..], ids[1..], left).value;
      if decision.Choose? {
        ChosenAnswer(db, qs[1..], offers[1..], ids[1..], left, rest);
        var chosen := ChooseAll(db, qs, offers, ids, remaining).value.chosen;
        assert chosen[1..] == rest.chosen;
        forall other | other in rest.chosen ensures !SameKey(other.request, qs[0]) {
          assert Answers(db, other, qs[1..], ids[1..]);
        }
      }
    }
  }

  lemma {:induction false} BaselinesSelectable(db: Db, qs: seq<Request>, rs: seq<Request>, offers: seq<RoutingSnapshot>)
    requires |rs| == |qs| == |offers| && forall i :: 0 <= i < |qs| ==> rs[i] == WithBaseline(db, qs[i])
    requires AllSelectable(qs, offers) && RequestKeysFree(db.assignments, qs)
    ensures AllSelectable(rs, offers) && RequestKeysFree(db.assignments, rs)
    decreases |qs|
  {
    hide KeyFree, Latest;
    if qs != [] {
      BaselinesSelectable(db, qs[1..], rs[1..], offers[1..]);
      SameKeyFree(db.assignments, qs[0], rs[0]);
      forall other | other in rs[1..] ensures !SameKey(other, rs[0]) {
        var i :| 0 <= i < |rs| - 1 && rs[1..][i] == other;
        assert qs[1..][i] in qs[1..] && other == WithBaseline(db, qs[i + 1]);
      }
    }
  }

  lemma {:induction false} SameKeyFree(table: map<Id, Assignment>, p: Request, q: Request)
    requires SameKey(p, q)
    ensures KeyFree(table, p) <==> KeyFree(table, q)
  {
  }

  /** A batch of owned requests in one run, for different tasks, with matching offers, fresh
      identifiers and free decision keys, always succeeds. */
  lemma {:induction false} BatchSucceeds(db: Db, percent: real, qs: seq<Request>, offers: seq<RoutingSnapshot>, ids: seq<Ids>, lead: real, leadId: Id)
    requires qs != [] && |offers| == |qs| == |ids| && AllFresh(db, ids) && LeadFresh(db, ids, leadId) && 0.0 <= lead
    requires forall q :: q in qs ==> q.run == qs[0].run && Owned(db, q)
    requires AllSelectable(qs, offers) && RequestKeysFree(db.assignments, qs)
    requires forall task :: RequestedTasks(qs)[task] <= 1
    ensures AssignBatch(db, percent, qs, offers, ids, lead, leadId).Ok?
  {
    hide *;
    if AttemptsOf(qs) in db.batches {
      KnownBatch(db, percent, qs, offers, ids, lead, leadId);
    } else {
      BatchChoicesAreMade(db, qs, offers, ids, lead);
      var choices := BatchChoices(db, qs, offers, ids, lead).value;
      DistinctTasksFit(db, qs, offers, ids, lead, choices);
      BatchNeverTripsTheRun(db, percent, qs, offers, ids, lead, leadId);
      if choices.chosen == [] {
        NothingChosen(db, percent, qs, offers, ids, lead, leadId);
      }
    }
  }

  lemma {:induction false} KnownBatch(db: Db, percent: real, qs: seq<Request>, offers: seq<RoutingSnapshot>, ids: seq<Ids>, lead: real, leadId: Id)
    requires |offers| == |qs| == |ids| && AttemptsOf(qs) in db.batches
    requires forall q :: q in qs ==> q.run == qs[0].run && Owned(db, q)
    ensures AssignBatch(db, percent, qs, offers, ids, lead, leadId).Ok?
  {
  }

  lemma {:induction false} NothingChosen(db: Db, percent: real, qs: seq<Request>, offers: seq<RoutingSnapshot>, ids: seq<Ids>, lead: real, leadId: Id)
    requires qs != [] && |offers| == |qs| == |ids|
    requires forall q :: q in qs ==> q.run == qs[0].run && Owned(db, q)
    requires BatchChoices(db, qs, offers, ids, lead).Ok? && BatchChoices(db, qs, offers, ids, lead).value.chosen == []
    ensures AssignBatch(db, percent, qs, offers, ids, lead, leadId).Ok?
  {
    hide BatchChoices, Owned;
  }

  lemma {:induction false} BatchChoicesAreMade(db: Db, qs: seq<Request>, offers: seq<RoutingSnapshot>, ids: seq<Ids>, lead: real)
    requires qs != [] && |offers| == |qs| == |ids| && AllSelectable(qs, offers) && RequestKeysFree(db.assignments, qs)
    ensures BatchChoices(db, qs, offers, ids, lead).Ok?
    ensures KeysFree(db.assignments, BatchChoices(db, qs, offers, ids, lead).value.chosen)
  {
    hide ChooseAll, AllSelectable, RequestKeysFree, KeysFree, SnapshotOf;
    BaselinesSelectable(db, qs, WithBaselines(db, qs), offers);
    ChoicesAreMade(db, WithBaselines(db, qs), offers, ids, More(SnapshotOf(db, qs[0].run).available, 0.0 - lead));
  }

  /** The answer of a batch names one assignment for each choice and one deferral for each other
      request; together they are the requested tasks. */
  lemma {:induction false} BatchAnswersEach(db: Db, percent: real, qs: seq<Request>, offers: seq<RoutingSnapshot>, ids: seq<Ids>, lead: real, leadId: Id,
                         after: Db, answer: Batch)
    requires qs != [] && |offers| == |qs| == |ids| && AttemptsOf(qs) !in db.batches
    requires AssignBatch(db, percent, qs, offers, ids, lead, leadId) == Ok((after, answer))
    ensures BatchChoices(db, qs, offers, ids, lead).Ok?
    ensures var choices := BatchChoices(db, qs, offers, ids, lead).value;
      && answer.assignments == AssignmentIds(choices.chosen) && answer.deferred == choices.deferred
      && ChosenTasks(choices.chosen) + DeferredTasks(answer.deferred) == RequestedTasks(qs)
      && (answer.lead == None <==> choices.chosen == [])
  {
    hide *;
    AnswerAnatomy(db, percent, qs, offers, ids, lead, leadId, after, answer);
    ChoicesAnswerEach(db, qs, offers, ids, lead, BatchChoices(db, qs, offers, ids, lead).value);
  }

  lemma {:induction false} AnswerAnatomy(db: Db, percent: real, qs: seq<Request>, offers: seq<RoutingSnapshot>, ids: seq<Ids>, lead: real, leadId: Id,
                         after: Db, answer: Batch)
    requires qs != [] && |offers| == |qs| == |ids| && AttemptsOf(qs) !in db.batches
    requires AssignBatch(db, percent, qs, offers, ids, lead, leadId) == Ok((after, answer))
    ensures BatchChoices(db, qs, offers, ids, lead).Ok?
    ensures var choices := BatchChoices(db, qs, offers, ids, lead).value;
      && answer.assignments == AssignmentIds(choices.chosen) && answer.deferred == choices.deferred
      && (answer.lead == None <==> choices.chosen == [])
  {
    hide BatchChoices, Commit, Owned;
  }

  lemma {:induction false} ChoicesAnswerEach(db: Db, qs: seq<Request>, offers: seq<RoutingSnapshot>, ids: seq<Ids>, lead: real, choices: Choices)
    requires qs != [] && |offers| == |qs| == |ids| && BatchChoices(db, qs, offers, ids, lead) == Ok(choices)
    ensures ChosenTasks(choices.chosen) + DeferredTasks(choices.deferred) == RequestedTasks(qs)
  {
    hide ChooseAll, SnapshotOf, ChosenTasks, DeferredTasks, RequestedTasks;
    var rs := WithBaselines(db, qs);
    EachIsAnswered(db, rs, offers, ids, More(SnapshotOf(db, qs[0].run).available, 0.0 - lead), choices);
    SameTasks(db, qs, rs);
  }

  // ----- Task limits inside one batch -----

  lemma {:induction false} CostForNone(choices: seq<Choice>, task: Id)
    requires ChosenTasks(choices)[task] == 0
    ensures CostFor(choices, task) == 0.0
  {
    if choices != [] {
      CostForNone(choices[1..], task);
    }
  }

  lemma {:induction false} PrefixTasks(choices: seq<Choice>, n: nat)
    requires n <= |choices|
    ensures ChosenTasks(choices[..n]) <= ChosenTasks(choices)
  {
    if n > 0 {
      assert choices[..n][1..] == choices[1..][..n - 1];
      PrefixTasks(choices[1..], n - 1);
    }
  }

  lemma {:induction false} TaskIsChosen(choices: seq<Choice>, i: nat)
    requires i < |choices|
    ensures ChosenTasks(choices)[choices[i].request.task] >= 1
  {
    if i > 0 {
      TaskIsChosen(choices[1..], i - 1);
    }
  }

  lemma {:induction false} CostForOne(choices: seq<Choice>, i: nat)
    requires i < |choices| && forall task :: ChosenTasks(choices)[task] <= 1
    ensures CostFor(choices[..i + 1], choices[i].request.task) == Cost(choices[i].candidate)
  {
    var task := choices[i].request.task;
    if i == 0 {
      FirstFits(choices);
    } else {
      TaskIsChosen(choices[1..], i - 1);
      assert choices[1..][i - 1] == choices[i] && ChosenTasks(choices)[task] <= 1;
      assert choices[0].request.task != task;
      forall t ensures ChosenTasks(choices[1..])[t] <= 1 {
        assert ChosenTasks(choices)[t] <= 1;
      }
      CostForOne(choices[1..], i - 1);
      assert choices[..i + 1][1..] == choices[1..][..i];
    }
  }

  /** A batch with at most one request for each task always fits the task limits. */
  lemma {:induction false} DistinctTasksFit(db: Db, qs: seq<Request>, offers: seq<RoutingSnapshot>, ids: seq<Ids>, lead: real, choices: Choices)
    requires qs != [] && |offers| == |qs| == |ids| && BatchChoices(db, qs, offers, ids, lead) == Ok(choices)
    requires forall task :: RequestedTasks(qs)[task] <= 1
    ensures TasksFit(db, choices.chosen)
  {
    hide Decide, TaskCommitted, SnapshotOf;
    var rs := WithBaselines(db, qs);
    var remaining := More(SnapshotOf(db, qs[0].run).available, 0.0 - lead);
    SameTasks(db, qs, rs);
    EachIsAnswered(db, rs, offers, ids, remaining, choices);
    ChosenAnswer(db, rs, offers, ids, remaining, choices);
    forall task ensures ChosenTasks(choices.chosen)[task] <= 1 {
      assert RequestedTasks(qs)[task] <= 1;
    }
    forall i | 0 <= i < |choices.chosen|
      ensures TaskAffords(db, choices.chosen[i].request, CostFor(choices.chosen[..i + 1], choices.chosen[i].request.task))
    {
      CostForOne(choices.chosen, i);
      assert Answers(db, choices.chosen[i], rs, ids);
    }
  }

  lemma {:induction false} SameTasks(db: Db, qs: seq<Request>, rs: seq<Request>)
    requires |rs| == |qs| && forall i :: 0 <= i < |qs| ==> rs[i] == WithBaseline(db, qs[i])
    ensures RequestedTasks(rs) == RequestedTasks(qs)
  {
    hide Latest;
    if qs != [] {
      SameTasks(db, qs[1..], rs[1..]);
    }
  }

  /** Two requests for one task are each measured against what was committed before the batch, so
      together they can exceed the task's limit, and then the batch fails as a whole. */
  lemma {:induction false} TwoForOneTask(db: Db, a: Choice, b: Choice)
    requires a.request.task == b.request.task && b.request.taskLimit.Some?
    requires TaskCommitted(db, b.request.run, b.request.task) + Cost(a.candidate) + Cost(b.candidate) > b.request.taskLimit.value
    ensures !TasksFit(db, [a, b])
  {
    hide TaskCommitted;
    var both := [a, b];
    assert both[..1 + 1] == both && both[1..] == [b] && both[1..][1..] == [];
    assert CostFor([b], b.request.task) == Cost(b.candidate) + CostFor([b][1..], b.request.task);
    assert CostFor(both, b.request.task) == Cost(a.candidate) + Cost(b.candidate);
    assert both[1] == b;
  }

  // ----- What a batch keeps -----

  /** Every chosen fallback finds its source ready when its turn comes. */
  ghost predicate ReadyInTurn(db: Db, percent: real, choices: seq<Choice>)
    decreases |choices|
  {
    choices != [] ==>
      && SourceReady(db, choices[0].request, choices[0].candidate.key.model)
      && var next := Persist(db, percent, choices[0].request, choices[0].candidate, choices[0].ids);
         next.Ok? ==> ReadyInTurn(next.value, percent, choices[1..])
  }

  /** The row of `a` names a source that is missing, of another attempt or model, not older, or
      still holding money. */
  ghost predicate Broken(db: Db, a: Id) {
    && a in db.assignments && db.assignments[a].rowid < |db.assignments| && db.assignments[a].fallbackOf.Some?
    && var row := db.assignments[a];
       var s := row.fallbackOf.value;
       s in db.assignments ==>
         || db.assignments[s].attempt != row.attempt || db.assignments[s].model != row.model
         || db.assignments[s].rowid >= row.rowid || IsOpen(db, db.assignments[s].reservation)
  }

  lemma {:induction false} BrokenIsNoInv(db: Db, a: Id)
    requires Broken(db, a)
    ensures !AssignmentsInv(db)
  {
    hide LedgerInv, Funded, DecidedOnce;
    var row := db.assignments[a];
    if ChainedRow(db.assignments, row) {
      assert db.assignments[a].fallbackOf == row.fallbackOf;
    }
  }

  lemma {:induction false} NotReadyBreaks(db: Db, percent: real, q: Request, c: Candidate, ids: Ids, after: Db)
    requires Funded(db) && Persist(db, percent, q, c, ids) == Ok(after) && !SourceReady(db, q, c.key.model)
    ensures Broken(after, ids.assignment)
  {
    hide Reserve, Persist, Funded;
    var booked, warned := PersistAnatomy(db, percent, q, c, ids, after);
    OpenStaysOpen(db, percent, Booking(q, c, ids), q.taskLimit, booked, warned);
  }

  lemma {:induction false} OpenStaysOpen(db: Db, percent: real, q: ReservationRequest, taskLimit: Option<real>, booked: Db, warned: bool)
    requires Reserve(db, percent, q, taskLimit, 0.0) == Ok((booked, warned))
    ensures forall r :: IsOpen(db, r) ==> IsOpen(booked, r)
  {
    hide UpdateWarning;
    WarningOnly(Inserted(db, q), percent, q.run);
  }

  lemma {:induction false} StaysBroken(db: Db, percent: real, q: Request, c: Candidate, ids: Ids, after: Db, a: Id)
    requires Persist(db, percent, q, c, ids) == Ok(after) && Broken(db, a)
    ensures Broken(after, a)
  {
    hide Reserve, Persist;
    var booked, warned := PersistAnatomy(db, percent, q, c, ids, after);
    OpenStaysOpen(db, percent, Booking(q, c, ids), q.taskLimit, booked, warned);
  }

  lemma {:induction false} AllStaysBroken(db: Db, percent: real, choices: seq<Choice>, after: Db, a: Id)
    requires PersistAll(db, percent, choices) == Ok(after) && Broken(db, a)
    ensures Broken(after, a)
    decreases |choices|
  {
    hide Persist, Broken;
    if choices != [] {
      var first := choices[0];
      var next := Persist(db, percent, first.request, first.candidate, first.ids).value;
      StaysBroken(db, percent, first.request, first.candidate, first.ids, next, a);
      AllStaysBroken(next, percent, choices[1..], after, a);
    }
  }

  /** Persisting choices keeps the invariants exactly when every source is ready in its turn. */
  lemma {:induction false} PersistAllKeeps(db: Db, percent: real, choices: seq<Choice>, after: Db)
    requires AssignmentsInv(db) && PersistAll(db, percent, choices) == Ok(after)
    requires forall choice :: choice in choices ==> Owned(db, choice.request)
    ensures AssignmentsInv(after) <==> ReadyInTurn(db, percent, choices)
    ensures ReadyInTurn(db, percent, choices) ==> AssignmentsKept(db, after) && LedgerEvolves(db, after)
    decreases |choices|
  {
    hide AssignmentsInv, LedgerInv, LedgerEvolves, AssignmentsKept, Persist, SourceReady, Broken, Funded;
    if choices == [] {
      Unchanged(db);
    } else {
      var first := choices[0];
      assert first in choices;
      InvParts(db);
      var next := Persist(db, percent, first.request, first.candidate, first.ids).value;
      if SourceReady(db, first.request, first.candidate.key.model) {
        PersistKeeps(db, percent, first.request, first.candidate, first.ids, next);
        PersistLeavesOwners(db, percent, first.request, first.candidate, first.ids, next);
        PersistAllKeeps(next, percent, choices[1..], after);
        if ReadyInTurn(next, percent, choices[1..]) {
          LedgerEvolvesTransitive(db, next, after);
          KeptTransitive(db, next, after);
        }
      } else {
        NotReadyBreaks(db, percent, first.request, first.candidate, first.ids, next);
        AllStaysBroken(next, percent, choices[1..], after, first.ids.assignment);
        BrokenIsNoInv(after, first.ids.assignment);
      }
    }
  }

  lemma {:induction false} PersistLeavesOwners(db: Db, percent: real, q: Request, c: Candidate, ids: Ids, next: Db)
    requires Persist(db, percent, q, c, ids) == Ok(next)
    ensures next.runs == db.runs && next.tasks == db.tasks && next.attempts == db.attempts
  {
    hide Persist, Reserve, AssignmentsKept, SameOwners;
    var booked, warned := PersistAnatomy(db, percent, q, c, ids, next);
    ReserveLeavesRows(db, percent, Booking(q, c, ids), q.taskLimit, booked, warned);
  }

  lemma {:induction false} KeptTransitive(a: Db, b: Db, c: Db)
    requires AssignmentsKept(a, b) && AssignmentsKept(b, c)
    ensures AssignmentsKept(a, c)
  {
  }

  lemma {:induction false} BookingKeeps(db: Db, percent: real, q: ReservationRequest, taskLimit: Option<real>, after: Db, warned: bool)
    requires AssignmentsInv(db) && Reserve(db, percent, q, taskLimit, 0.0) == Ok((after, warned))
    ensures AssignmentsInv(after) && AssignmentsKept(db, after) && LedgerEvolves(db, after)
    ensures after.runs == db.runs && after.tasks == db.tasks && after.attempts == db.attempts
  {
    hide *;
    InvParts(db);
    ReserveKeeps(db, percent, q, taskLimit, 0.0, after, warned);
    ReserveLeavesRows(db, percent, q, taskLimit, after, warned);
    LedgerStepKeeps(db, after);
  }

  lemma {:induction false} ReserveLeavesRows(db: Db, percent: real, q: ReservationRequest, taskLimit: Option<real>, after: Db, warned: bool)
    requires Reserve(db, percent, q, taskLimit, 0.0) == Ok((after, warned))
    ensures after.runs == db.runs && after.tasks == db.tasks && after.attempts == db.attempts && after.assignments == db.assignments
    ensures SameOwners(db, after) && AssignmentsKept(db, after)
  {
    hide UpdateWarning;
    WarningOnly(Inserted(db, q), percent, q.run);
  }

  lemma {:induction false} CommitKeeps(db: Db, percent: real, run: Id, choices: seq<Choice>, lead: real, leadId: Id, after: Db)
    requires AssignmentsInv(db) && Commit(db, percent, run, choices, lead, leadId) == Ok(after)
    requires forall choice :: choice in choices ==> Owned(db, choice.request)
    ensures Lent(db, percent, run, lead, leadId).Ok?
    ensures var lent := Lent(db, percent, run, lead, leadId).value; AssignmentsInv(after) <==> ReadyInTurn(lent, percent, choices)
    ensures AssignmentsInv(after) ==> AssignmentsKept(db, after) && LedgerEvolves(db, after)
  {
    hide AssignmentsInv, LedgerInv, LedgerEvolves, AssignmentsKept, Reserve, PersistAll, ReadyInTurn;
    var lent := Reserve(db, percent, LeadBooking(run, lead, leadId), None, 0.0).value;
    BookingKeeps(db, percent, LeadBooking(run, lead, leadId), None, lent.0, lent.1);
    PersistAllKeeps(lent.0, percent, choices, after);
    if AssignmentsInv(after) {
      LedgerEvolvesTransitive(db, lent.0, after);
      KeptTransitive(db, lent.0, after);
    }
  }

  /** The books once the lead's allowance is reserved. */
  function Lent(db: Db, percent: real, run: Id, lead: real, leadId: Id): Result<Db, LedgerError> {
    if lead < 0.0 then Err(IntegrityError)
    else
      match Reserve(db, percent, LeadBooking(run, lead, leadId), None, 0.0)
      case Err(e) => Err(e)
      case Ok((booked, _)) => Ok(booked)
  }

  lemma {:induction false} ChosenAreOwned(db: Db, qs: seq<Request>, offers: seq<RoutingSnapshot>, ids: seq<Ids>, lead: real, choices: Choices)
    requires qs != [] && |offers| == |qs| == |ids| && BatchChoices(db, qs, offers, ids, lead) == Ok(choices)
    requires forall q :: q in qs ==> Owned(db, q)
    ensures forall choice :: choice in choices.chosen ==>
      Owned(db, choice.request) && exists q :: q in qs && SameKey(choice.request, q)
  {
    hide Decide, TaskCommitted, SnapshotOf;
    var rs := WithBaselines(db, qs);
    ChosenAnswer(db, rs, offers, ids, More(SnapshotOf(db, qs[0].run).available, 0.0 - lead), choices);
    forall choice | choice in choices.chosen
      ensures Owned(db, choice.request) && exists q :: q in qs && SameKey(choice.request, q)
    {
      assert Answers(db, choice, rs, ids);
      var i :| 0 <= i < |rs| && rs[i] == choice.request;
      assert Owned(db, qs[i]) && qs[i] in qs && SameKey(choice.request, qs[i]);
    }
  }

  lemma {:induction false} BatchReplays(db: Db, percent: real, qs: seq<Request>, offers: seq<RoutingSnapshot>, ids: seq<Ids>, lead: real, leadId: Id)
    requires |offers| == |qs| == |ids| && (qs == [] || AttemptsOf(qs) in db.batches)
    ensures var r := AssignBatch(db, percent, qs, offers, ids, lead, leadId); r.Ok? ==> r.value.0 == db
  {
  }

  /** What a batch is about to write, if anything: its sources are ready in turn. */
  ghost predicate BatchReady(db: Db, percent: real, qs: seq<Request>, offers: seq<RoutingSnapshot>, ids: seq<Ids>, lead: real, leadId: Id)
    requires |offers| == |qs| == |ids|
  {
    qs != [] && AttemptsOf(qs) !in db.batches && BatchChoices(db, qs, offers, ids, lead).Ok? && Lent(db, percent, qs[0].run, lead, leadId).Ok? ==>
      ReadyInTurn(Lent(db, percent, qs[0].run, lead, leadId).value, percent, BatchChoices(db, qs, offers, ids, lead).value.chosen)
  }

  /** A batch keeps every invariant exactly when each chosen fallback finds its source ready. */
  lemma {:induction false} BatchKeeps(db: Db, percent: real, qs: seq<Request>, offers: seq<RoutingSnapshot>, ids: seq<Ids>, lead: real, leadId: Id,
                   after: Db, answer: Batch)
    requires |offers| == |qs| == |ids| && AssignmentsInv(db)
    requires AssignBatch(db, percent, qs, offers, ids, lead, leadId) == Ok((after, answer))
    ensures AssignmentsInv(after) <==> BatchReady(db, percent, qs, offers, ids, lead, leadId)
    ensures AssignmentsInv(after) ==> AssignmentsKept(db, after) && LedgerEvolves(db, after)
  {
    hide *;
    Unchanged(db);
    if qs == [] || AttemptsOf(qs) in db.batches {
      BatchReplays(db, percent, qs, offers, ids, lead, leadId);
      NothingToReady(db, percent, qs, offers, ids, lead, leadId);
    } else {
      BatchAnatomy(db, percent, qs, offers, ids, lead, leadId);
      var choices := BatchChoices(db, qs, offers, ids, lead).value;
      if answer.lead.Some? {
        ChosenAreOwned(db, qs, offers, ids, lead, choices);
        var booked := Commit(db, percent, qs[0].run, choices.chosen, lead, leadId).value;
        CommitKeeps(db, percent, qs[0].run, choices.chosen, lead, leadId, booked);
        BatchesAlone(db, booked, after);
        ReadyMeans(db, percent, qs, offers, ids, lead, leadId);
      } else {
        AnswerAnatomy(db, percent, qs, offers, ids, lead, leadId, after, answer);
        NothingToReady(db, percent, qs, offers, ids, lead, leadId);
      }
    }
  }

  lemma {:induction false} NothingToReady(db: Db, percent: real, qs: seq<Request>, offers: seq<RoutingSnapshot>, ids: seq<Ids>, lead: real, leadId: Id)
    requires |offers| == |qs| == |ids|
    requires qs == [] || AttemptsOf(qs) in db.batches ||
             (BatchChoices(db, qs, offers, ids, lead).Ok? && BatchChoices(db, qs, offers, ids, lead).value.chosen == [])
    ensures BatchReady(db, percent, qs, offers, ids, lead, leadId)
  {
    hide BatchChoices, Lent;
  }

  lemma {:induction false} ReadyMeans(db: Db, percent: real, qs: seq<Request>, offers: seq<RoutingSnapshot>, ids: seq<Ids>, lead: real, leadId: Id)
    requires qs != [] && |offers| == |qs| == |ids| && AttemptsOf(qs) !in db.batches
    requires BatchChoices(db, qs, offers, ids, lead).Ok? && Lent(db, percent, qs[0].run, lead, leadId).Ok?
    ensures BatchReady(db, percent, qs, offers, ids, lead, leadId) <==>
      ReadyInTurn(Lent(db, percent, qs[0].run, lead, leadId).value, percent, BatchChoices(db, qs, offers, ids, lead).value.chosen)
  {
    hide BatchChoices, Lent, ReadyInTurn;
  }

  lemma {:induction false} BatchesAlone(db: Db, booked: Db, after: Db)
    requires after == booked.(batches := after.batches)
    ensures AssignmentsInv(after) <==> AssignmentsInv(booked)
    ensures AssignmentsKept(db, booked) && LedgerEvolves(db, booked) ==> AssignmentsKept(db, after) && LedgerEvolves(db, after)
  {
    hide LedgerInv, LedgerEvolves;
    SameRowsSameInv(booked, after);
    SameRowsSameInv(after, booked);
    if AssignmentsKept(db, booked) && LedgerEvolves(db, booked) {
      BatchesEvolve(db, booked, after);
    }
  }

  lemma {:induction false} SameRowsSameInv(db: Db, after: Db)
    requires after == db.(batches := after.batches)
    ensures AssignmentsInv(db) ==> AssignmentsInv(after)
  {
    if AssignmentsInv(db) {
      assert BooksOf(after) == BooksOf(db);
      hide LedgerInv;
      forall a | a in after.assignments ensures FundedRow(after, a, after.assignments[a]) {
        assert FundedRow(db, a, db.assignments[a]);
      }
    }
  }

  lemma {:induction false} BatchesEvolve(db: Db, booked: Db, after: Db)
    requires LedgerEvolves(db, booked) && after == booked.(batches := after.batches)
    ensures LedgerEvolves(db, after)
  {
    assert BooksOf(after) == BooksOf(booked);
  }

  // ----- What a batch keeps whatever its sources are -----

  lemma {:induction false} PersistAllKeepsBooks(db: Db, percent: real, choices: seq<Choice>, after: Db)
    requires BooksInv(db) && PersistAll(db, percent, choices) == Ok(after)
    requires forall choice :: choice in choices ==> Owned(db, choice.request)
    ensures BooksInv(after) && AssignmentsKept(db, after) && LedgerEvolves(db, after)
    decreases |choices|
  {
    hide BooksInv, LedgerEvolves, AssignmentsKept, Persist;
    if choices == [] {
      Unchanged(db);
    } else {
      var first := choices[0];
      assert first in choices;
      var next := Persist(db, percent, first.request, first.candidate, first.ids).value;
      PersistKeepsBooks(db, percent, first.request, first.candidate, first.ids, next);
      PersistLeavesOwners(db, percent, first.request, first.candidate, first.ids, next);
      PersistAllKeepsBooks(next, percent, choices[1..], after);
      LedgerEvolvesTransitive(db, next, after);
      KeptTransitive(db, next, after);
    }
  }

  lemma {:induction false} LendingKeepsBooks(db: Db, percent: real, q: ReservationRequest, lent: Db, warned: bool)
    requires BooksInv(db) && Reserve(db, percent, q, None, 0.0) == Ok((lent, warned))
    ensures BooksInv(lent) && AssignmentsKept(db, lent) && LedgerEvolves(db, lent)
    ensures lent.runs == db.runs && lent.tasks == db.tasks && lent.attempts == db.attempts
  {
    hide *;
    BooksParts(db);
    BooksParts(lent);
    ReserveKeeps(db, percent, q, None, 0.0, lent, warned);
    ReserveLeavesRows(db, percent, q, None, lent, warned);
    FundedStays(db, lent);
  }

  lemma {:induction false} CommitKeepsBooks(db: Db, percent: real, run: Id, choices: seq<Choice>, lead: real, leadId: Id, after: Db)
    requires BooksInv(db) && Commit(db, percent, run, choices, lead, leadId) == Ok(after)
    requires forall choice :: choice in choices ==> Owned(db, choice.request)
    ensures BooksInv(after) && AssignmentsKept(db, after) && LedgerEvolves(db, after)
  {
    hide BooksInv, LedgerEvolves, AssignmentsKept, Reserve, PersistAll;
    var lent := Reserve(db, percent, LeadBooking(run, lead, leadId), None, 0.0).value;
    LendingKeepsBooks(db, percent, LeadBooking(run, lead, leadId), lent.0, lent.1);
    PersistAllKeepsBooks(lent.0, percent, choices, after);
    LedgerEvolvesTransitive(db, lent.0, after);
    KeptTransitive(db, lent.0, after);
  }

  /** A batch, with fallbacks or without, keeps the books: everything but the chains. */
  lemma {:induction false} BatchKeepsBooks(db: Db, percent: real, qs: seq<Request>, offers: seq<RoutingSnapshot>, ids: seq<Ids>, lead: real, leadId: Id,
                                           after: Db, answer: Batch)
    requires |offers| == |qs| == |ids| && BooksInv(db)
    requires AssignBatch(db, percent, qs, offers, ids, lead, leadId) == Ok((after, answer))
    ensures BooksInv(after) && AssignmentsKept(db, after) && LedgerEvolves(db, after)
  {
    hide *;
    Unchanged(db);
    if qs == [] || AttemptsOf(qs) in db.batches {
      BatchReplays(db, percent, qs, offers, ids, lead, leadId);
    } else {
      BatchAnatomy(db, percent, qs, offers, ids, lead, leadId);
      if answer.lead.Some? {
        var choices := BatchChoices(db, qs, offers, ids, lead).value;
        ChosenAreOwned(db, qs, offers, ids, lead, choices);
        var booked := Commit(db, percent, qs[0].run, choices.chosen, lead, leadId).value;
        CommitKeepsBooks(db, percent, qs[0].run, choices.chosen, lead, leadId, booked);
        BatchRowKeepsBooks(db, booked, after);
      }
    }
  }

  lemma {:induction false} BatchRowKeepsBooks(db: Db, booked: Db, after: Db)
    requires BooksInv(booked) && AssignmentsKept(db, booked) && LedgerEvolves(db, booked)
    requires after == booked.(batches := after.batches)
    ensures BooksInv(after) && AssignmentsKept(db, after) && LedgerEvolves(db, after)
  {
    assert BooksOf(after) == BooksOf(booked);
    hide LedgerInv, LedgerEvolves;
    BatchesEvolve(db, booked, after);
    forall a | a in after.assignments ensures FundedRow(after, a, after.assignments[a]) {
      assert FundedRow(booked, a, booked.assignments[a]);
    }
    SameLedger(booked, after);
  }

  lemma {:induction false} SameLedger(db: Db, after: Db)
    requires LedgerInv(db) && after == db.(batches := after.batches)
    ensures LedgerInv(after)
  {
    assert BooksOf(after) == BooksOf(db);
  }

  // ----- When the sources of a batch are ready -----

  /** Nothing in a batch closes a reservation or changes an assignment, and with fresh identifiers
      what it books itself is open: so readiness can be read off before the batch. */
  lemma {:induction false} ReadyBefore(db: Db, percent: real, choices: seq<Choice>)
    requires Funded(db) && PersistAll(db, percent, choices).Ok? && ChoicesFresh(db, choices)
    requires forall choice :: choice in choices ==> Owned(db, choice.request)
    ensures ReadyInTurn(db, percent, choices) <==>
            forall choice :: choice in choices ==> SourceReady(db, choice.request, choice.candidate.key.model)
    decreases |choices|
  {
    hide Persist, SourceReady, FreshIds, Funded;
    if choices != [] {
      var first := choices[0];
      assert first in choices;
      var next := Persist(db, percent, first.request, first.candidate, first.ids).value;
      PersistFunds(db, percent, first.request, first.candidate, first.ids, next);
      PersistLeavesOwners(db, percent, first.request, first.candidate, first.ids, next);
      RestFresh(db, percent, first, next, choices[1..]);
      ReadyBefore(next, percent, choices[1..]);
      forall choice | choice in choices[1..]
        ensures SourceReady(next, choice.request, choice.candidate.key.model) <==> SourceReady(db, choice.request, choice.candidate.key.model)
      {
        ReadyIsStable(db, percent, first, next, choice.request, choice.candidate.key.model);
      }
      assert forall choice :: choice in choices <==> choice == first || choice in choices[1..];
    }
  }

  lemma {:induction false} PersistFunds(db: Db, percent: real, q: Request, c: Candidate, ids: Ids, next: Db)
    requires Funded(db) && Owned(db, q) && Persist(db, percent, q, c, ids) == Ok(next)
    ensures Funded(next)
  {
    hide Reserve, Persist;
    var booked, warned := PersistAnatomy(db, percent, q, c, ids, next);
    BookedRow(db, percent, q, c, ids, booked, warned);
    RowsStayFunded(db, percent, Booking(q, c, ids), q.taskLimit, booked, warned);
    FundedGrows(booked, ids.assignment, RowOf(booked, q, c, ids), next);
  }

  lemma {:induction false} RowsStayFunded(db: Db, percent: real, q: ReservationRequest, taskLimit: Option<real>, booked: Db, warned: bool)
    requires Funded(db) && Reserve(db, percent, q, taskLimit, 0.0) == Ok((booked, warned))
    ensures Funded(booked)
  {
    hide UpdateWarning;
    WarningOnly(Inserted(db, q), percent, q.run);
    forall a | a in booked.assignments ensures FundedRow(booked, a, booked.assignments[a]) {
      assert FundedRow(db, a, db.assignments[a]);
    }
  }

  lemma {:induction false} ReadyIsStable(db: Db, percent: real, first: Choice, next: Db, q: Request, model: Id)
    requires Funded(db) && FreshIds(db, first.ids)
    requires Persist(db, percent, first.request, first.candidate, first.ids) == Ok(next)
    ensures SourceReady(next, q, model) <==> SourceReady(db, q, model)
  {
    hide Persist, Reserve, FreshIds;
    BookedIsOpen(db, percent, first, next);
    var booked, warned := PersistAnatomy(db, percent, first.request, first.candidate, first.ids, next);
    if q.fallbackOf.Some? && q.fallbackOf.value in db.assignments {
      assert FundedRow(db, q.fallbackOf.value, db.assignments[q.fallbackOf.value]);
    }
  }

  lemma {:induction false} LendingLeavesSources(db: Db, percent: real, run: Id, lead: real, leadId: Id, lent: Db)
    requires Funded(db) && Lent(db, percent, run, lead, leadId) == Ok(lent) && leadId !in db.reservations && !KeyTaken(db, ForBatchLead(leadId))
    ensures Funded(lent)
    ensures forall q, model :: SourceReady(lent, q, model) <==> SourceReady(db, q, model)
    ensures lent.runs == db.runs && lent.tasks == db.tasks && lent.attempts == db.attempts
  {
    hide Reserve, UpdateWarning, Funded;
    var q := LeadBooking(run, lead, leadId);
    var booked := Reserve(db, percent, q, None, 0.0).value;
    BookedAnatomy(db, percent, q, None, 0.0, booked.0, booked.1);
    WarningOnly(Inserted(db, q), percent, run);
    RowsStayFunded(db, percent, q, None, booked.0, booked.1);
    forall p, model ensures SourceReady(lent, p, model) <==> SourceReady(db, p, model) {
      if p.fallbackOf.Some? && p.fallbackOf.value in db.assignments {
        SourceIsBooked(db, p.fallbackOf.value);
      }
    }
  }

  lemma {:induction false} SourceIsBooked(db: Db, a: Id)
    requires Funded(db) && a in db.assignments
    ensures db.assignments[a].reservation in db.reservations
  {
    assert FundedRow(db, a, db.assignments[a]);
  }

  lemma {:induction false} CommitIsPersistAll(db: Db, percent: real, run: Id, choices: seq<Choice>, lead: real, leadId: Id)
    requires Commit(db, percent, run, choices, lead, leadId).Ok?
    ensures Lent(db, percent, run, lead, leadId).Ok?
    ensures PersistAll(Lent(db, percent, run, lead, leadId).value, percent, choices) == Commit(db, percent, run, choices, lead, leadId)
  {
    hide Reserve, PersistAll;
  }

  /** The batch does not look at the sources of its fallbacks. With fresh identifiers what it wrote
      keeps the chains exactly when, before the batch, each chosen fallback named an assignment of
      its attempt and model that held no money. */
  lemma {:induction false} FallbackNeedsItsSource(db: Db, percent: real, qs: seq<Request>, offers: seq<RoutingSnapshot>, ids: seq<Ids>, lead: real, leadId: Id,
                                                  after: Db, answer: Batch)
    requires |offers| == |qs| == |ids| && AssignmentsInv(db) && AllFresh(db, ids) && LeadFresh(db, ids, leadId)
    requires AssignBatch(db, percent, qs, offers, ids, lead, leadId) == Ok((after, answer)) && answer.lead.Some?
    requires qs != [] && AttemptsOf(qs) !in db.batches
    ensures BatchChoices(db, qs, offers, ids, lead).Ok?
    ensures AssignmentsInv(after) <==>
            forall choice :: choice in BatchChoices(db, qs, offers, ids, lead).value.chosen ==>
              SourceReady(db, choice.request, choice.candidate.key.model)
  {
    hide *;
    BatchKeeps(db, percent, qs, offers, ids, lead, leadId, after, answer);
    BatchAnatomy(db, percent, qs, offers, ids, lead, leadId);
    var choices := BatchChoices(db, qs, offers, ids, lead).value;
    CommitIsPersistAll(db, percent, qs[0].run, choices.chosen, lead, leadId);
    ReadyMeans(db, percent, qs, offers, ids, lead, leadId);
    InvParts(db);
    var lent := Lent(db, percent, qs[0].run, lead, leadId).value;
    LeadIsFresh(db, ids, leadId);
    LendingLeavesSources(db, percent, qs[0].run, lead, leadId, lent);
    BatchIsAffordable(db, qs, offers, ids, lead, leadId, choices);
    LentIsFresh(db, percent, qs[0].run, lead, leadId, choices.chosen, lent);
    ChosenAreOwned(db, qs, offers, ids, lead, choices);
    OwnedAfterLending(db, lent, choices.chosen);
    ReadyBefore(lent, percent, choices.chosen);
  }

  lemma {:induction false} LeadIsFresh(db: Db, ids: seq<Ids>, leadId: Id)
    requires LeadFresh(db, ids, leadId)
    ensures leadId !in db.reservations && !KeyTaken(db, ForBatchLead(leadId))
  {
  }

  lemma {:induction false} LentIsFresh(db: Db, percent: real, run: Id, lead: real, leadId: Id, choices: seq<Choice>, lent: Db)
    requires Lent(db, percent, run, lead, leadId) == Ok(lent) && leadId !in db.reservations && !KeyTaken(db, ForBatchLead(leadId))
    requires ChoicesFresh(db, choices) && forall choice :: choice in choices ==> choice.ids.reservation != leadId
    ensures ChoicesFresh(lent, choices)
  {
    hide Reserve, ChoicesFresh, KeyTaken, UpdateWarning, Inserted;
    var q := LeadBooking(run, lead, leadId);
    var booked := Reserve(db, percent, q, None, 0.0).value;
    BookedAnatomy(db, percent, q, None, 0.0, booked.0, booked.1);
    LeadKeepsFresh(db, percent, run, lead, leadId, choices, lent);
  }

  lemma {:induction false} OwnedAfterLending(db: Db, lent: Db, choices: seq<Choice>)
    requires lent.runs == db.runs && lent.tasks == db.tasks && lent.attempts == db.attempts
    requires forall choice :: choice in choices ==> Owned(db, choice.request)
    ensures forall choice :: choice in choices ==> Owned(lent, choice.request)
  {
  }

  /** A batch without fallbacks always keeps the invariants. */
  lemma {:induction false} FirstChoicesAreReady(db: Db, percent: real, qs: seq<Request>, offers: seq<RoutingSnapshot>, ids: seq<Ids>, lead: real, leadId: Id)
    requires |offers| == |qs| == |ids| && forall q :: q in qs ==> q.fallbackOf.None?
    ensures BatchReady(db, percent, qs, offers, ids, lead, leadId)
  {
    hide BatchChoices, Lent, ReadyInTurn;
    if qs != [] && AttemptsOf(qs) !in db.batches && BatchChoices(db, qs, offers, ids, lead).Ok? && Lent(db, percent, qs[0].run, lead, leadId).Ok? {
      var choices := BatchChoices(db, qs, offers, ids, lead).value;
      ChosenAreFirst(db, qs, offers, ids, lead, choices);
      FirstAreReady(Lent(db, percent, qs[0].run, lead, leadId).value, percent, choices.chosen);
    }
  }

  lemma {:induction false} ChosenAreFirst(db: Db, qs: seq<Request>, offers: seq<RoutingSnapshot>, ids: seq<Ids>, lead: real, choices: Choices)
    requires qs != [] && |offers| == |qs| == |ids| && BatchChoices(db, qs, offers, ids, lead) == Ok(choices)
    requires forall q :: q in qs ==> q.fallbackOf.None?
    ensures forall choice :: choice in choices.chosen ==> choice.request.fallbackOf.None?
  {
    hide Decide, TaskCommitted, SnapshotOf;
    var rs := WithBaselines(db, qs);
    ChosenAnswer(db, rs, offers, ids, More(SnapshotOf(db, qs[0].run).available, 0.0 - lead), choices);
    forall choice | choice in choices.chosen ensures choice.request.fallbackOf.None? {
      assert Answers(db, choice, rs, ids);
      var i :| 0 <= i < |rs| && rs[i] == choice.request;
      assert qs[i] in qs;
    }
  }

  lemma {:induction false} FirstAreReady(db: Db, percent: real, choices: seq<Choice>)
    requires forall choice :: choice in choices ==> choice.request.fallbackOf.None?
    ensures ReadyInTurn(db, percent, choices)
    decreases |choices|
  {
    hide Persist;
    if choices != [] {
      assert choices[0] in choices;
      var next := Persist(db, percent, choices[0].request, choices[0].candidate, choices[0].ids);
      if next.Ok? {
        FirstAreReady(next.value, percent, choices[1..]);
      }
    }
  }
}
