/** What a batch of assignments decides and writes, request by request (routing/assignment.py,
    AssignmentService.assign_batch). */
module BatchOutcomes {
  import opened Prelude
  import opened Journals
  import opened Ledgers
  import opened Selector
  import opened Assignments
  import Ch = Chains
  import B = Batches
  import Q = Qualifications
  import L = LedgerAnswers
  import T = TaskSpending
  import opened AssignmentOutcomes

  // ----- Each choice of a batch -----

  /** What a request of a batch may cost: what the run has left besides the allowance for the lead and
      the earlier choices of the batch, and what the task has left. */
  ghost predicate RoomInBatch(db: Db, q: Request, lead: real, spent: real, cost: real) {
    && (q.run in db.runs && db.runs[q.run].limit.Some? ==> L.RunSpent(db, q.run) + lead + spent + cost <= db.runs[q.run].limit.value)
    && (q.taskLimit.Some? ==> T.Spent(db, q.run, q.task) + cost <= q.taskLimit.value)
  }

  ghost predicate IsLeftInBatch(db: Db, q: Request, lead: real, spent: real, left: Option<real>) {
    && (left.None? <==> !(q.run in db.runs && db.runs[q.run].limit.Some?) && q.taskLimit.None?)
    && (left.Some? ==> forall cost: real :: RoomInBatch(db, q, lead, spent, cost) <==> cost <= left.value)
  }

  function Remaining(db: Db, run: Id, lead: real): Option<real> {
    More(SnapshotOf(db, run).available, 0.0 - lead)
  }

  function Cut(remaining: Option<real>, spent: real): Option<real> {
    if remaining.None? then None else Some(remaining.value - spent)
  }

  lemma {:induction false} BatchLeft(db: Db, q: Request, lead: real, spent: real)
    requires BooksOf(db).Matched()
    ensures IsLeftInBatch(db, q, lead, spent, BatchFunds(db, q, Cut(Remaining(db, q.run, lead), spent)))
  {
    hide *;
    var left := BatchFunds(db, q, Cut(Remaining(db, q.run, lead), spent));
    BatchFundsMean(db, q, lead, spent, 0.0);
    forall cost: real ensures left.Some? ==> (RoomInBatch(db, q, lead, spent, cost) <==> cost <= left.value) {
      BatchFundsMean(db, q, lead, spent, cost);
      RoomInBatchMeans(db, q, lead, spent, cost);
    }
    LeftInBatchWhen(db, q, lead, spent, left);
  }

  lemma {:induction false} BatchFundsMean(db: Db, q: Request, lead: real, spent: real, cost: real)
    ensures var left := BatchFunds(db, q, Cut(Remaining(db, q.run, lead), spent));
      && (left.None? <==> LimitOf(db, q.run).None? && q.taskLimit.None?)
      && (left.Some? ==>
            (cost <= left.value <==>
               && (LimitOf(db, q.run).Some? ==> Committed(db, q.run) + lead + spent + cost <= LimitOf(db, q.run).value)
               && (q.taskLimit.Some? ==> TaskCommitted(db, q.run, q.task) + cost <= q.taskLimit.value)))
  {
    AvailableIsUncommitted(db, q.run);
    hide Committed, TaskCommitted;
  }

  lemma {:induction false} RoomInBatchMeans(db: Db, q: Request, lead: real, spent: real, cost: real)
    requires BooksOf(db).Matched()
    ensures RoomInBatch(db, q, lead, spent, cost) <==>
      && (LimitOf(db, q.run).Some? ==> Committed(db, q.run) + lead + spent + cost <= LimitOf(db, q.run).value)
      && (q.taskLimit.Some? ==> TaskCommitted(db, q.run, q.task) + cost <= q.taskLimit.value)
  {
    CountedOnce(db, q.run);
    T.TaskCountedOnce(db, q.run, q.task);
    hide Books.Matched, Charges, T.Spent, Committed, TaskCommitted;
  }

  lemma {:induction false} LeftInBatchWhen(db: Db, q: Request, lead: real, spent: real, left: Option<real>)
    requires left.None? <==> LimitOf(db, q.run).None? && q.taskLimit.None?
    requires forall cost: real :: left.Some? ==> (RoomInBatch(db, q, lead, spent, cost) <==> cost <= left.value)
    ensures IsLeftInBatch(db, q, lead, spent, left)
  {
    hide RoomInBatch;
  }

  function Served(db: Db, q: Request, offer: RoutingSnapshot, remaining: Option<real>): Result<Decision, AssignError> {
    if Matches(q, offer) then Decide(db, q, None, BatchFunds(db, q, remaining), offer.candidates) else Err(RevisionChanged)
  }

  function CostOf(d: Decision): real {
    if d.Choose? then Cost(d.candidate) else 0.0
  }

  function With(d: Decision, q: Request, ids: Ids, rest: Choices): Choices {
    if d.Choose? then rest.(chosen := [Choice(q, d.candidate, ids)] + rest.chosen)
    else rest.(deferred := [Deferral(q.task, d.excluded, d.binding)] + rest.deferred)
  }

  lemma {:induction false} HeadOfBatch(db: Db, qs: seq<Request>, offers: seq<RoutingSnapshot>, ids: seq<Ids>, remaining: Option<real>)
    requires |offers| == |qs| == |ids| && qs != []
    ensures var served := Served(db, qs[0], offers[0], remaining);
      if served.Err? then ChooseAll(db, qs, offers, ids, remaining) == Err(served.error)
      else
        var rest := ChooseAll(db, qs[1..], offers[1..], ids[1..], Cut(remaining, CostOf(served.value)));
        ChooseAll(db, qs, offers, ids, remaining) ==
          if rest.Err? then Err(rest.error) else Ok(With(served.value, qs[0], ids[0], rest.value))
  {
    hide Decide, BatchFunds, Matches, Cost;
    assert Cut(remaining, 0.0) == remaining;
  }

  /** A batch is the choices of its first requests, and then those of the rest out of what is left. */
  lemma {:induction false} BatchSplits(db: Db, qs: seq<Request>, offers: seq<RoutingSnapshot>, ids: seq<Ids>, remaining: Option<real>, k: nat)
    requires |offers| == |qs| == |ids| && k <= |qs| && ChooseAll(db, qs, offers, ids, remaining).Ok?
    ensures ChooseAll(db, qs[..k], offers[..k], ids[..k], remaining).Ok?
    ensures var before := ChooseAll(db, qs[..k], offers[..k], ids[..k], remaining).value;
      var rest := ChooseAll(db, qs[k..], offers[k..], ids[k..], Cut(remaining, B.TotalCost(before.chosen)));
      && rest.Ok?
      && ChooseAll(db, qs, offers, ids, remaining).value ==
           Choices(before.chosen + rest.value.chosen, before.deferred + rest.value.deferred)
      && |before.chosen| + |before.deferred| == k
    decreases k
  {
    if k == 0 {
      NoneServed(qs, offers, ids, remaining);
    } else {
      HeadOfBatch(db, qs, offers, ids, remaining);
      HeadOfBatch(db, qs[..k], offers[..k], ids[..k], remaining);
      Slices(qs, k);
      Slices(offers, k);
      Slices(ids, k);
      hide ChooseAll, Served, With, CostOf, Cut, B.TotalCost;
      var d := Served(db, qs[0], offers[0], remaining).value;
      var next := Cut(remaining, CostOf(d));
      BatchSplits(db, qs[1..], offers[1..], ids[1..], next, k - 1);
      var first := ChooseAll(db, qs[..k][1..], offers[..k][1..], ids[..k][1..], next).value;
      var last := ChooseAll(db, qs[k..], offers[k..], ids[k..], Cut(next, B.TotalCost(first.chosen))).value;
      Joins(d, qs[0], ids[0], first, last, remaining);
    }
  }

  lemma {:induction false} NoneServed(qs: seq<Request>, offers: seq<RoutingSnapshot>, ids: seq<Ids>, remaining: Option<real>)
    ensures qs[0..] == qs && offers[0..] == offers && ids[0..] == ids && Cut(remaining, 0.0) == remaining
  {
  }

  lemma {:induction false} Slices<X>(s: seq<X>, k: nat)
    requires 0 < k <= |s|
    ensures s[1..][..k - 1] == s[..k][1..] && s[1..][k - 1..] == s[k..] && s[..k][0] == s[0]
  {
  }

  lemma {:induction false} Joins(d: Decision, q: Request, ids: Ids, first: Choices, last: Choices, remaining: Option<real>)
    ensures Cut(Cut(remaining, CostOf(d)), B.TotalCost(first.chosen)) == Cut(remaining, B.TotalCost(With(d, q, ids, first).chosen))
    ensures var all, before := Choices(first.chosen + last.chosen, first.deferred + last.deferred), With(d, q, ids, first);
      && With(d, q, ids, all) == Choices(before.chosen + last.chosen, before.deferred + last.deferred)
      && |before.chosen| + |before.deferred| == |first.chosen| + |first.deferred| + 1
  {
    if d.Choose? {
      assert [Choice(q, d.candidate, ids)] + (first.chosen + last.chosen) == [Choice(q, d.candidate, ids)] + first.chosen + last.chosen;
    } else {
      var deferral := Deferral(q.task, d.excluded, d.binding);
      assert [deferral] + (first.deferred + last.deferred) == [deferral] + first.deferred + last.deferred;
    }
  }

  /** A request of an answered batch: its choice comes first among the candidates that qualify for what it
      asks and what is then left, or none qualifies and it is deferred. */
  ghost predicate ServedAt(db: Db, q: Request, offer: RoutingSnapshot, ids: Ids, lead: real, before: Choices, all: Choices) {
    exists left :: IsLeftInBatch(db, q, lead, B.TotalCost(before.chosen), left) && ServedFrom(left, q, offer, ids, before, all)
  }

  ghost predicate ServedFrom(left: Option<real>, q: Request, offer: RoutingSnapshot, ids: Ids, before: Choices, all: Choices) {
    var n, d := |before.chosen|, |before.deferred|;
    || (n < |all.chosen| && all.chosen[n] == Choice(q, all.chosen[n].candidate, ids)
        && Q.First(all.chosen[n].candidate, offer.candidates, q.requirements, left, q.pin))
    || (d < |all.deferred| && all.deferred[d].task == q.task && NoneOf(offer.candidates, q.requirements, left, q.pin))
  }

  /** The choices of a batch before those of request `i`. */
  ghost predicate Earlier(before: Choices, all: Choices, i: nat) {
    before.chosen <= all.chosen && before.deferred <= all.deferred && |before.chosen| + |before.deferred| == i
  }

  /** Each request of a batch is served out of what the requests before it have left. A second attempt
      asks for more, as on its own. */
  lemma {:induction false} BatchServes(db: Db, qs: seq<Request>, offers: seq<RoutingSnapshot>, ids: seq<Ids>, lead: real, all: Choices, i: nat)
    requires |offers| == |qs| == |ids| && i < |qs| && BatchChoices(db, qs, offers, ids, lead) == Ok(all)
    requires BooksOf(db).Matched() && qs[i].run == qs[0].run
    requires DistinctKeys(offers[i].candidates) && !(qs[i].requirements.mode == Manual && qs[i].pin.None?)
    ensures exists reqs, before ::
      AskedFor(db, qs[i], reqs) && Earlier(before, all, i) && ServedAt(db, qs[i].(requirements := reqs), offers[i], ids[i], lead, before, all)
  {
    var rs, remaining := WithBaselines(db, qs), Remaining(db, qs[0].run, lead);
    BaselineAsked(db, qs[i]);
    SameMode(db, qs[i]);
    hide *;
    assert ChooseAll(db, rs, offers, ids, remaining) == Ok(all) by {
      BatchChoicesAre(db, qs, offers, ids, lead);
    }
    BatchSplits(db, rs, offers, ids, remaining, i);
    var before := ChooseAll(db, rs[..i], offers[..i], ids[..i], remaining).value;
    var spent := B.TotalCost(before.chosen);
    HeadOfBatch(db, rs[i..], offers[i..], ids[i..], Cut(remaining, spent));
    BatchLeft(db, rs[i], lead, spent);
    ServedExactly(db, rs[i], offers[i], lead, spent);
    var d := Served(db, rs[i], offers[i], Cut(remaining, spent)).value;
    var rest := ChooseAll(db, rs[i..][1..], offers[i..][1..], ids[i..][1..], Cut(Cut(remaining, spent), CostOf(d))).value;
    ServedHere(db, rs[i], offers[i], ids[i], lead, before, d, rest, all);
    assert Earlier(before, all, i) by {
      EarlierWhen(before, all, i);
    }
  }

  lemma {:induction false} BatchChoicesAre(db: Db, qs: seq<Request>, offers: seq<RoutingSnapshot>, ids: seq<Ids>, lead: real)
    requires |offers| == |qs| == |ids| && qs != []
    ensures BatchChoices(db, qs, offers, ids, lead) == ChooseAll(db, WithBaselines(db, qs), offers, ids, Remaining(db, qs[0].run, lead))
  {
  }

  lemma {:induction false} EarlierWhen(before: Choices, all: Choices, i: nat)
    requires before.chosen <= all.chosen && before.deferred <= all.deferred && |before.chosen| + |before.deferred| == i
    ensures Earlier(before, all, i)
  {
  }

  lemma {:induction false} ServedExactly(db: Db, q: Request, offer: RoutingSnapshot, lead: real, spent: real)
    requires DistinctKeys(offer.candidates) && !(q.requirements.mode == Manual && q.pin.None?)
    requires Served(db, q, offer, Cut(Remaining(db, q.run, lead), spent)).Ok?
    ensures var remaining := Cut(Remaining(db, q.run, lead), spent);
      var d, left := Served(db, q, offer, remaining).value, BatchFunds(db, q, remaining);
      if d.Choose? then Q.First(d.candidate, offer.candidates, q.requirements, left, q.pin)
      else NoneOf(offer.candidates, q.requirements, left, q.pin)
  {
    var left := BatchFunds(db, q, Cut(Remaining(db, q.run, lead), spent));
    BatchFundsMean(db, q, lead, spent, 0.0);
    Q.SelectsTheFirst(offer.candidates, q.requirements, left, q.pin);
    SelectedIsPayable(offer.candidates, q.requirements, left, q.pin);
    hide SelectSpec, Q.First, Q.Qualifies, BatchFunds, SnapshotOf;
  }

  lemma {:induction false} ServedHere(db: Db, q: Request, offer: RoutingSnapshot, ids: Ids, lead: real, before: Choices,
                                      d: Decision, rest: Choices, all: Choices)
    requires all == var tail := With(d, q, ids, rest); Choices(before.chosen + tail.chosen, before.deferred + tail.deferred)
    requires var spent := B.TotalCost(before.chosen);
      var left := BatchFunds(db, q, Cut(Remaining(db, q.run, lead), spent));
      && IsLeftInBatch(db, q, lead, spent, left)
      && if d.Choose? then Q.First(d.candidate, offer.candidates, q.requirements, left, q.pin)
         else NoneOf(offer.candidates, q.requirements, left, q.pin)
    ensures before.chosen <= all.chosen && before.deferred <= all.deferred
    ensures ServedAt(db, q, offer, ids, lead, before, all)
  {
    hide IsLeftInBatch, Q.First, NoneOf, BatchFunds, B.TotalCost, Remaining;
    var left := BatchFunds(db, q, Cut(Remaining(db, q.run, lead), B.TotalCost(before.chosen)));
    if d.Choose? {
      assert all.chosen[|before.chosen|] == Choice(q, d.candidate, ids);
    } else {
      assert all.deferred[|before.deferred|].task == q.task;
    }
    assert ServedFrom(left, q, offer, ids, before, all);
  }

  // ----- What is written -----

  /** The assignment of a choice at its price, with its own open reservation. */
  ghost predicate Stored(after: Db, choice: Choice) {
    var q, c, ids := choice.request, choice.candidate, choice.ids;
    && ids.assignment in after.assignments
    && after.assignments[ids.assignment] ==
         Assignment(q.attempt, c.key.provider, c.key.model, Price(c), Rating(c), ids.reservation, c.pricing, q.fallbackOf,
                    after.assignments[ids.assignment].rowid)
    && ids.reservation in after.reservations
    && after.reservations[ids.reservation] ==
         Reservation(q.run, Some(q.task), Price(c), Reserved, ForAssignment(ids.assignment),
                     if c.estimatedCost.Some? then TaskAttempt else UnpricedManual)
  }

  /** All assignments and reservations stay. */
  ghost predicate Extends(db: Db, after: Db) {
    && (forall a :: a in db.assignments ==> a in after.assignments && after.assignments[a] == db.assignments[a])
    && (forall r :: r in db.reservations ==> r in after.reservations && after.reservations[r] == db.reservations[r])
  }

  lemma {:induction false} PersistStores(db: Db, percent: real, choice: Choice, after: Db)
    requires Ch.FreshIds(db, choice.ids) && Persist(db, percent, choice.request, choice.candidate, choice.ids) == Ok(after)
    ensures Stored(after, choice) && Extends(db, after)
    ensures after.assignments.Keys == db.assignments.Keys + {choice.ids.assignment}
    ensures after.reservations.Keys == db.reservations.Keys + {choice.ids.reservation}
  {
    hide *;
    var ids := choice.ids;
    PersistWrites(db, percent, choice.request, choice.candidate, ids, after);
    RowAdded(db.assignments, ids.assignment, after.assignments[ids.assignment], after.assignments);
    RowAdded(db.reservations, ids.reservation, after.reservations[ids.reservation], after.reservations);
    StoredWhen(after, choice);
    ExtendsWhen(db, after);
  }

  lemma {:induction false} StoredWhen(after: Db, choice: Choice)
    requires var q, c, ids := choice.request, choice.candidate, choice.ids;
      && ids.assignment in after.assignments
      && after.assignments[ids.assignment] ==
           Assignment(q.attempt, c.key.provider, c.key.model, Price(c), Rating(c), ids.reservation, c.pricing, q.fallbackOf,
                      after.assignments[ids.assignment].rowid)
      && ids.reservation in after.reservations
      && after.reservations[ids.reservation] ==
           Reservation(q.run, Some(q.task), Price(c), Reserved, ForAssignment(ids.assignment),
                       if c.estimatedCost.Some? then TaskAttempt else UnpricedManual)
    ensures Stored(after, choice)
  {
    hide Price, Rating;
  }

  lemma {:induction false} ExtendsWhen(db: Db, after: Db)
    requires forall a :: a in db.assignments ==> a in after.assignments && after.assignments[a] == db.assignments[a]
    requires forall r :: r in db.reservations ==> r in after.reservations && after.reservations[r] == db.reservations[r]
    ensures Extends(db, after)
  {
  }

  lemma {:induction false} StaysStored(db: Db, after: Db, choice: Choice)
    requires Stored(db, choice) && Extends(db, after)
    ensures Stored(after, choice)
  {
    hide Price, Rating;
  }

  lemma {:induction false} ExtendsTransitive(a: Db, b: Db, c: Db)
    requires Extends(a, b) && Extends(b, c)
    ensures Extends(a, c)
  {
  }

  function AssignmentSet(choices: seq<Choice>): set<Id> {
    set i | 0 <= i < |choices| :: choices[i].ids.assignment
  }

  function ReservationSet(choices: seq<Choice>): set<Id> {
    set i | 0 <= i < |choices| :: choices[i].ids.reservation
  }

  lemma {:induction false} SetsGrow(choices: seq<Choice>)
    requires choices != []
    ensures AssignmentSet(choices) == {choices[0].ids.assignment} + AssignmentSet(choices[1..])
    ensures ReservationSet(choices) == {choices[0].ids.reservation} + ReservationSet(choices[1..])
  {
    assert forall i :: 0 <= i < |choices| ==> choices[i] == if i == 0 then choices[0] else choices[1..][i - 1];
    assert forall i :: 0 <= i < |choices[1..]| ==> choices[1..][i] == choices[i + 1];
  }

  lemma {:induction false} PersistAllStores(db: Db, percent: real, choices: seq<Choice>, after: Db)
    requires B.ChoicesFresh(db, choices) && PersistAll(db, percent, choices) == Ok(after)
    ensures forall choice :: choice in choices ==> Stored(after, choice)
    ensures Extends(db, after)
    ensures after.assignments.Keys == db.assignments.Keys + AssignmentSet(choices)
    ensures after.reservations.Keys == db.reservations.Keys + ReservationSet(choices)
    decreases |choices|
  {
    hide Stored, Extends, Persist, B.Apart, Ch.FreshIds;
    if choices == [] {
      ExtendsItself(db);
    } else {
      var next := Persist(db, percent, choices[0].request, choices[0].candidate, choices[0].ids).value;
      PersistStores(db, percent, choices[0], next);
      B.RestFresh(db, percent, choices[0], next, choices[1..]);
      PersistAllStores(next, percent, choices[1..], after);
      ExtendsTransitive(db, next, after);
      StaysStored(next, after, choices[0]);
      SetsGrow(choices);
      hide AssignmentSet, ReservationSet;
    }
  }

  lemma {:induction false} ExtendsItself(db: Db)
    ensures Extends(db, db)
  {
  }

  /** A batch that is not a repeat and chose something writes the allowance for the lead, each choice, and
      nothing else; it answers with the assignments in order, with what it deferred, and keeps the
      answer for the same attempts. */
  lemma {:induction false} BatchWrites(db: Db, percent: real, qs: seq<Request>, offers: seq<RoutingSnapshot>, ids: seq<Ids>, lead: real, leadId: Id,
                                       after: Db, batch: Batch, all: Choices)
    requires qs != [] && |offers| == |qs| == |ids| && B.AllFresh(db, ids) && B.LeadFresh(db, ids, leadId)
    requires AttemptsOf(qs) !in db.batches && BatchChoices(db, qs, offers, ids, lead) == Ok(all) && all.chosen != []
    requires AssignBatch(db, percent, qs, offers, ids, lead, leadId) == Ok((after, batch))
    ensures |batch.assignments| == |all.chosen| && batch.deferred == all.deferred && batch.lead == Some(leadId)
    ensures forall i :: 0 <= i < |all.chosen| ==> batch.assignments[i] == all.chosen[i].ids.assignment
    ensures forall choice :: choice in all.chosen ==> Stored(after, choice)
    ensures leadId in after.reservations && 0.0 <= lead
         && after.reservations[leadId] == Reservation(qs[0].run, None, lead, Reserved, ForBatchLead(leadId), LeadContinuation)
    ensures Extends(db, after)
    ensures after.assignments.Keys == db.assignments.Keys + AssignmentSet(all.chosen)
    ensures after.reservations.Keys == db.reservations.Keys + {leadId} + ReservationSet(all.chosen)
    ensures AttemptsOf(qs) in after.batches && after.batches[AttemptsOf(qs)] == batch
  {
    hide *;
    var run := qs[0].run;
    BatchAnswer(db, percent, qs, offers, ids, lead, leadId, after, batch, all);
    B.LeadIsFresh(db, ids, leadId);
    B.BatchIsAffordable(db, qs, offers, ids, lead, leadId, all);
    B.CommitAnatomy(db, percent, run, all.chosen, lead, leadId);
    var booked := Reserve(db, percent, LeadBooking(run, lead, leadId), None, 0.0).value;
    LeadWritten(db, percent, run, lead, leadId, booked.0, booked.1);
    B.LeadKeepsFresh(db, percent, run, lead, leadId, all.chosen, booked.0);
    var committed := Commit(db, percent, run, all.chosen, lead, leadId).value;
    PersistAllStores(booked.0, percent, all.chosen, committed);
    ExtendsTransitive(db, booked.0, committed);
    LeadStays(booked.0, committed, leadId);
    BatchKeptRows(committed, after, all.chosen);
    ExtendsTransitive(db, committed, after);
  }

  lemma {:induction false} BatchAnswer(db: Db, percent: real, qs: seq<Request>, offers: seq<RoutingSnapshot>, ids: seq<Ids>, lead: real, leadId: Id,
                                       after: Db, batch: Batch, all: Choices)
    requires qs != [] && |offers| == |qs| == |ids|
    requires AttemptsOf(qs) !in db.batches && BatchChoices(db, qs, offers, ids, lead) == Ok(all) && all.chosen != []
    requires AssignBatch(db, percent, qs, offers, ids, lead, leadId) == Ok((after, batch))
    ensures (forall q :: q in qs ==> q.run == qs[0].run && Owned(db, q)) && 0.0 <= lead
    ensures |batch.assignments| == |all.chosen| && batch.deferred == all.deferred && batch.lead == Some(leadId)
    ensures forall i :: 0 <= i < |all.chosen| ==> batch.assignments[i] == all.chosen[i].ids.assignment
    ensures AttemptsOf(qs) in after.batches && after.batches[AttemptsOf(qs)] == batch
    ensures var committed := Commit(db, percent, qs[0].run, all.chosen, lead, leadId);
      committed.Ok? && after.assignments == committed.value.assignments && after.reservations == committed.value.reservations
  {
    hide BatchChoices, Owned, Reserve, PersistAll;
  }

  lemma {:induction false} LeadWritten(db: Db, percent: real, run: Id, lead: Money, leadId: Id, booked: Db, warned: bool)
    requires leadId !in db.reservations && !KeyTaken(db, ForBatchLead(leadId))
    requires Reserve(db, percent, LeadBooking(run, lead, leadId), None, 0.0) == Ok((booked, warned))
    ensures booked == UpdateWarning(Inserted(db, LeadBooking(run, lead, leadId)), percent, run)
    ensures Extends(db, booked) && booked.assignments == db.assignments
    ensures booked.reservations == db.reservations[leadId := Reservation(run, None, lead, Reserved, ForBatchLead(leadId), LeadContinuation)]
  {
    BookedAnatomy(db, percent, LeadBooking(run, lead, leadId), None, 0.0, booked, warned);
    WarningOnly(Inserted(db, LeadBooking(run, lead, leadId)), percent, run);
    hide Reserve, UpdateWarning, KeyTaken;
  }

  lemma {:induction false} LeadStays(booked: Db, after: Db, leadId: Id)
    requires Extends(booked, after) && leadId in booked.reservations
    ensures leadId in after.reservations && after.reservations[leadId] == booked.reservations[leadId]
  {
  }

  lemma {:induction false} BatchKeptRows(committed: Db, after: Db, choices: seq<Choice>)
    requires after.assignments == committed.assignments && after.reservations == committed.reservations
    requires forall choice :: choice in choices ==> Stored(committed, choice)
    ensures Extends(committed, after) && forall choice :: choice in choices ==> Stored(after, choice)
  {
    hide Price, Rating;
  }

  // ----- What is answered without writing -----

  /** Nothing is asked, or the requests span runs or are not all of one attempt each, or the attempts have
      been answered before, or an offer is for other revisions, or nothing can be chosen: the batch says
      so and writes nothing. */
  lemma {:induction false} BatchRefuses(db: Db, percent: real, qs: seq<Request>, offers: seq<RoutingSnapshot>, ids: seq<Ids>, lead: real, leadId: Id)
    requires |offers| == |qs| == |ids|
    ensures var r := AssignBatch(db, percent, qs, offers, ids, lead, leadId);
      if qs == [] then r == Ok((db, Batch([], [], None)))
      else if exists i :: 0 <= i < |qs| && qs[i].run != qs[0].run then r == Err(SpansRuns)
      else if exists i :: 0 <= i < |qs| && !OneAttempt(db, qs[i]) then r == Err(NotOneAttempt)
      else if AttemptsOf(qs) in db.batches then r == Ok((db, db.batches[AttemptsOf(qs)]))
      else
        var choices := BatchChoices(db, qs, offers, ids, lead);
        if choices.Err? then r == Err(choices.error)
        else if choices.value.chosen == [] then r == Ok((db, Batch([], choices.value.deferred, None)))
        else lead < 0.0 ==> r == Err(NegativeAllowance)
  {
    hide BatchChoices, Reserve, PersistAll;
    forall i | 0 <= i < |qs| ensures Owned(db, qs[i]) <==> OneAttempt(db, qs[i]) { }
    hide Owned, OneAttempt;
    assert (exists q :: q in qs && q.run != qs[0].run) <==> exists i :: 0 <= i < |qs| && qs[i].run != qs[0].run;
    assert (exists q :: q in qs && !Owned(db, q)) <==> exists i :: 0 <= i < |qs| && !OneAttempt(db, qs[i]);
  }

  /** The choices of a batch fail exactly for an offer that is not for its request's revisions, or a
      selection that fails, at the first request where it happens. */
  lemma {:induction false} RevisionsMatch(db: Db, qs: seq<Request>, offers: seq<RoutingSnapshot>, ids: seq<Ids>, remaining: Option<real>)
    requires |offers| == |qs| == |ids| && ChooseAll(db, qs, offers, ids, remaining).Ok?
    ensures forall i :: 0 <= i < |qs| ==> offers[i].catalog == qs[i].catalog && offers[i].config == qs[i].config
    decreases |qs|
  {
    if qs != [] {
      HeadOfBatch(db, qs, offers, ids, remaining);
      hide ChooseAll;
      var served := Served(db, qs[0], offers[0], remaining);
      RevisionsMatch(db, qs[1..], offers[1..], ids[1..], Cut(remaining, CostOf(served.value)));
      forall i | 0 <= i < |qs| ensures offers[i].catalog == qs[i].catalog && offers[i].config == qs[i].config {
        if i > 0 {
          assert offers[i] == offers[1..][i - 1] && qs[i] == qs[1..][i - 1];
        }
      }
    }
  }
}
