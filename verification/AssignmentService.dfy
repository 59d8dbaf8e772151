/** The service that writes assignments (routing/assignment.py, AssignmentService), step by step in
    one transaction, proved against the specification in Assignments. */
module AssignmentServices {
  import opened Prelude
  import opened Journals
  import opened Ledgers
  import Sel = Selector
  import A = Assignments

  class AssignmentService {
    const journal: Journal
    const ledger: BudgetLedger
    const maxSnapshotRetries: nat

    constructor (journal: Journal, ledger: BudgetLedger, maxSnapshotRetries: nat)
      requires ledger.journal == journal
      ensures this.journal == journal && this.ledger == ledger && this.maxSnapshotRetries == maxSnapshotRetries
    {
      this.journal := journal;
      this.ledger := ledger;
      this.maxSnapshotRetries := maxSnapshotRetries;
    }

    method PersistChoice(q: A.Request, c: Sel.Candidate, ids: A.Ids) returns (r: Result<Assignment, A.AssignError>)
      requires ledger.journal == journal
      modifies journal
      ensures match A.Persist(old(journal.db), ledger.warningPercent, q, c, ids)
              case Ok(after) => journal.db == after && r == Ok(A.RowOf(old(journal.db), q, c, ids))
              case Err(e) => r == Err(e)
    {
      var amount: Money := if c.estimatedCost.None? then 0.0 else c.estimatedCost.value;
      var purpose := if c.estimatedCost.None? then UnpricedManual else TaskAttempt;
      var booking := ReservationRequest(ids.reservation, q.run, Some(q.task), amount, ForAssignment(ids.assignment), purpose);
      var reserved := ledger.ReserveAmount(booking, q.taskLimit, 0.0);
      if reserved.Err? {
        return Err(A.Ledger(reserved.error));
      }
      var db := journal.db;
      if ids.assignment in db.assignments || A.ExistingFor(db.assignments, q.attempt, q.fallbackOf).Some? {
        return Err(A.Ledger(IdempotencyConflict));
      }
      var row := Assignment(q.attempt, c.key.provider, c.key.model, amount, if c.autoEligible then c.Fit() else None,
                            ids.reservation, c.pricing, q.fallbackOf, |db.assignments|);
      journal.db := db.(assignments := db.assignments[ids.assignment := row]);
      r := Ok(row);
    }

    method ReleaseFallbackSource(run: Id, source: A.Source)
      requires ledger.journal == journal && source.reservation in journal.db.reservations
      modifies journal
      ensures journal.db == A.SourceReleased(old(journal.db), ledger.warningPercent, run, Some(source))
    {
      if source.open {
        journal.db := Freed(journal.db, source.reservation);
        var _ := ledger.RefreshWarning(run);
      }
    }

    /** The body of the transaction once the request is known to be new. */
    method DecideNew(q: A.Request, offer: A.RoutingSnapshot, ids: A.Ids) returns (r: Result<A.Answer, A.AssignError>)
      requires ledger.journal == journal
      modifies journal
      ensures match A.AssignNew(old(journal.db), ledger.warningPercent, q, offer, ids)
              case Ok((after, answer)) => journal.db == after && r == Ok(answer)
              case Err(e) => r == Err(e)
    {
      var db := journal.db;
      var found := A.SourceOf(db, q);
      if found.Err? {
        return Err(found.error);
      }
      var source := found.value;
      var available := SnapshotOf(db, q.run).available;
      if available.Some? && source.Some? && source.value.open {
        available := Some(available.value + source.value.amount);
      }
      if q.taskLimit.Some? {
        var taskAvailable := q.taskLimit.value - TaskCommitted(db, q.run, q.task);
        if source.Some? && source.value.open {
          taskAvailable := taskAvailable + source.value.amount;
        }
        available := if available.None? then Some(taskAvailable) else Some(Min(available.value, taskAvailable));
      }
      assert available == A.FundsFor(db, q, source);
      if !offer.current || offer.catalog != q.catalog || offer.config != q.config {
        return Err(A.StaleSnapshot);
      }
      var decision := A.Decide(db, q, source, available, offer.candidates);
      if decision.Err? {
        return Err(decision.error);
      }
      if decision.value.Refuse? {
        return Ok(A.NotAssigned(decision.value.excluded, decision.value.binding));
      }
      if source.Some? {
        ReleaseFallbackSource(q.run, source.value);
      }
      var row := PersistChoice(q, decision.value.candidate, ids);
      if row.Err? {
        return Err(row.error);
      }
      r := Ok(A.Assigned(ids.assignment, row.value));
    }

    /** One transaction; an error rolls it back. */
    method TryAssign(q: A.Request, offer: A.RoutingSnapshot, ids: A.Ids) returns (r: Result<A.Answer, A.AssignError>)
      requires ledger.journal == journal
      modifies journal
      ensures match A.AssignOnce(old(journal.db), ledger.warningPercent, q, offer, ids)
              case Ok((after, answer)) => journal.db == after && r == Ok(answer)
              case Err(e) => journal.db == old(journal.db) && r == Err(e)
    {
      var start := journal.db;
      if !A.Owned(start, q) {
        return Err(A.NotOneAttempt);
      }
      var existing := A.ExistingFor(start.assignments, q.attempt, q.fallbackOf);
      if existing.Some? {
        return Ok(A.Assigned(existing.value, start.assignments[existing.value]));
      }
      r := DecideNew(A.WithBaseline(start, q), offer, ids);
      if r.Err? {
        journal.db := start;
      }
    }

    /** Tries again while the routing inputs are stale, at most `maxSnapshotRetries` times. */
    method Assign(q: A.Request, offers: seq<A.RoutingSnapshot>, ids: A.Ids) returns (r: Result<A.Answer, A.AssignError>)
      requires ledger.journal == journal && |offers| == maxSnapshotRetries + 1
      modifies journal
      ensures match A.AssignWith(old(journal.db), ledger.warningPercent, q, offers, ids)
              case Ok((after, answer)) => journal.db == after && r == Ok(answer)
              case Err(e) => journal.db == old(journal.db) && r == Err(e)
    {
      var attempt := 0;
      r := Err(A.StaleSnapshot);
      while attempt < |offers|
        invariant 0 <= attempt <= |offers|
        invariant journal.db == old(journal.db) && r == Err(A.StaleSnapshot)
        invariant attempt < |offers| ==>
          A.AssignWith(old(journal.db), ledger.warningPercent, q, offers, ids) ==
          A.AssignWith(old(journal.db), ledger.warningPercent, q, offers[attempt..], ids)
        invariant attempt == |offers| ==>
          A.AssignWith(old(journal.db), ledger.warningPercent, q, offers, ids) == Err(A.StaleSnapshot)
      {
        ghost var rest := offers[attempt..];
        assert rest[0] == offers[attempt] && (|rest| > 1 ==> rest[1..] == offers[attempt + 1..]);
        r := TryAssign(q, offers[attempt], ids);
        if r != Err(A.StaleSnapshot) {
          return;
        }
        attempt := attempt + 1;
      }
    }

    method RequestFunds(q: A.Request, remaining: Option<real>) returns (available: Option<real>)
      ensures available == A.BatchFunds(journal.db, q, remaining) && (remaining.Some? ==> available.Some?)
    {
      available := remaining;
      if q.taskLimit.Some? {
        var taskAvailable := q.taskLimit.value - TaskCommitted(journal.db, q.run, q.task);
        available := if available.None? then Some(taskAvailable) else Some(Min(available.value, taskAvailable));
      }
    }

    /** Chooses for each request in turn out of what the earlier ones leave. */
    method ChooseEach(qs: seq<A.Request>, offers: seq<A.RoutingSnapshot>, ids: seq<A.Ids>, funds: Option<real>)
      returns (r: Result<A.Choices, A.AssignError>)
      requires |offers| == |qs| == |ids|
      ensures r == A.ChooseAll(journal.db, qs, offers, ids, funds)
    {
      hide A.ChooseAll, A.Decide, A.BatchFunds, A.AllowsUnpriced, Onto;
      var db := journal.db;
      var remaining := funds;
      var chosen: seq<A.Choice> := [];
      var deferred: seq<Deferral> := [];
      assert qs[0..] == qs && offers[0..] == offers && ids[0..] == ids;
      OntoNothing(A.ChooseAll(db, qs, offers, ids, funds));
      for i := 0 to |qs|
        invariant A.ChooseAll(db, qs, offers, ids, funds) ==
                  Onto(chosen, deferred, A.ChooseAll(db, qs[i..], offers[i..], ids[i..], remaining))
      {
        ChooseStep(db, qs, offers, ids, i, remaining);
        var q, offer := qs[i], offers[i];
        if offer.catalog != q.catalog || offer.config != q.config {
          OntoError(chosen, deferred, A.RevisionChanged);
          return Err(A.RevisionChanged);
        }
        var available := RequestFunds(q, remaining);
        var decision := A.Decide(db, q, None, available, offer.candidates);
        if decision.Err? {
          OntoError(chosen, deferred, decision.error);
          return Err(decision.error);
        }
        if decision.value.Refuse? {
          var refused := Deferral(q.task, decision.value.excluded, decision.value.binding);
          OntoOnto(chosen, deferred, [], [refused], A.ChooseAll(db, qs[i + 1..], offers[i + 1..], ids[i + 1..], remaining));
          deferred := deferred + [refused];
        } else {
          var c := decision.value.candidate;
          OntoOnto(chosen, deferred, [A.Choice(q, c, ids[i])], [],
                   A.ChooseAll(db, qs[i + 1..], offers[i + 1..], ids[i + 1..], A.After(remaining, c)));
          chosen := chosen + [A.Choice(q, c, ids[i])];
          if remaining.Some? {
            remaining := Some(remaining.value - c.estimatedCost.value);
          }
        }
      }
      OntoEnd(db, chosen, deferred, remaining);
      r := Ok(A.Choices(chosen, deferred));
    }

    method PersistEach(choices: seq<A.Choice>) returns (r: Result<(), A.AssignError>)
      requires ledger.journal == journal
      modifies journal
      ensures match A.PersistAll(old(journal.db), ledger.warningPercent, choices)
              case Ok(after) => journal.db == after && r == Ok(())
              case Err(e) => r == Err(e)
    {
      for i := 0 to |choices|
        invariant A.PersistAll(old(journal.db), ledger.warningPercent, choices) ==
                  A.PersistAll(journal.db, ledger.warningPercent, choices[i..])
      {
        assert choices[i..][1..] == choices[i + 1..];
        var row := PersistChoice(choices[i].request, choices[i].candidate, choices[i].ids);
        if row.Err? {
          return Err(row.error);
        }
      }
      r := Ok(());
    }

    /** Reserves the lead's allowance and then every choice. */
    method CommitChoices(run: Id, choices: seq<A.Choice>, lead: real, leadId: Id) returns (r: Result<(), A.AssignError>)
      requires ledger.journal == journal
      modifies journal
      ensures match A.Commit(old(journal.db), ledger.warningPercent, run, choices, lead, leadId)
              case Ok(after) => journal.db == after && r == Ok(())
              case Err(e) => r == Err(e)
    {
      if lead < 0.0 {
        return Err(A.NegativeAllowance);
      }
      var booking := ReservationRequest(leadId, run, None, lead, ForBatchLead(leadId), LeadContinuation);
      var reserved := ledger.ReserveAmount(booking, None, 0.0);
      if reserved.Err? {
        return Err(A.Ledger(reserved.error));
      }
      r := PersistEach(choices);
    }

    /** All of the batch or nothing of it. */
    method AssignAll(qs: seq<A.Request>, offers: seq<A.RoutingSnapshot>, ids: seq<A.Ids>, lead: real, leadId: Id)
      returns (r: Result<Batch, A.AssignError>)
      requires ledger.journal == journal && |offers| == |qs| == |ids|
      modifies journal
      ensures match A.AssignBatch(old(journal.db), ledger.warningPercent, qs, offers, ids, lead, leadId)
              case Ok((after, answer)) => journal.db == after && r == Ok(answer)
              case Err(e) => journal.db == old(journal.db) && r == Err(e)
    {
      hide A.ChooseAll, A.Commit, A.Owned, SnapshotOf, A.WithBaselines;
      if qs == [] {
        return Ok(Batch([], [], None));
      }
      var start := journal.db;
      var run := qs[0].run;
      if exists q :: q in qs && q.run != run {
        return Err(A.SpansRuns);
      }
      if exists q :: q in qs && !A.Owned(start, q) {
        return Err(A.NotOneAttempt);
      }
      var key := A.AttemptsOf(qs);
      if key in start.batches {
        return Ok(start.batches[key]);
      }
      var remaining := SnapshotOf(start, run).available;
      if remaining.Some? {
        remaining := Some(remaining.value - lead);
      }
      var choices := ChooseEach(A.WithBaselines(start, qs), offers, ids, remaining);
      if choices.Err? {
        return Err(choices.error);
      }
      if choices.value.chosen == [] {
        return Ok(Batch([], choices.value.deferred, None));
      }
      var committed := CommitChoices(run, choices.value.chosen, lead, leadId);
      if committed.Err? {
        journal.db := start;
        return Err(committed.error);
      }
      var answer := Batch(A.AssignmentIds(choices.value.chosen), choices.value.deferred, Some(leadId));
      journal.db := journal.db.(batches := journal.db.batches[key := answer]);
      r := Ok(answer);
    }
  }

  /** The choices made so far, in front of what the rest of the requests comes to. */
  ghost function Onto(chosen: seq<A.Choice>, deferred: seq<Deferral>, rest: Result<A.Choices, A.AssignError>): Result<A.Choices, A.AssignError> {
    if rest.Err? then rest else Ok(A.Choices(chosen + rest.value.chosen, deferred + rest.value.deferred))
  }

  lemma {:induction false} OntoNothing(rest: Result<A.Choices, A.AssignError>)
    ensures Onto([], [], rest) == rest
  {
    if rest.Ok? {
      assert [] + rest.value.chosen == rest.value.chosen && [] + rest.value.deferred == rest.value.deferred;
    }
  }

  lemma {:induction false} OntoError(chosen: seq<A.Choice>, deferred: seq<Deferral>, e: A.AssignError)
    ensures Onto(chosen, deferred, Err(e)) == Err(e)
  {
  }

  lemma {:induction false} OntoEnd(db: Db, chosen: seq<A.Choice>, deferred: seq<Deferral>, remaining: Option<real>)
    ensures Onto(chosen, deferred, A.ChooseAll(db, [], [], [], remaining)) == Ok(A.Choices(chosen, deferred))
  {
    assert chosen + [] == chosen && deferred + [] == deferred;
  }

  lemma {:induction false} OntoOnto(chosen: seq<A.Choice>, deferred: seq<Deferral>, c: seq<A.Choice>, d: seq<Deferral>, rest: Result<A.Choices, A.AssignError>)
    ensures Onto(chosen, deferred, Onto(c, d, rest)) == Onto(chosen + c, deferred + d, rest)
    ensures chosen + [] == chosen && deferred + [] == deferred
  {
    if rest.Ok? {
      assert chosen + (c + rest.value.chosen) == (chosen + c) + rest.value.chosen;
      assert deferred + (d + rest.value.deferred) == (deferred + d) + rest.value.deferred;
    }
  }

  /** What one turn of the selection loop adds. */
  lemma {:induction false} ChooseStep(db: Db, qs: seq<A.Request>, offers: seq<A.RoutingSnapshot>, ids: seq<A.Ids>, i: nat, remaining: Option<real>)
    requires |offers| == |qs| == |ids| && i < |qs|
    ensures var rest := A.ChooseAll(db, qs[i..], offers[i..], ids[i..], remaining);
      var decision := A.Decide(db, qs[i], None, A.BatchFunds(db, qs[i], remaining), offers[i].candidates);
      if !A.Matches(qs[i], offers[i]) then rest == Err(A.RevisionChanged)
      else if decision.Err? then rest == Err(decision.error)
      else if decision.value.Refuse? then
        rest == Onto([], [Deferral(qs[i].task, decision.value.excluded, decision.value.binding)],
                     A.ChooseAll(db, qs[i + 1..], offers[i + 1..], ids[i + 1..], remaining))
      else
        rest == Onto([A.Choice(qs[i], decision.value.candidate, ids[i])], [],
                     A.ChooseAll(db, qs[i + 1..], offers[i + 1..], ids[i + 1..], A.After(remaining, decision.value.candidate)))
  {
    hide A.Decide, A.BatchFunds;
    assert qs[i..][1..] == qs[i + 1..] && offers[i..][1..] == offers[i + 1..] && ids[i..][1..] == ids[i + 1..];
    assert forall c: seq<A.Choice> :: [] + c == c;
    assert forall d: seq<Deferral> :: [] + d == d;
  }
}
