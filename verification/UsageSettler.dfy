/** The service that accounts for provider calls (routing/assignment.py, AssignmentUsageSettler),
    proved against the specification in Calls. */
module UsageSettlers {
  import opened Prelude
  import opened Journals
  import opened Ledgers
  import C = Calls

  class AssignmentUsageSettler {
    const journal: Journal
    const ledger: BudgetLedger

    constructor (journal: Journal, ledger: BudgetLedger)
      requires ledger.journal == journal
      ensures this.journal == journal && this.ledger == ledger
    {
      this.journal := journal;
      this.ledger := ledger;
    }

    method Begin(a: Id, key: Id, call: Id) returns (r: Result<(), C.CallError>)
      modifies journal
      ensures match C.BeginCall(old(journal.db), a, key, call)
              case Ok(after) => journal.db == after && r == Ok(())
              case Err(e) => journal.db == old(journal.db) && r == Err(e)
    {
      var db := journal.db;
      if a !in db.assignments || db.assignments[a].attempt !in db.attempts
         || db.attempts[db.assignments[a].attempt].task !in db.tasks {
        return Err(C.UnknownAssignment);
      }
      var row := db.assignments[a];
      var run := db.tasks[db.attempts[row.attempt].task].run;
      if C.KeyUsed(db, a, key) {
        return Err(C.ReplayBlocked);
      }
      if C.Uncertain(db, run) {
        return Err(C.OpenFailure);
      }
      var limit := LimitOf(db, run);
      var observed := C.Observed(db, run);
      if limit.Some? && observed >= limit.value {
        return Err(C.BudgetExhausted);
      }
      if row.reservation !in db.reservations || !db.reservations[row.reservation].status.Reserved? {
        return Err(C.NoFundedReservation);
      }
      if call in db.calls {
        return Err(C.CallIdTaken);
      }
      journal.db := db.(calls := db.calls[call := Call(a, key, C.NextOrdinal(db, a), Started, None)]);
      r := Ok(());
    }

    method SetStatus(c: Id, status: CallStatus)
      requires c in journal.db.calls
      modifies journal
      ensures journal.db == C.WithStatus(old(journal.db), c, status)
    {
      journal.db := journal.db.(calls := journal.db.calls[c := journal.db.calls[c].(status := status)]);
    }

    /** `INSERT OR IGNORE`. */
    method AddFailure(c: Id)
      modifies journal
      ensures journal.db == old(journal.db).(failures := C.WithFailure(old(journal.db).failures, c))
    {
      if c !in journal.db.failures {
        journal.db := journal.db.(failures := journal.db.failures[c := Open]);
      }
    }

    method Succeed(c: Id) returns (r: Result<(), C.CallError>)
      modifies journal
      ensures match C.MarkSucceeded(old(journal.db), c)
              case Ok(after) => journal.db == after && r == Ok(())
              case Err(e) => journal.db == old(journal.db) && r == Err(e)
    {
      if c !in journal.db.calls {
        return Err(C.UnknownCall);
      }
      var status := journal.db.calls[c].status;
      if status.Completed? {
        return Ok(());
      }
      if !status.Started? {
        return Err(C.NotReclassified);
      }
      SetStatus(c, Completed);
      r := Ok(());
    }

    method BecomeAmbiguous(c: Id) returns (r: Result<(), C.CallError>)
      modifies journal
      ensures match C.MarkAmbiguous(old(journal.db), c)
              case Ok(after) => journal.db == after && r == Ok(())
              case Err(e) => journal.db == old(journal.db) && r == Err(e)
    {
      if c !in journal.db.calls {
        return Err(C.UnknownCall);
      }
      var status := journal.db.calls[c].status;
      if status.Completed? || status.Rejected? {
        return Ok(());
      }
      SetStatus(c, Ambiguous);
      AddFailure(c);
      r := Ok(());
    }

    method Reject(c: Id, requestRejected: bool) returns (r: Result<(), C.CallError>)
      modifies journal
      ensures match C.MarkRejected(old(journal.db), c, requestRejected)
              case Ok(after) => journal.db == after && r == Ok(())
              case Err(e) => journal.db == old(journal.db) && r == Err(e)
    {
      if !requestRejected {
        return Err(C.NotARejection);
      }
      if c !in journal.db.calls {
        return Err(C.UnknownCall);
      }
      var status := journal.db.calls[c].status;
      if status.Rejected? {
        return Ok(());
      }
      if !status.Started? {
        return Err(C.NotReclassified);
      }
      SetStatus(c, Rejected);
      r := Ok(());
    }

    /** One call after another; the order in which the rows come does not matter. */
    method LeaveUnreturned(a: Id) returns (count: nat)
      modifies journal
      ensures journal.db == C.MarkUnreturned(old(journal.db), a)
      ensures count == |C.StartedCalls(old(journal.db), a)|
    {
      hide C.AmbiguousEach, C.WithFailure;
      var start := journal.db;
      var rows := C.StartedCalls(start, a);
      var todo := rows;
      NoneMarked(start, rows - todo);
      while todo != {}
        invariant todo <= rows
        invariant journal.db == C.AmbiguousEach(start, rows - todo)
        decreases todo
      {
        var c :| c in todo;
        OneMoreMarked(start, rows - todo, c);
        SetStatus(c, Ambiguous);
        AddFailure(c);
        assert rows - todo + {c} == rows - (todo - {c});
        todo := todo - {c};
      }
      assert rows - todo == rows;
      count := |rows|;
    }

    method Record(a: Id, c: Id, tokens: Option<C.Tokens>) returns (r: Result<(), C.CallError>)
      modifies journal
      ensures match C.RecordCall(old(journal.db), a, c, tokens)
              case Ok(after) => journal.db == after && r == Ok(())
              case Err(e) => journal.db == old(journal.db) && r == Err(e)
    {
      var start := journal.db;
      if a !in start.assignments {
        return Err(C.UnknownAssignment);
      }
      var row := C.UsageRow(tokens, start.assignments[a].pricing);
      var rows: map<Id, CallUsage> := C.UsageOf(start, a);
      if c in rows {
        return if rows[c] == row then Ok(()) else Err(C.UsageConflict);
      }
      journal.db := start.(callUsage := start.callUsage[a := rows[c := row]]);
      if c in start.calls {
        if start.calls[c].status.Ambiguous? || start.calls[c].status.Rejected? {
          journal.db := start;
          return Err(C.LateUsage);
        }
        var amount := if row.costKnown then Some(row.amount) else None;
        journal.db := journal.db.(calls := start.calls[c := start.calls[c].(status := Completed, amount := amount)]);
      }
      r := Ok(());
    }

    /** The loop over the recorded usage rows. */
    method SumKnown(rows: map<Id, CallUsage>, pricing: Pricing) returns (known: real, allResolved: bool)
      ensures known == Sum(rows, C.KnownPart(pricing))
      ensures allResolved == forall c :: c in rows ==> C.Resolved(rows[c], pricing).Some?
    {
      known, allResolved := 0.0, true;
      var left := rows;
      while left.Keys != {}
        invariant forall c :: c in left ==> c in rows && left[c] == rows[c]
        invariant known + Sum(left, C.KnownPart(pricing)) == Sum(rows, C.KnownPart(pricing))
        invariant allResolved == forall c :: c in rows && c !in left ==> C.Resolved(rows[c], pricing).Some?
        decreases left.Keys
      {
        var c :| c in left.Keys;
        SumWithout(left, C.KnownPart(pricing), c);
        var cost := C.Resolved(left[c], pricing);
        if cost.Some? {
          known := known + cost.value;
        } else {
          allResolved := false;
        }
        left := left - {c};
      }
    }

    method SettleCosts(a: Id, reconciled: bool) returns (r: Result<(), LedgerError>)
      requires ledger.journal == journal && a in journal.db.assignments
      modifies journal
      ensures match C.SettleUsage(old(journal.db), ledger.warningPercent, a, reconciled)
              case Ok(after) => journal.db == after && r == Ok(())
              case Err(e) => journal.db == old(journal.db) && r == Err(e)
    {
      var db := journal.db;
      var row := db.assignments[a];
      var rows := C.UsageOf(db, a);
      var unaccounted := C.Unaccounted(db, a);
      var known, allResolved := SumKnown(rows, row.pricing);
      var allMeasured := rows.Keys != {} && !unaccounted && allResolved;
      C.KnownIsMoney(rows, row.pricing);
      var cost: Money := if allMeasured then known else Max(row.estimated, known);
      var authority :=
        if allMeasured then TokenDerivedEstimate else if reconciled then ReconciledEstimate else ConservativeEstimate;
      r := ledger.SettleReservation(row.reservation, a, Some(cost), authority, a);
    }

    method SettleOne(a: Id) returns (error: Option<C.CallError>)
      requires ledger.journal == journal
      modifies journal
      ensures (journal.db, error) == C.SettleAttempt(old(journal.db), ledger.warningPercent, a)
    {
      if a !in journal.db.assignments {
        return Some(C.UnknownAssignment);
      }
      var r := SettleCosts(a, false);
      if r.Err? {
        var count := if a in journal.db.unsettled then journal.db.unsettled[a] else 0;
        journal.db := journal.db.(unsettled := journal.db.unsettled[a := count + 1]);
        return Some(C.SettlementFailed(r.error));
      }
      error := None;
    }

    method ReconcileCall(session: Id, c: Id) returns (r: Result<C.Reconciliation, C.CallError>)
      requires ledger.journal == journal
      modifies journal
      ensures match C.Reconcile(old(journal.db), ledger.warningPercent, session, c)
              case Ok((after, result)) => journal.db == after && r == Ok(result)
              case Err(e) => journal.db == old(journal.db) && r == Err(e)
    {
      hide C.SettleUsage, C.ReconciliationState;
      var start := journal.db;
      var before := C.ReconciliationState(start, session, c);
      if before.Err? {
        return Err(before.error);
      }
      if before.value.0.settled {
        return if before.value.1.Estimated? then Ok(before.value.0) else Err(C.SettledWithoutCall);
      }
      journal.db := start.(failures := start.failures[c := Estimated]);
      var state := C.ReconciliationState(journal.db, session, c);
      if state.Err? {
        journal.db := start;
        return Err(state.error);
      }
      if state.value.0.remaining == 0 {
        var settled := SettleCosts(state.value.0.assignment, true);
        if settled.Err? {
          journal.db := start;
          return Err(C.SettlementFailed(settled.error));
        }
        state := C.ReconciliationState(journal.db, session, c);
        if state.Err? {
          journal.db := start;
          return Err(state.error);
        }
      }
      r := Ok(state.value.0);
    }
  }

  lemma {:induction false} NoneMarked(db: Db, cs: set<Id>)
    requires cs == {}
    ensures C.AmbiguousEach(db, cs) == db
  {
  }

  lemma {:induction false} OneMoreMarked(db: Db, cs: set<Id>, c: Id)
    requires c in db.calls && cs <= db.calls.Keys
    ensures var before := C.AmbiguousEach(db, cs);
      && c in before.calls
      && C.AmbiguousEach(db, cs + {c}) ==
         C.WithStatus(before, c, Ambiguous).(failures := C.WithFailure(before.failures, c))
  {
  }
}
