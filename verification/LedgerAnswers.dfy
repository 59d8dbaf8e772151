/** What the budget ledger answers, in the amounts that reservations cost (routing/budget.py). */
module LedgerAnswers {
  import opened Prelude
  import opened Journals
  import opened Ledgers
  import T = TaskSpending

  /** What the reservations of a run cost, each counted once. */
  function RunSpent(db: Db, run: Id): real {
    Total(Charges(BooksOf(db), run))
  }

  /** The amount fits what the run and the task have left, besides the allowance kept for the lead. */
  predicate FitsBoth(db: Db, q: ReservationRequest, taskLimit: Option<real>, lead: real) {
    && (q.run in db.runs && db.runs[q.run].limit.Some? ==> RunSpent(db, q.run) + q.amount + lead <= db.runs[q.run].limit.value)
    && (taskLimit.Some? && q.task.Some? ==> T.Spent(db, q.run, q.task.value) + q.amount <= taskLimit.value)
  }

  lemma {:induction false} FitsExactly(db: Db, q: ReservationRequest, taskLimit: Option<real>, lead: real)
    requires BooksOf(db).Matched()
    ensures FitsBoth(db, q, taskLimit, lead) <==> !RunCannotFund(db, q, lead) && !TaskCannotFund(db, q, taskLimit)
  {
    hide Books.Matched, Charges, T.Spent, Committed, TaskCommitted;
    CountedOnce(db, q.run);
    AvailableIsUncommitted(db, q.run);
    if q.task.Some? {
      T.TaskCountedOnce(db, q.run, q.task.value);
    }
  }

  /** A request under a new key is accepted exactly when its run is known, its amount fits, its id is new
      and its task is known. It then holds its amount, and no other reservation changes. */
  lemma {:induction false} ReserveAnswers(db: Db, percent: real, q: ReservationRequest, taskLimit: Option<real>, lead: real)
    requires BooksOf(db).Matched()
    requires forall r :: r in db.reservations ==> db.reservations[r].key != q.key
    ensures Reserve(db, percent, q, taskLimit, lead).Ok? <==>
      && q.run in db.runs && FitsBoth(db, q, taskLimit, lead)
      && q.id !in db.reservations && (q.task.Some? ==> q.task.value in db.tasks)
    ensures Reserve(db, percent, q, taskLimit, lead).Ok? ==>
      Reserve(db, percent, q, taskLimit, lead).value.0.reservations ==
      db.reservations[q.id := Reservation(q.run, q.task, q.amount, Reserved, q.key, q.purpose)]
  {
    hide Books.Matched, FitsBoth, RunCannotFund, TaskCannotFund, UpdateWarning, WarningCrossed;
    FitsExactly(db, q, taskLimit, lead);
    WarningOnly(Inserted(db, q), percent, q.run);
  }

  /** A request under a key in use is answered without any change exactly when it is the same request. */
  lemma {:induction false} ReserveRepeated(db: Db, percent: real, q: ReservationRequest, taskLimit: Option<real>, lead: real)
    requires exists r :: r in db.reservations && db.reservations[r].key == q.key
    ensures var same := q.id in db.reservations && db.reservations[q.id] ==
                        Reservation(q.run, q.task, q.amount, db.reservations[q.id].status, q.key, q.purpose);
      Reserve(db, percent, q, taskLimit, lead) == if same then Ok((db, false)) else Err(IdempotencyConflict)
  {
  }

  /** An open reservation is released, a released one stays so, and a settled one is not released. */
  lemma {:induction false} ReleaseAnswers(db: Db, percent: real, r: Id)
    ensures Release(db, percent, r).Ok? <==> r in db.reservations && db.reservations[r].status in {Reserved, Released}
    ensures Release(db, percent, r).Ok? ==>
      && Release(db, percent, r).value.reservations == db.reservations[r := db.reservations[r].(status := Released)]
      && Release(db, percent, r).value.usage == db.usage
      && (db.reservations[r].status == Released ==> Release(db, percent, r).value == db)
  {
    hide UpdateWarning;
    if r in db.reservations {
      WarningOnly(Freed(db, r), percent, db.reservations[r].run);
      if db.reservations[r].status == Released {
        assert db.reservations[r := db.reservations[r].(status := Released)] == db.reservations;
      }
    }
  }

  /** A settlement of an open reservation with a known cost is accepted exactly when its ids are new. */
  lemma {:induction false} SettleAnswers(db: Db, percent: real, r: Id, usageId: Id, cost: Option<Money>, authority: Authority, key: Id)
    requires r in db.reservations && r !in db.usage
    ensures Settle(db, percent, r, usageId, cost, authority, key).Ok? <==>
      && cost.Some? && db.reservations[r].status == Reserved
      && forall x :: x in db.usage ==> db.usage[x].usageId != usageId && db.usage[x].key != key
    ensures Settle(db, percent, r, usageId, cost, authority, key).Ok? ==>
      var after, row := Settle(db, percent, r, usageId, cost, authority, key).value, db.reservations[r];
      && after.reservations == db.reservations[r := row.(status := Settled)]
      && after.usage == db.usage[r := UsageRecord(usageId, row.run, row.task, cost.value, authority, key)]
  {
    hide UpdateWarning;
    if cost.Some? && SettleBooks(BooksOf(db), r, usageId, cost.value, authority, key).Ok? {
      WarningOnly(WithBooks(db, SettleBooks(BooksOf(db), r, usageId, cost.value, authority, key).value), percent, db.reservations[r].run);
    }
  }

  /** The same settlement again changes nothing. A different one under the same ids corrects an estimate,
      by the actual amount or by a conservative estimate that is no lower; anything else is refused. */
  lemma {:induction false} SettleCorrects(db: Db, percent: real, r: Id, usageId: Id, cost: Money, authority: Authority, key: Id)
    requires r in db.reservations && r in db.usage
    ensures var was, answer := db.usage[r], Settle(db, percent, r, usageId, Some(cost), authority, key);
      var same := was.usageId == usageId && was.key == key && was.amount == cost && was.authority == authority;
      && (answer.Ok? <==>
            || same
            || (was.usageId == usageId && was.key == key && was.authority != AuthoritativeActual
                && (authority == AuthoritativeActual || (authority == ConservativeEstimate && cost >= was.amount))))
      && (same ==> answer == Ok(db))
      && (answer.Ok? ==>
            answer.value.usage == db.usage[r := was.(amount := cost, authority := authority)]
            && answer.value.reservations == db.reservations)
  {
    hide UpdateWarning;
    var was := db.usage[r];
    var books := SettleBooks(BooksOf(db), r, usageId, cost, authority, key);
    if books.Ok? {
      WarningOnly(WithBooks(db, books.value), percent, db.reservations[r].run);
      assert db.usage[r := was] == db.usage;
    }
  }
}
