/** What single assignments keep: every assignment is funded by its own reservation, the
    assignments of an attempt form one chain of fallbacks, and what the selector affords the ledger
    accepts. */
module Chains {
  import opened Prelude
  import opened Journals
  import opened Ledgers
  import opened Selector
  import opened Assignments

  // ----- Invariants -----

  ghost predicate FundedRow(db: Db, a: Id, row: Assignment) {
    && row.attempt in db.attempts && db.attempts[row.attempt].task in db.tasks
    && row.reservation in db.reservations
    && var r := db.reservations[row.reservation];
       && r.key == ForAssignment(a) && r.amount == row.estimated
       && r.task == Some(db.attempts[row.attempt].task) && r.run == db.tasks[db.attempts[row.attempt].task].run
  }

  /** Every assignment has a reservation of its own, for its cost, run and task. */
  ghost predicate Funded(db: Db) {
    forall a {:trigger db.assignments[a]} :: a in db.assignments ==> FundedRow(db, a, db.assignments[a])
  }

  ghost predicate ChainedRow(table: map<Id, Assignment>, row: Assignment) {
    && row.rowid < |table|
    && (row.fallbackOf.Some? ==>
          && row.fallbackOf.value in table
          && var source := table[row.fallbackOf.value];
             source.attempt == row.attempt && source.model == row.model && source.rowid < row.rowid)
  }

  /** A fallback follows an older assignment of the same attempt and keeps its model. */
  ghost predicate Chained(table: map<Id, Assignment>) {
    forall a {:trigger table[a]} :: a in table ==> ChainedRow(table, table[a])
  }

  /** An attempt has at most one primary assignment, and an assignment at most one fallback. */
  ghost predicate DecidedOnce(table: map<Id, Assignment>) {
    forall a, b {:trigger table[a].fallbackOf, table[b].fallbackOf} ::
      a in table && b in table && Decides(table[a], table[b].attempt, table[b].fallbackOf) ==> a == b
  }

  predicate IsOpen(db: Db, r: Id) {
    r in db.reservations && db.reservations[r].status.Reserved?
  }

  /** An assignment that has a fallback holds no money. */
  ghost predicate SourcesClosed(db: Db) {
    forall a {:trigger db.assignments[a].fallbackOf} ::
      a in db.assignments && db.assignments[a].fallbackOf.Some? && db.assignments[a].fallbackOf.value in db.assignments ==>
        !IsOpen(db, db.assignments[db.assignments[a].fallbackOf.value].reservation)
  }

  ghost predicate AssignmentsInv(db: Db) {
    && LedgerInv(db) && Funded(db)
    && Chained(db.assignments) && DecidedOnce(db.assignments) && SourcesClosed(db)
  }

  /** The part of this that does not speak of chains. */
  ghost predicate BooksInv(db: Db) {
    LedgerInv(db) && Funded(db) && DecidedOnce(db.assignments)
  }

  /** Tasks and attempts change their status at most. */
  ghost predicate SameOwners(before: Db, after: Db) {
    && (forall t {:trigger after.attempts[t]} {:trigger before.attempts[t]} :: t in before.attempts ==>
          t in after.attempts && after.attempts[t] == before.attempts[t].(status := after.attempts[t].status))
    && (forall t {:trigger after.tasks[t]} {:trigger before.tasks[t]} :: t in before.tasks ==>
          t in after.tasks && after.tasks[t] == before.tasks[t].(status := after.tasks[t].status))
  }

  /** Assignments are never changed or lost. */
  ghost predicate AssignmentsKept(before: Db, after: Db) {
    && SameOwners(before, after)
    && forall a {:trigger after.assignments[a]} {:trigger before.assignments[a]} :: a in before.assignments ==>
         a in after.assignments && after.assignments[a] == before.assignments[a]
  }

  // ----- What the selector affords the ledger accepts -----

  predicate FreshIds(db: Db, ids: Ids) {
    !KeyTaken(db, ForAssignment(ids.assignment)) && ids.assignment !in db.assignments && ids.reservation !in db.reservations
  }

  lemma {:induction false} FreeUncommitsTask(db: Db, r: Id, run: Id, task: Id)
    requires r in db.reservations
    ensures TaskCommitted(Freed(db, r), run, task) == TaskCommitted(db, run, task) - HeldFor(run, task)(db.reservations[r])
  {
    SumPut(db.reservations, HeldFor(run, task), r, db.reservations[r].(status := Released));
  }

  lemma {:induction false} SourceBelongs(db: Db, q: Request, source: Option<Source>)
    requires Funded(db) && Owned(db, q) && SourceOf(db, q) == Ok(source)
    ensures source.Some? ==> source.value.reservation in db.reservations
    ensures source.Some? ==>
      var r := db.reservations[source.value.reservation];
      r.run == q.run && r.task == Some(q.task) && r.amount == source.value.amount && r.status.Reserved? == source.value.open
  {
    if q.fallbackOf.Some? {
      assert FundedRow(db, q.fallbackOf.value, db.assignments[q.fallbackOf.value]);
    }
  }

  /** Giving up the source frees exactly the credit that the selection was promised. */
  lemma {:induction false} CreditIsFreed(db: Db, percent: real, q: Request, source: Option<Source>, mid: Db)
    requires Funded(db) && Owned(db, q) && SourceOf(db, q) == Ok(source)
    requires source.Some? ==> source.value.reservation in db.reservations
    requires mid == SourceReleased(db, percent, q.run, source)
    ensures Committed(mid, q.run) == Committed(db, q.run) - Credit(source)
    ensures TaskCommitted(mid, q.run, q.task) == TaskCommitted(db, q.run, q.task) - Credit(source)
  {
    SourceBelongs(db, q, source);
    if source.Some? && source.value.open {
      FreeUncommits(db, source.value.reservation, q.run);
      FreeUncommitsTask(db, source.value.reservation, q.run, q.task);
    }
  }

  predicate Affords(db: Db, q: Request, c: Candidate) {
    && (LimitOf(db, q.run).Some? ==> Committed(db, q.run) + Cost(c) <= LimitOf(db, q.run).value)
    && (q.taskLimit.Some? ==> TaskCommitted(db, q.run, q.task) + Cost(c) <= q.taskLimit.value)
  }

  lemma {:induction false} ReserveAffordable(db: Db, percent: real, q: Request, c: Candidate, ids: Ids)
    requires Affords(db, q, c) && q.run in db.runs && q.task in db.tasks
    ensures Reserve(db, percent, Booking(q, c, ids), q.taskLimit, 0.0).Err? ==>
              Reserve(db, percent, Booking(q, c, ids), q.taskLimit, 0.0).error == IdempotencyConflict && !FreshIds(db, ids)
  {
    AvailableIsUncommitted(db, q.run);
  }

  /** The selection was made within what is left plus the credit. */
  lemma {:induction false} FundsCover(db: Db, q: Request, source: Option<Source>, candidates: seq<Candidate>, c: Candidate)
    requires Decide(db, q, source, FundsFor(db, q, source), candidates) == Ok(Choose(c))
    ensures LimitOf(db, q.run).Some? ==> Committed(db, q.run) + Cost(c) <= LimitOf(db, q.run).value + Credit(source)
    ensures q.taskLimit.Some? ==> TaskCommitted(db, q.run, q.task) + Cost(c) <= q.taskLimit.value + Credit(source)
  {
    AvailableIsUncommitted(db, q.run);
  }

  lemma {:induction false} LimitsStay(db: Db, percent: real, run: Id, source: Option<Source>, mid: Db)
    requires source.Some? ==> source.value.reservation in db.reservations
    requires mid == SourceReleased(db, percent, run, source)
    ensures mid.runs == db.runs
  {
  }

  /** The choice fits what is left once the source is given up. */
  lemma {:induction false} ChoiceIsAffordable(db: Db, percent: real, q: Request, source: Option<Source>, candidates: seq<Candidate>, c: Candidate, mid: Db)
    requires Funded(db) && Owned(db, q) && SourceOf(db, q) == Ok(source)
    requires source.Some? ==> source.value.reservation in db.reservations
    requires Decide(db, q, source, FundsFor(db, q, source), candidates) == Ok(Choose(c))
    requires mid == SourceReleased(db, percent, q.run, source)
    ensures Affords(mid, q, c)
  {
    hide Decide, FundsFor, Funded, Committed, TaskCommitted, UpdateWarning, SourceOf;
    CreditIsFreed(db, percent, q, source, mid);
    FundsCover(db, q, source, candidates, c);
    LimitsStay(db, percent, q.run, source, mid);
  }

  /** Where a refusal by the ledger comes from. */
  lemma {:induction false} RefusedOnce(db: Db, percent: real, q: Request, offer: RoutingSnapshot, ids: Ids, e: LedgerError)
    requires AssignOnce(db, percent, q, offer, ids) == Err(Ledger(e))
    ensures var r := WithBaseline(db, q);
      Owned(db, r) && ExistingFor(db.assignments, r.attempt, r.fallbackOf).None? && AssignNew(db, percent, r, offer, ids) == Err(Ledger(e))
  {
    hide AssignNew;
  }

  lemma {:induction false} RefusedNew(db: Db, percent: real, r: Request, offer: RoutingSnapshot, ids: Ids, e: LedgerError)
    returns (source: Option<Source>, c: Candidate)
    requires AssignNew(db, percent, r, offer, ids) == Err(Ledger(e))
    ensures SourceOf(db, r) == Ok(source) && (source.Some? ==> source.value.reservation in db.reservations)
    ensures Decide(db, r, source, FundsFor(db, r, source), offer.candidates) == Ok(Choose(c))
    ensures Persist(SourceReleased(db, percent, r.run, source), percent, r, c, ids) == Err(Ledger(e))
  {
    hide Decide, FundsFor, Persist, SourceReleased;
    source := SourceOf(db, r).value;
    c := Decide(db, r, source, FundsFor(db, r, source), offer.candidates).value.candidate;
  }

  lemma {:induction false} RefusedPersist(db: Db, percent: real, r: Request, c: Candidate, ids: Ids, e: LedgerError)
    requires Persist(db, percent, r, c, ids) == Err(Ledger(e)) && ExistingFor(db.assignments, r.attempt, r.fallbackOf).None?
    ensures Reserve(db, percent, Booking(r, c, ids), r.taskLimit, 0.0) == Err(e) ||
            (e == IdempotencyConflict && ids.assignment in db.assignments)
  {
    hide Reserve;
  }

  lemma {:induction false} SourceReleaseLeaves(db: Db, percent: real, run: Id, source: Option<Source>)
    requires source.Some? ==> source.value.reservation in db.reservations
    ensures var mid := SourceReleased(db, percent, run, source);
      mid.runs == db.runs && mid.tasks == db.tasks && mid.assignments == db.assignments
  {
  }

  lemma {:induction false} OwnedExists(db: Db, q: Request)
    requires Owned(db, q)
    ensures q.run in db.runs && q.task in db.tasks
  {
  }

  lemma {:induction false} KnownIdIsNotFresh(db: Db, ids: Ids)
    requires ids.assignment in db.assignments
    ensures !FreshIds(db, ids)
  {
  }

  /** With fresh identifiers, a decision is never refused by the ledger. */
  lemma {:induction false} AffordedIsAccepted(db: Db, percent: real, q: Request, offer: RoutingSnapshot, ids: Ids, e: LedgerError)
    requires Funded(db)
    ensures AssignOnce(db, percent, q, offer, ids) == Err(Ledger(e)) ==> e == IdempotencyConflict && !FreshIds(db, ids)
  {
    hide *;
    if AssignOnce(db, percent, q, offer, ids) == Err(Ledger(e)) {
      var r := WithBaseline(db, q);
      RefusedOnce(db, percent, q, offer, ids, e);
      var source, c := RefusedNew(db, percent, r, offer, ids, e);
      var mid := SourceReleased(db, percent, r.run, source);
      SourceReleaseLeaves(db, percent, r.run, source);
      OwnedExists(db, r);
      RefusedPersist(mid, percent, r, c, ids, e);
      if ids.assignment in db.assignments {
        KnownIdIsNotFresh(db, ids);
      }
      ChoiceIsAffordable(db, percent, r, source, offer.candidates, c, mid);
      ReserveAffordable(mid, percent, r, c, ids);
      ReleaseKeepsFresh(db, percent, r.run, source, ids);
    }
  }

  lemma {:induction false} ReleaseKeepsFresh(db: Db, percent: real, run: Id, source: Option<Source>, ids: Ids)
    requires source.Some? ==> source.value.reservation in db.reservations
    ensures FreshIds(db, ids) ==> FreshIds(SourceReleased(db, percent, run, source), ids)
  {
    var mid := SourceReleased(db, percent, run, source);
    forall r | r in mid.reservations ensures r in db.reservations && mid.reservations[r].key == db.reservations[r].key {
    }
  }

  // ----- What an assignment keeps -----

  lemma {:induction false} FundedStays(db: Db, after: Db)
    requires Funded(db) && LedgerEvolves(db, after) && SameOwners(db, after) && after.assignments == db.assignments
    ensures Funded(after)
  {
    forall a | a in after.assignments ensures FundedRow(after, a, after.assignments[a]) {
      assert FundedRow(db, a, db.assignments[a]);
      var r := db.assignments[a].reservation;
      assert ReservationEvolves(db.reservations[r], after.reservations[r]);
    }
  }

  /** Ledger steps keep the assignments funded, and no reservation is ever opened again. */
  lemma {:induction false} LedgerStepKeeps(db: Db, after: Db)
    requires AssignmentsInv(db) && LedgerInv(after) && LedgerEvolves(db, after)
    requires SameOwners(db, after) && after.assignments == db.assignments
    ensures AssignmentsInv(after)
  {
    hide LedgerInv, LedgerEvolves, SameOwners, Funded, SourcesClosed;
    FundedStays(db, after);
    StaysClosed(db, after);
  }

  lemma {:induction false} StaysClosed(db: Db, after: Db)
    requires Funded(db) && SourcesClosed(db) && LedgerEvolves(db, after) && after.assignments == db.assignments
    ensures SourcesClosed(after)
  {
    forall a | a in after.assignments && after.assignments[a].fallbackOf.Some? && after.assignments[a].fallbackOf.value in after.assignments
      ensures !IsOpen(after, after.assignments[after.assignments[a].fallbackOf.value].reservation)
    {
      var s := db.assignments[a].fallbackOf.value;
      assert FundedRow(db, s, db.assignments[s]);
      var r := db.assignments[s].reservation;
      assert ReservationEvolves(db.reservations[r], after.reservations[r]);
    }
  }

  lemma {:induction false} ChainGrows(table: map<Id, Assignment>, a: Id, row: Assignment)
    requires Chained(table) && a !in table && row.rowid == |table|
    requires row.fallbackOf.Some? ==>
      && row.fallbackOf.value in table
      && table[row.fallbackOf.value].attempt == row.attempt && table[row.fallbackOf.value].model == row.model
    ensures Chained(table[a := row])
  {
    var after := table[a := row];
    forall b | b in after ensures ChainedRow(after, after[b]) {
      if b != a {
        assert ChainedRow(table, table[b]);
      }
      if row.fallbackOf.Some? {
        assert ChainedRow(table, table[row.fallbackOf.value]);
      }
    }
  }

  lemma {:induction false} DecidedOnceGrows(table: map<Id, Assignment>, a: Id, row: Assignment)
    requires DecidedOnce(table) && a !in table && ExistingFor(table, row.attempt, row.fallbackOf).None?
    ensures DecidedOnce(table[a := row])
  {
    var after := table[a := row];
    forall x, y | x in after && y in after && Decides(after[x], after[y].attempt, after[y].fallbackOf) ensures x == y {
      if x != a && y != a {
        assert table[x].fallbackOf == table[y].fallbackOf;
      }
    }
  }

  lemma {:induction false} ClosedGrows(db: Db, a: Id, row: Assignment)
    requires SourcesClosed(db) && Chained(db.assignments) && a !in db.assignments
    requires row.fallbackOf.Some? ==>
      row.fallbackOf.value in db.assignments && !IsOpen(db, db.assignments[row.fallbackOf.value].reservation)
    ensures SourcesClosed(db.(assignments := db.assignments[a := row]))
  {
    var after := db.(assignments := db.assignments[a := row]);
    forall b | b in after.assignments && after.assignments[b].fallbackOf.Some? && after.assignments[b].fallbackOf.value in after.assignments
      ensures !IsOpen(after, after.assignments[after.assignments[b].fallbackOf.value].reservation)
    {
      if b != a {
        assert ChainedRow(db.assignments, db.assignments[b]);
        assert db.assignments[b].fallbackOf.value in db.assignments;
      }
    }
  }

  /** A fallback's source is an assignment of the same attempt and model, and holds no money. */
  ghost predicate SourceReady(db: Db, q: Request, model: Id) {
    q.fallbackOf.Some? ==>
      && q.fallbackOf.value in db.assignments
      && var source := db.assignments[q.fallbackOf.value];
         source.attempt == q.attempt && source.model == model && !IsOpen(db, source.reservation)
  }

  /** Inserting the row of a new assignment. */
  lemma {:induction false} RowKeeps(db: Db, q: Request, c: Candidate, ids: Ids, after: Db)
    requires AssignmentsInv(db) && FundedRow(db, ids.assignment, RowOf(db, q, c, ids)) && SourceReady(db, q, c.key.model)
    requires ids.assignment !in db.assignments && ExistingFor(db.assignments, q.attempt, q.fallbackOf).None?
    requires after == db.(assignments := db.assignments[ids.assignment := RowOf(db, q, c, ids)])
    ensures AssignmentsInv(after) && AssignmentsKept(db, after)
    ensures ids.assignment in after.assignments && after.assignments[ids.assignment] == RowOf(db, q, c, ids)
  {
    hide *;
    var row := RowOf(db, q, c, ids);
    InvParts(db);
    RowFacts(db, q, c, ids);
    ChainGrows(db.assignments, ids.assignment, row);
    DecidedOnceGrows(db.assignments, ids.assignment, row);
    ClosedGrows(db, ids.assignment, row);
    FundedGrows(db, ids.assignment, row, after);
    BooksUntouched(db, after);
    InvOf(after);
    RowAdded(db, ids.assignment, row, after);
  }

  lemma {:induction false} RowFacts(db: Db, q: Request, c: Candidate, ids: Ids)
    requires SourceReady(db, q, c.key.model)
    ensures var row := RowOf(db, q, c, ids);
      && row.rowid == |db.assignments| && row.attempt == q.attempt && row.fallbackOf == q.fallbackOf
      && (row.fallbackOf.Some? ==>
            && row.fallbackOf.value in db.assignments
            && var source := db.assignments[row.fallbackOf.value];
               source.attempt == row.attempt && source.model == row.model && !IsOpen(db, source.reservation))
  {
  }

  lemma {:induction false} InvOf(db: Db)
    requires LedgerInv(db) && Funded(db) && Chained(db.assignments) && DecidedOnce(db.assignments) && SourcesClosed(db)
    ensures AssignmentsInv(db)
  {
  }

  lemma {:induction false} RowAdded(db: Db, a: Id, row: Assignment, after: Db)
    requires a !in db.assignments && after == db.(assignments := db.assignments[a := row])
    ensures AssignmentsKept(db, after)
  {
  }

  lemma {:induction false} FundedGrows(db: Db, a: Id, row: Assignment, after: Db)
    requires Funded(db) && a !in db.assignments && FundedRow(db, a, row)
    requires after == db.(assignments := db.assignments[a := row])
    ensures Funded(after)
  {
    forall b | b in after.assignments ensures FundedRow(after, b, after.assignments[b]) {
      assert b != a ==> FundedRow(db, b, db.assignments[b]);
    }
  }

  lemma {:induction false} BooksUntouched(db: Db, after: Db)
    requires LedgerInv(db) && after == db.(assignments := after.assignments)
    ensures LedgerInv(after)
  {
    assert BooksOf(after) == BooksOf(db);
  }

  lemma {:induction false} ReserveLeavesOwners(db: Db, percent: real, q: ReservationRequest, taskLimit: Option<real>, booked: Db, warned: bool)
    requires Reserve(db, percent, q, taskLimit, 0.0) == Ok((booked, warned))
    ensures booked.tasks == db.tasks && booked.attempts == db.attempts && booked.assignments == db.assignments
  {
    hide UpdateWarning;
    WarningOnly(Inserted(db, q), percent, q.run);
  }

  lemma {:induction false} BookedRow(db: Db, percent: real, q: Request, c: Candidate, ids: Ids, booked: Db, warned: bool)
    requires Owned(db, q) && Reserve(db, percent, Booking(q, c, ids), q.taskLimit, 0.0) == Ok((booked, warned))
    ensures FundedRow(booked, ids.assignment, RowOf(db, q, c, ids))
  {
    hide Reserve;
    AcceptedIsReplayed(db, percent, Booking(q, c, ids), q.taskLimit, 0.0, booked, warned);
    ReserveLeavesOwners(db, percent, Booking(q, c, ids), q.taskLimit, booked, warned);
  }

  lemma {:induction false} PersistKeeps(db: Db, percent: real, q: Request, c: Candidate, ids: Ids, after: Db)
    requires AssignmentsInv(db) && Owned(db, q) && SourceReady(db, q, c.key.model)
    requires Persist(db, percent, q, c, ids) == Ok(after)
    ensures AssignmentsInv(after) && AssignmentsKept(db, after) && LedgerEvolves(db, after)
    ensures ids.assignment in after.assignments && after.assignments[ids.assignment] == RowOf(db, q, c, ids)
  {
    hide *;
    var booked, warned := PersistAnatomy(db, percent, q, c, ids, after);
    InvParts(db);
    ReserveKeeps(db, percent, Booking(q, c, ids), q.taskLimit, 0.0, booked, warned);
    OwnersStay(db, booked);
    LedgerStepKeeps(db, booked);
    BookedRow(db, percent, q, c, ids, booked, warned);
    SourceStaysReady(db, booked, q, c.key.model);
    RowKeeps(booked, q, c, ids, after);
    RowLeavesBooks(db, booked, after);
  }

  lemma {:induction false} PersistAnatomy(db: Db, percent: real, q: Request, c: Candidate, ids: Ids, after: Db) returns (booked: Db, warned: bool)
    requires Persist(db, percent, q, c, ids) == Ok(after)
    ensures Reserve(db, percent, Booking(q, c, ids), q.taskLimit, 0.0) == Ok((booked, warned))
    ensures booked.tasks == db.tasks && booked.attempts == db.attempts && booked.assignments == db.assignments
    ensures ids.assignment !in db.assignments && ExistingFor(db.assignments, q.attempt, q.fallbackOf).None?
    ensures RowOf(booked, q, c, ids) == RowOf(db, q, c, ids)
    ensures after == booked.(assignments := booked.assignments[ids.assignment := RowOf(booked, q, c, ids)])
  {
    hide Reserve, ExistingFor, Booking;
    var step := Reserve(db, percent, Booking(q, c, ids), q.taskLimit, 0.0).value;
    booked, warned := step.0, step.1;
    ReserveLeavesOwners(db, percent, Booking(q, c, ids), q.taskLimit, booked, warned);
  }

  lemma {:induction false} InvParts(db: Db)
    requires AssignmentsInv(db)
    ensures LedgerInv(db) && Funded(db) && Chained(db.assignments) && DecidedOnce(db.assignments) && SourcesClosed(db)
  {
  }

  lemma {:induction false} RowLeavesBooks(db: Db, booked: Db, after: Db)
    requires LedgerEvolves(db, booked) && after == booked.(assignments := after.assignments)
    requires booked.tasks == db.tasks && booked.attempts == db.attempts && booked.assignments == db.assignments && AssignmentsKept(booked, after)
    ensures LedgerEvolves(db, after) && AssignmentsKept(db, after)
  {
    assert BooksOf(after) == BooksOf(booked);
  }

  lemma {:induction false} SourceStaysReady(db: Db, after: Db, q: Request, model: Id)
    requires Funded(db) && SourceReady(db, q, model) && LedgerEvolves(db, after) && after.assignments == db.assignments
    ensures SourceReady(after, q, model)
  {
    if q.fallbackOf.Some? {
      assert FundedRow(db, q.fallbackOf.value, db.assignments[q.fallbackOf.value]);
      var r := db.assignments[q.fallbackOf.value].reservation;
      assert ReservationEvolves(db.reservations[r], after.reservations[r]);
    }
  }

  lemma {:induction false} SourceReleaseKeeps(db: Db, percent: real, q: Request, source: Option<Source>, mid: Db)
    requires AssignmentsInv(db) && Owned(db, q) && SourceOf(db, q) == Ok(source)
    requires source.Some? ==> source.value.reservation in db.reservations
    requires mid == SourceReleased(db, percent, q.run, source)
    ensures AssignmentsInv(mid) && LedgerEvolves(db, mid)
    ensures mid.tasks == db.tasks && mid.assignments == db.assignments && mid.attempts == db.attempts
  {
    hide *;
    InvParts(db);
    SourceBelongs(db, q, source);
    SourceReleaseEvolves(db, percent, q.run, source, mid);
    OwnersStay(db, mid);
    LedgerStepKeeps(db, mid);
  }

  lemma {:induction false} SourceReleaseEvolves(db: Db, percent: real, run: Id, source: Option<Source>, mid: Db)
    requires LedgerInv(db)
    requires source.Some? ==> source.value.reservation in db.reservations
    requires source.Some? && source.value.open ==>
      var r := db.reservations[source.value.reservation];
      r.status.Reserved? && r.run == run
    requires mid == SourceReleased(db, percent, run, source)
    ensures LedgerInv(mid) && LedgerEvolves(db, mid)
    ensures mid.tasks == db.tasks && mid.assignments == db.assignments && mid.attempts == db.attempts
  {
    if source.Some? && source.value.open {
      hide LedgerInv, LedgerEvolves, UpdateWarning;
      ReleaseKeeps(db, percent, source.value.reservation, mid);
    } else {
      Unchanged(db);
    }
  }

  lemma {:induction false} ReleasedSourceIsReady(db: Db, percent: real, q: Request, source: Option<Source>, model: Id, mid: Db)
    requires Funded(db) && Owned(db, q) && SourceOf(db, q) == Ok(source)
    requires source.Some? ==> source.value.reservation in db.reservations && source.value.model == model
    requires mid == SourceReleased(db, percent, q.run, source)
    ensures SourceReady(mid, q, model) && Owned(mid, q)
  {
    SourceBelongs(db, q, source);
  }

  lemma {:induction false} NewAssignmentAnatomy(db: Db, percent: real, q: Request, offer: RoutingSnapshot, ids: Ids, after: Db, answer: Answer)
    returns (source: Option<Source>, c: Candidate)
    requires AssignNew(db, percent, q, offer, ids) == Ok((after, answer)) && answer.Assigned?
    ensures SourceOf(db, q) == Ok(source) && (source.Some? ==> source.value.reservation in db.reservations)
    ensures source.Some? ==> source.value.model == c.key.model
    ensures Persist(SourceReleased(db, percent, q.run, source), percent, q, c, ids) == Ok(after)
    ensures answer.id == ids.assignment && answer.row == RowOf(SourceReleased(db, percent, q.run, source), q, c, ids)
    ensures Decides(answer.row, q.attempt, q.fallbackOf)
  {
    source := SourceOf(db, q).value;
    c := Decide(db, q, source, FundsFor(db, q, source), offer.candidates).value.candidate;
  }

  lemma {:induction false} NewAssignmentKeeps(db: Db, percent: real, q: Request, offer: RoutingSnapshot, ids: Ids, after: Db, answer: Answer)
    requires AssignmentsInv(db) && Owned(db, q) && AssignNew(db, percent, q, offer, ids) == Ok((after, answer)) && answer.Assigned?
    ensures AssignmentsInv(after) && AssignmentsKept(db, after) && LedgerEvolves(db, after)
    ensures answer.id in after.assignments && after.assignments[answer.id] == answer.row
    ensures Decides(answer.row, q.attempt, q.fallbackOf)
  {
    hide *;
    var source, c := NewAssignmentAnatomy(db, percent, q, offer, ids, after, answer);
    var mid := SourceReleased(db, percent, q.run, source);
    InvParts(db);
    SourceReleaseKeeps(db, percent, q, source, mid);
    ReleasedSourceIsReady(db, percent, q, source, c.key.model, mid);
    PersistKeeps(mid, percent, q, c, ids, after);
    LedgerEvolvesTransitive(db, mid, after);
    KeptFrom(db, mid, after);
  }

  lemma {:induction false} KeptFrom(db: Db, mid: Db, after: Db)
    requires mid.tasks == db.tasks && mid.assignments == db.assignments && mid.attempts == db.attempts && AssignmentsKept(mid, after)
    ensures AssignmentsKept(db, after)
  {
  }

  /** One assignment, with or without a source, keeps every invariant. */
  lemma {:induction false} AssignKeeps(db: Db, percent: real, q: Request, offer: RoutingSnapshot, ids: Ids, after: Db, answer: Answer)
    requires AssignmentsInv(db) && AssignOnce(db, percent, q, offer, ids) == Ok((after, answer))
    ensures AssignmentsInv(after) && AssignmentsKept(db, after) && LedgerEvolves(db, after)
    ensures answer.Assigned? ==> answer.id in after.assignments && after.assignments[answer.id] == answer.row
                                 && Decides(answer.row, q.attempt, q.fallbackOf)
    ensures answer.NotAssigned? ==> after == db
  {
    hide *;
    AssignAnatomy(db, percent, q, offer, ids, after, answer);
    Unchanged(db);
    if after != db || (answer.Assigned? && answer.id !in db.assignments) {
      NewAssignmentKeeps(db, percent, WithBaseline(db, q), offer, ids, after, answer);
    }
  }

  // ----- What holds whatever the sources are -----

  lemma {:induction false} BooksParts(db: Db)
    ensures BooksInv(db) <==> LedgerInv(db) && Funded(db) && DecidedOnce(db.assignments)
    ensures AssignmentsInv(db) ==> BooksInv(db)
  {
  }

  lemma {:induction false} PersistKeepsBooks(db: Db, percent: real, q: Request, c: Candidate, ids: Ids, after: Db)
    requires BooksInv(db) && Owned(db, q) && Persist(db, percent, q, c, ids) == Ok(after)
    ensures BooksInv(after) && AssignmentsKept(db, after) && LedgerEvolves(db, after)
    ensures ids.assignment in after.assignments && after.assignments[ids.assignment] == RowOf(db, q, c, ids)
  {
    hide *;
    BooksParts(db);
    BooksParts(after);
    var booked, warned := PersistAnatomy(db, percent, q, c, ids, after);
    var row := RowOf(booked, q, c, ids);
    ReserveKeeps(db, percent, Booking(q, c, ids), q.taskLimit, 0.0, booked, warned);
    OwnersStay(db, booked);
    FundedStays(db, booked);
    BookedRow(db, percent, q, c, ids, booked, warned);
    FundedGrows(booked, ids.assignment, row, after);
    RowDecides(booked, q, c, ids);
    DecidedOnceGrows(db.assignments, ids.assignment, row);
    BooksUntouched(booked, after);
    RowAdded(booked, ids.assignment, row, after);
    RowLeavesBooks(db, booked, after);
  }

  lemma {:induction false} OwnersStay(db: Db, after: Db)
    requires after.tasks == db.tasks && after.attempts == db.attempts
    ensures SameOwners(db, after)
  {
  }

  lemma {:induction false} RowDecides(db: Db, q: Request, c: Candidate, ids: Ids)
    ensures RowOf(db, q, c, ids).attempt == q.attempt && RowOf(db, q, c, ids).fallbackOf == q.fallbackOf
  {
  }

  lemma {:induction false} SourceReleaseKeepsBooks(db: Db, percent: real, q: Request, source: Option<Source>, mid: Db)
    requires BooksInv(db) && Owned(db, q) && SourceOf(db, q) == Ok(source)
    requires source.Some? ==> source.value.reservation in db.reservations
    requires mid == SourceReleased(db, percent, q.run, source)
    ensures BooksInv(mid) && LedgerEvolves(db, mid)
    ensures mid.tasks == db.tasks && mid.assignments == db.assignments && mid.attempts == db.attempts
  {
    hide *;
    BooksParts(db);
    BooksParts(mid);
    SourceBelongs(db, q, source);
    SourceReleaseEvolves(db, percent, q.run, source, mid);
    OwnersStay(db, mid);
    FundedStays(db, mid);
  }

  lemma {:induction false} OwnedStays(db: Db, percent: real, q: Request, source: Option<Source>, mid: Db)
    requires Owned(db, q) && (source.Some? ==> source.value.reservation in db.reservations)
    requires mid == SourceReleased(db, percent, q.run, source)
    ensures Owned(mid, q)
  {
  }

  /** One assignment, whatever the chains are. */
  lemma {:induction false} AssignKeepsBooks(db: Db, percent: real, q: Request, offer: RoutingSnapshot, ids: Ids, after: Db, answer: Answer)
    requires BooksInv(db) && AssignOnce(db, percent, q, offer, ids) == Ok((after, answer))
    ensures BooksInv(after) && AssignmentsKept(db, after) && LedgerEvolves(db, after)
    ensures answer.Assigned? ==> answer.id in after.assignments && after.assignments[answer.id] == answer.row
                                 && Decides(answer.row, q.attempt, q.fallbackOf)
  {
    hide *;
    AssignAnatomy(db, percent, q, offer, ids, after, answer);
    Unchanged(db);
    if after != db || (answer.Assigned? && answer.id !in db.assignments) {
      var r := WithBaseline(db, q);
      var source, c := NewAssignmentAnatomy(db, percent, r, offer, ids, after, answer);
      var mid := SourceReleased(db, percent, r.run, source);
      SourceReleaseKeepsBooks(db, percent, r, source, mid);
      OwnedStays(db, percent, r, source, mid);
      PersistKeepsBooks(mid, percent, r, c, ids, after);
      LedgerEvolvesTransitive(db, mid, after);
      KeptFrom(db, mid, after);
      SameDecision(answer.row, q, r);
    }
  }

  lemma {:induction false} SameDecision(row: Assignment, q: Request, r: Request)
    requires Decides(row, r.attempt, r.fallbackOf) && r.attempt == q.attempt && r.fallbackOf == q.fallbackOf
    ensures Decides(row, q.attempt, q.fallbackOf)
  {
  }

  /** The newest assignment of a task's first attempts. */
  ghost predicate IsBaseline(db: Db, p: Id, task: Id) {
    && OfFirstAttempt(db, p, task)
    && forall other :: OfFirstAttempt(db, other, task) ==> db.assignments[other].rowid <= db.assignments[p].rowid
  }

  /** A new assignment of a second attempt has a rated fit above that of the newest assignment of the
      task's first attempts. */
  lemma {:induction false} EscalationIsStronger(db: Db, percent: real, q: Request, offer: RoutingSnapshot, ids: Ids, after: Db, answer: Answer)
    requires q.number == 2
    ensures AssignOnce(db, percent, q, offer, ids) == Ok((after, answer)) && answer.Assigned? && answer.id !in db.assignments ==>
      answer.row.fit.Some? && exists p :: IsBaseline(db, p, q.task) && db.assignments[p].fit.Some? && answer.row.fit.value > db.assignments[p].fit.value
  {
    hide Persist, SelectSpec, SnapshotOf, TaskCommitted;
    if AssignOnce(db, percent, q, offer, ids) == Ok((after, answer)) && answer.Assigned? && answer.id !in db.assignments {
      var firsts := set a | a in db.assignments && OfFirstAttempt(db, a, q.task);
      var prior := Latest(db.assignments, firsts);
      assert WithBaseline(db, q).requirements.failedFit == if prior.None? then None else db.assignments[prior.value].fit;
      assert prior.Some? && OfFirstAttempt(db, prior.value, q.task);
      forall other | OfFirstAttempt(db, other, q.task) ensures db.assignments[other].rowid <= db.assignments[prior.value].rowid {
        assert other in firsts;
      }
      assert IsBaseline(db, prior.value, q.task);
    }
  }

  /** Either the assignment stood already, or no model was chosen, or a new one is made. */
  lemma {:induction false} AssignAnatomy(db: Db, percent: real, q: Request, offer: RoutingSnapshot, ids: Ids, after: Db, answer: Answer)
    requires AssignOnce(db, percent, q, offer, ids) == Ok((after, answer))
    ensures answer.NotAssigned? ==> after == db
    ensures answer.Assigned? && after == db && answer.id in db.assignments ==>
              answer.row == db.assignments[answer.id] && Decides(answer.row, q.attempt, q.fallbackOf)
    ensures answer.Assigned? && (after != db || answer.id !in db.assignments) ==>
              var r := WithBaseline(db, q);
              && r.attempt == q.attempt && r.fallbackOf == q.fallbackOf && Owned(db, r)
              && AssignNew(db, percent, r, offer, ids) == Ok((after, answer))
  {
    var existing := ExistingFor(db.assignments, q.attempt, q.fallbackOf);
    if existing.None? && answer.Assigned? {
      var source, c := NewAssignmentAnatomy(db, percent, WithBaseline(db, q), offer, ids, after, answer);
      NewAssignmentIsNew(db, percent, WithBaseline(db, q), source, c, ids, after);
    }
  }

  lemma {:induction false} NewAssignmentIsNew(db: Db, percent: real, q: Request, source: Option<Source>, c: Candidate, ids: Ids, after: Db)
    requires source.Some? ==> source.value.reservation in db.reservations
    requires Persist(SourceReleased(db, percent, q.run, source), percent, q, c, ids) == Ok(after)
    ensures ids.assignment !in db.assignments
  {
    var _, _ := PersistAnatomy(SourceReleased(db, percent, q.run, source), percent, q, c, ids, after);
  }

  lemma {:induction false} Unchanged(db: Db)
    ensures AssignmentsKept(db, db) && LedgerEvolves(db, db)
  {
  }

  // ----- Linear chains -----

  /** How many fallbacks lie between an assignment and the first one of its attempt. */
  ghost function Depth(table: map<Id, Assignment>, a: Id): nat
    requires Chained(table) && a in table
    decreases table[a].rowid
  {
    assert ChainedRow(table, table[a]);
    if table[a].fallbackOf.None? then 0 else 1 + Depth(table, table[a].fallbackOf.value)
  }

  /** The assignment at a smaller depth that this one goes back to. */
  lemma {:induction false} Ancestor(table: map<Id, Assignment>, a: Id, depth: nat) returns (c: Id)
    requires Chained(table) && a in table && depth <= Depth(table, a)
    ensures c in table && Depth(table, c) == depth && table[c].attempt == table[a].attempt
    ensures c == a || table[c].rowid < table[a].rowid
    decreases table[a].rowid
  {
    if depth == Depth(table, a) {
      c := a;
    } else {
      assert ChainedRow(table, table[a]);
      c := Ancestor(table, table[a].fallbackOf.value, depth);
    }
  }

  /** The assignments of one attempt form a single line: one at each depth. */
  lemma {:induction false} LinearChain(table: map<Id, Assignment>, a: Id, b: Id)
    requires Chained(table) && DecidedOnce(table) && a in table && b in table
    requires table[a].attempt == table[b].attempt && Depth(table, a) == Depth(table, b)
    ensures a == b
    decreases table[a].rowid
  {
    assert ChainedRow(table, table[a]) && ChainedRow(table, table[b]);
    if table[a].fallbackOf.Some? {
      LinearChain(table, table[a].fallbackOf.value, table[b].fallbackOf.value);
    }
    assert Decides(table[a], table[b].attempt, table[b].fallbackOf);
  }

  /** Only the newest assignment of an attempt can still hold money. */
  lemma {:induction false} OnlyTheNewestIsOpen(db: Db, a: Id, b: Id)
    requires AssignmentsInv(db) && a in db.assignments && b in db.assignments && a != b
    requires db.assignments[a].attempt == db.assignments[b].attempt && IsOpen(db, db.assignments[a].reservation)
    ensures db.assignments[b].rowid < db.assignments[a].rowid
    ensures !IsOpen(db, db.assignments[b].reservation)
  {
    hide LedgerInv;
    SuccessorsComeLater(db, a, b);
    if IsOpen(db, db.assignments[b].reservation) {
      SuccessorsComeLater(db, b, a);
    }
  }

  lemma {:induction false} SuccessorsComeLater(db: Db, a: Id, b: Id)
    requires Chained(db.assignments) && DecidedOnce(db.assignments) && SourcesClosed(db)
    requires a in db.assignments && b in db.assignments && a != b
    requires db.assignments[a].attempt == db.assignments[b].attempt && IsOpen(db, db.assignments[a].reservation)
    ensures db.assignments[b].rowid < db.assignments[a].rowid
  {
    var table := db.assignments;
    if Depth(table, b) > Depth(table, a) {
      var c := Ancestor(table, b, Depth(table, a) + 1);
      assert ChainedRow(table, table[c]);
      LinearChain(table, table[c].fallbackOf.value, a);
      assert false;
    } else {
      var c := Ancestor(table, a, Depth(table, b));
      LinearChain(table, c, b);
    }
  }
}
