/** The budget ledger (routing/budget.py): reservations, their release and settlement, and the
    bound they keep. */
module Ledgers {
  import opened Prelude
  import opened Journals

  datatype ReservationRequest = ReservationRequest(
    id: Id, run: Id, task: Option<Id>, amount: Money, key: ReservationKey, purpose: Purpose)

  datatype LedgerError =
    | UnknownRun | UnknownReservation | RunBudgetBlocked | TaskBudgetBlocked
    | IdempotencyConflict | ReservationState | UnresolvedCost | IntegrityError

  // ----- Transactions -----

  predicate Reaches(committed: real, limit: real, percent: real) {
    limit > 0.0 && committed >= limit * percent
  }

  function WarningDue(db: Db, percent: real, run: Id): bool {
    var s := SnapshotOf(db, run);
    s.limit.Some? && Reaches(s.limit.value - s.available.value, s.limit.value, percent)
  }

  function UpdateWarning(db: Db, percent: real, run: Id): Db {
    db.(warnings := db.warnings[run := WarningDue(db, percent, run)])
  }

  lemma {:induction false} WarningOnly(db: Db, percent: real, run: Id)
    ensures UpdateWarning(db, percent, run) == db.(warnings := UpdateWarning(db, percent, run).warnings)
  {
  }

  function WarningCrossed(db: Db, percent: real, run: Id): bool {
    WarningDue(db, percent, run) && !(run in db.warnings && db.warnings[run])
  }

  predicate KeyTaken(db: Db, key: ReservationKey) {
    exists r :: r in db.reservations && db.reservations[r].key == key
  }

  predicate Replays(db: Db, q: ReservationRequest) {
    && q.id in db.reservations
    && var r := db.reservations[q.id];
       r.run == q.run && r.task == q.task && r.amount == q.amount && r.key == q.key && r.purpose == q.purpose
  }

  predicate RunCannotFund(db: Db, q: ReservationRequest, lead: real) {
    var available := SnapshotOf(db, q.run).available;
    available.Some? && q.amount + lead > available.value
  }

  predicate TaskCannotFund(db: Db, q: ReservationRequest, taskLimit: Option<real>) {
    taskLimit.Some? && q.task.Some? && TaskCommitted(db, q.run, q.task.value) + q.amount > taskLimit.value
  }

  function Inserted(db: Db, q: ReservationRequest): Db {
    db.(reservations := db.reservations[q.id := Reservation(q.run, q.task, q.amount, Reserved, q.key, q.purpose)])
  }

  /** The state after the transaction, and whether the warning threshold was crossed. */
  function Reserve(db: Db, percent: real, q: ReservationRequest, taskLimit: Option<real>, lead: real)
    : Result<(Db, bool), LedgerError>
  {
    if KeyTaken(db, q.key) then
      if Replays(db, q) then Ok((db, false)) else Err(IdempotencyConflict)
    else if q.run !in db.runs then Err(UnknownRun)
    else if RunCannotFund(db, q, lead) then Err(RunBudgetBlocked)
    else if TaskCannotFund(db, q, taskLimit) then Err(TaskBudgetBlocked)
    else if q.id in db.reservations || (q.task.Some? && q.task.value !in db.tasks) then Err(IdempotencyConflict)
    else Ok((UpdateWarning(Inserted(db, q), percent, q.run), WarningCrossed(Inserted(db, q), percent, q.run)))
  }

  function Freed(db: Db, r: Id): Db
    requires r in db.reservations
  {
    db.(reservations := db.reservations[r := db.reservations[r].(status := Released)])
  }

  function Release(db: Db, percent: real, r: Id): Result<Db, LedgerError> {
    if r !in db.reservations then Err(UnknownReservation)
    else match db.reservations[r].status
      case Released => Ok(db)
      case Settled => Err(ReservationState)
      case Reserved => Ok(UpdateWarning(Freed(db, r), percent, db.reservations[r].run))
  }

  /** An estimate may be replaced, under the same ids, by an authoritative amount or by a
      conservative estimate that is not lower. */
  predicate MayReplace(old_: UsageRecord, next: UsageRecord) {
    && !old_.Authoritative() && old_.usageId == next.usageId && old_.key == next.key
    && (next.Authoritative() || (next.authority == ConservativeEstimate && next.amount >= old_.amount))
  }

  predicate UsageIdsTaken(usage: map<Id, UsageRecord>, next: UsageRecord) {
    exists r :: r in usage && (usage[r].usageId == next.usageId || usage[r].key == next.key)
  }

  /** The two tables of the ledger after a settlement; unchanged by an exact replay. */
  function SettleBooks(b: Books, r: Id, usageId: Id, cost: Money, authority: Authority, key: Id): Result<Books, LedgerError>
    requires r in b.reservations
  {
    var row := b.reservations[r];
    var next := UsageRecord(usageId, row.run, row.task, cost, authority, key);
    if r in b.usage then
      var old_ := b.usage[r];
      if old_.usageId == usageId && old_.amount == cost && old_.authority == authority && old_.key == key then Ok(b)
      else if MayReplace(old_, next) then Ok(b.(usage := b.usage[r := old_.(amount := cost, authority := authority)]))
      else Err(IdempotencyConflict)
    else if !row.status.Reserved? then Err(ReservationState)
    else if UsageIdsTaken(b.usage, next) then Err(IntegrityError)
    else Ok(Books(b.reservations[r := row.(status := Settled)], b.usage[r := next]))
  }

  /** Every settlement that changes the books also updates the warning state. */
  function Settle(db: Db, percent: real, r: Id, usageId: Id, cost: Option<Money>, authority: Authority, key: Id)
    : Result<Db, LedgerError>
  {
    if r !in db.reservations then Err(UnknownReservation)
    else if cost.None? then Err(UnresolvedCost)
    else match SettleBooks(BooksOf(db), r, usageId, cost.value, authority, key)
      case Err(e) => Err(e)
      case Ok(books) =>
        Ok(if books == BooksOf(db) then db else UpdateWarning(WithBooks(db, books), percent, db.reservations[r].run))
  }

  // ----- What every step keeps -----

  /** The two tables of the ledger. */
  datatype Books = Books(reservations: map<Id, Reservation>, usage: map<Id, UsageRecord>) {
    /** Foreign keys hold. */
    ghost predicate Linked(runs: map<Id, RunRow>, tasks: map<Id, TaskRow>) {
      forall r {:trigger reservations[r]} :: r in reservations ==>
        && reservations[r].run in runs
        && (reservations[r].task.Some? ==> reservations[r].task.value in tasks)
    }

    /** A usage record stands for exactly one settled reservation. */
    ghost predicate Matched() {
      && (forall r {:trigger reservations[r]} :: r in reservations ==>
            (reservations[r].status.Settled? <==> r in usage))
      && (forall r {:trigger usage[r]} :: r in usage ==>
            r in reservations && usage[r].run == reservations[r].run && usage[r].task == reservations[r].task)
    }

    /** Rows are never lost, a reservation is closed once, and a usage record keeps its ids, never
        falls while it is an estimate, and is frozen once authoritative. */
    ghost predicate EvolvesTo(after: Books) {
      && (forall r {:trigger after.reservations[r]} {:trigger reservations[r]} :: r in reservations ==>
            r in after.reservations && ReservationEvolves(reservations[r], after.reservations[r]))
      && (forall r {:trigger after.usage[r]} {:trigger usage[r]} :: r in usage ==>
            r in after.usage && UsageEvolves(usage[r], after.usage[r]))
    }
  }

  ghost predicate ReservationEvolves(before: Reservation, after: Reservation) {
    after == before.(status := after.status) && (before.status.Reserved? || after.status == before.status)
  }

  ghost predicate UsageEvolves(before: UsageRecord, after: UsageRecord) {
    && after == before.(amount := after.amount, authority := after.authority)
    && (before.Authoritative() ==> after == before)
    && (!after.Authoritative() ==> after.amount >= before.amount)
    && (after.authority == before.authority || after.authority == ConservativeEstimate || after.Authoritative())
  }

  function BooksOf(db: Db): Books {
    Books(db.reservations, db.usage)
  }

  function WithBooks(db: Db, b: Books): Db {
    db.(reservations := b.reservations, usage := b.usage)
  }

  ghost predicate LedgerInv(db: Db) {
    BooksOf(db).Linked(db.runs, db.tasks) && BooksOf(db).Matched()
  }

  ghost predicate LedgerEvolves(before: Db, after: Db) {
    && (forall run {:trigger after.runs[run]} {:trigger before.runs[run]} :: run in before.runs ==>
          run in after.runs && after.runs[run] == before.runs[run])
    && BooksOf(before).EvolvesTo(BooksOf(after))
  }

  lemma {:induction false} EvolvesTransitive(a: Books, b: Books, c: Books)
    requires a.EvolvesTo(b) && b.EvolvesTo(c)
    ensures a.EvolvesTo(c)
  {
    forall r | r in a.reservations
      ensures r in c.reservations && ReservationEvolves(a.reservations[r], c.reservations[r])
    {
      assert r in b.reservations && ReservationEvolves(a.reservations[r], b.reservations[r]);
    }
    forall r | r in a.usage ensures r in c.usage && UsageEvolves(a.usage[r], c.usage[r]) {
      assert r in b.usage && UsageEvolves(a.usage[r], b.usage[r]);
    }
  }

  lemma {:induction false} LedgerEvolvesTransitive(a: Db, b: Db, c: Db)
    requires LedgerEvolves(a, b) && LedgerEvolves(b, c)
    ensures LedgerEvolves(a, c)
  {
    EvolvesTransitive(BooksOf(a), BooksOf(b), BooksOf(c));
  }

  /** A new reservation under a new id. */
  lemma {:induction false} InsertKeeps(b: Books, r: Id, row: Reservation, runs: map<Id, RunRow>, tasks: map<Id, TaskRow>)
    requires b.Linked(runs, tasks) && b.Matched()
    requires r !in b.reservations && row.status.Reserved?
    requires row.run in runs && (row.task.Some? ==> row.task.value in tasks)
    ensures var a := b.(reservations := b.reservations[r := row]);
      a.Linked(runs, tasks) && a.Matched() && b.EvolvesTo(a)
  {
  }

  /** Closing an open reservation without usage. */
  lemma {:induction false} FreeKeeps(b: Books, r: Id, runs: map<Id, RunRow>, tasks: map<Id, TaskRow>)
    requires b.Linked(runs, tasks) && b.Matched()
    requires r in b.reservations && b.reservations[r].status.Reserved?
    ensures var a := b.(reservations := b.reservations[r := b.reservations[r].(status := Released)]);
      a.Linked(runs, tasks) && a.Matched() && b.EvolvesTo(a)
  {
  }

  /** Closing an open reservation with usage. */
  lemma {:induction false} ChargeKeeps(b: Books, r: Id, next: UsageRecord, runs: map<Id, RunRow>, tasks: map<Id, TaskRow>)
    requires b.Linked(runs, tasks) && b.Matched()
    requires r in b.reservations && b.reservations[r].status.Reserved?
    requires next.run == b.reservations[r].run && next.task == b.reservations[r].task
    ensures var a := Books(b.reservations[r := b.reservations[r].(status := Settled)], b.usage[r := next]);
      a.Linked(runs, tasks) && a.Matched() && b.EvolvesTo(a)
  {
  }

  /** Replacing the amount of a usage record as `MayReplace` allows. */
  lemma {:induction false} ReplaceKeeps(b: Books, r: Id, next: UsageRecord, runs: map<Id, RunRow>, tasks: map<Id, TaskRow>)
    requires b.Linked(runs, tasks) && b.Matched()
    requires r in b.usage && MayReplace(b.usage[r], next)
    requires next.run == b.usage[r].run && next.task == b.usage[r].task
    ensures var a := b.(usage := b.usage[r := next]);
      a.Linked(runs, tasks) && a.Matched() && b.EvolvesTo(a)
  {
  }

  /** An accepted reservation under a new key is a new row and a fresh warning. */
  lemma {:induction false} BookedAnatomy(db: Db, percent: real, q: ReservationRequest, taskLimit: Option<real>, lead: real, after: Db, warned: bool)
    requires Reserve(db, percent, q, taskLimit, lead) == Ok((after, warned)) && !KeyTaken(db, q.key)
    ensures q.id !in db.reservations && after == UpdateWarning(Inserted(db, q), percent, q.run)
  {
  }

  /** New books followed by a new warning state. */
  lemma {:induction false} BooksKeep(db: Db, books: Books, percent: real, run: Id, after: Db)
    requires books.Linked(db.runs, db.tasks) && books.Matched() && BooksOf(db).EvolvesTo(books)
    requires after == UpdateWarning(WithBooks(db, books), percent, run)
    ensures LedgerInv(after) && LedgerEvolves(db, after)
  {
    hide UpdateWarning, Books.Linked, Books.Matched, Books.EvolvesTo;
    WarningOnly(WithBooks(db, books), percent, run);
    assert BooksOf(after) == books;
  }

  lemma {:induction false} ReserveKeeps(db: Db, percent: real, q: ReservationRequest, taskLimit: Option<real>, lead: real, after: Db, warned: bool)
    requires LedgerInv(db) && Reserve(db, percent, q, taskLimit, lead) == Ok((after, warned))
    ensures LedgerInv(after) && LedgerEvolves(db, after)
  {
    hide Books.Matched, Books.EvolvesTo, UpdateWarning;
    if KeyTaken(db, q.key) {
      SameBooks(db);
    } else {
      BookedAnatomy(db, percent, q, taskLimit, lead, after, warned);
      InsertKeeps(BooksOf(db), q.id, Reservation(q.run, q.task, q.amount, Reserved, q.key, q.purpose), db.runs, db.tasks);
      BooksKeep(db, BooksOf(Inserted(db, q)), percent, q.run, after);
    }
  }

  lemma {:induction false} SameBooks(db: Db)
    ensures LedgerEvolves(db, db)
  {
  }

  lemma {:induction false} ReleaseKeeps(db: Db, percent: real, r: Id, after: Db)
    requires LedgerInv(db) && Release(db, percent, r) == Ok(after)
    ensures LedgerInv(after) && LedgerEvolves(db, after)
  {
    hide Books.Linked, Books.Matched, Books.EvolvesTo, UpdateWarning;
    if db.reservations[r].status.Reserved? {
      FreeKeeps(BooksOf(db), r, db.runs, db.tasks);
      BooksKeep(db, BooksOf(Freed(db, r)), percent, db.reservations[r].run, after);
    } else {
      SameBooks(db);
    }
  }

  lemma {:induction false} SettleBooksKeeps(b: Books, r: Id, usageId: Id, cost: Money, authority: Authority, key: Id,
                         runs: map<Id, RunRow>, tasks: map<Id, TaskRow>)
    requires b.Linked(runs, tasks) && b.Matched() && r in b.reservations
    requires SettleBooks(b, r, usageId, cost, authority, key).Ok?
    ensures var a := SettleBooks(b, r, usageId, cost, authority, key).value;
      a.Linked(runs, tasks) && a.Matched() && b.EvolvesTo(a)
  {
    var row := b.reservations[r];
    var next := UsageRecord(usageId, row.run, row.task, cost, authority, key);
    if r !in b.usage {
      ChargeKeeps(b, r, next, runs, tasks);
    } else if MayReplace(b.usage[r], next) {
      ReplaceKeeps(b, r, next, runs, tasks);
    }
  }

  lemma {:induction false} SettleKeeps(db: Db, percent: real, r: Id, usageId: Id, cost: Option<Money>, authority: Authority, key: Id, after: Db)
    requires LedgerInv(db)
    ensures Settle(db, percent, r, usageId, cost, authority, key) == Ok(after) ==> LedgerInv(after) && LedgerEvolves(db, after)
  {
    hide Books.Linked, Books.Matched, Books.EvolvesTo, UpdateWarning, SettleBooks;
    if Settle(db, percent, r, usageId, cost, authority, key) == Ok(after) {
      var books := SettleBooks(BooksOf(db), r, usageId, cost.value, authority, key).value;
      SettleBooksKeeps(BooksOf(db), r, usageId, cost.value, authority, key, db.runs, db.tasks);
      if books == BooksOf(db) {
        SameBooks(db);
      } else {
        BooksKeep(db, books, percent, db.reservations[r].run, after);
      }
    }
  }

  // ----- Money is counted once -----

  /** What one reservation costs its run: its amount while it is open, its usage record once it is
      settled, and nothing once it is released. */
  function Charge(b: Books, run: Id, r: Id): real
    requires r in b.reservations
  {
    if b.reservations[r].run != run then 0.0
    else match b.reservations[r].status
      case Reserved => b.reservations[r].amount
      case Released => 0.0
      case Settled => if r in b.usage then b.usage[r].amount else 0.0
  }

  function Charges(b: Books, run: Id): map<Id, real> {
    map r | r in b.reservations :: Charge(b, run, r)
  }

  function HeldAmounts(reservations: map<Id, Reservation>, run: Id): map<Id, real> {
    map r | r in reservations :: Held(reservations[r], run)
  }

  function UsedAmounts(usage: map<Id, UsageRecord>, run: Id): map<Id, real> {
    map r | r in usage :: Used(usage[r], run)
  }

  lemma {:induction false} HeldTotal(reservations: map<Id, Reservation>, run: Id)
    ensures Sum(reservations, HeldIn(run)) == Total(HeldAmounts(reservations, run))
    decreases |reservations|
  {
    var amounts := HeldAmounts(reservations, run);
    assert amounts.Keys == reservations.Keys;
    if |reservations.Keys| != 0 {
      var k := Least(reservations.Keys);
      HeldTotal(reservations - {k}, run);
      assert amounts - {k} == HeldAmounts(reservations - {k}, run);
    }
  }

  lemma {:induction false} UsedTotal(usage: map<Id, UsageRecord>, run: Id)
    ensures Sum(usage, UsedIn(run)) == Total(UsedAmounts(usage, run))
    decreases |usage|
  {
    var amounts := UsedAmounts(usage, run);
    assert amounts.Keys == usage.Keys;
    if |usage.Keys| != 0 {
      var k := Least(usage.Keys);
      UsedTotal(usage - {k}, run);
      assert amounts - {k} == UsedAmounts(usage - {k}, run);
    }
  }

  lemma {:induction false} ChargesAre(b: Books, run: Id)
    requires b.Matched()
    ensures Plus(HeldAmounts(b.reservations, run), UsedAmounts(b.usage, run)) == Charges(b, run)
    ensures UsedAmounts(b.usage, run).Keys <= HeldAmounts(b.reservations, run).Keys
  {
    forall r | r in b.usage ensures r in b.reservations {
      assert b.usage[r].run == b.reservations[r].run;
    }
    forall r | r in b.reservations
      ensures Plus(HeldAmounts(b.reservations, run), UsedAmounts(b.usage, run))[r] == Charge(b, run, r)
    {
      if r in b.usage {
        assert b.usage[r].run == b.reservations[r].run;
      }
    }
  }

  /** What a run has committed is what its reservations cost, each counted once. */
  lemma {:induction false} CountedOnce(db: Db, run: Id)
    requires BooksOf(db).Matched()
    ensures Committed(db, run) == Total(Charges(BooksOf(db), run))
  {
    ChargesAre(BooksOf(db), run);
    TotalPlus(HeldAmounts(db.reservations, run), UsedAmounts(db.usage, run));
    HeldTotal(db.reservations, run);
    UsedTotal(db.usage, run);
  }

  // ----- What each step does to the money committed -----

  lemma {:induction false} InsertCommits(db: Db, q: ReservationRequest, run: Id)
    requires q.id !in db.reservations
    ensures Committed(Inserted(db, q), run) == Committed(db, run) + if q.run == run then q.amount else 0.0
  {
    SumPut(db.reservations, HeldIn(run), q.id, Reservation(q.run, q.task, q.amount, Reserved, q.key, q.purpose));
  }

  lemma {:induction false} FreeUncommits(db: Db, r: Id, run: Id)
    requires r in db.reservations
    ensures Committed(Freed(db, r), run) == Committed(db, run) - Held(db.reservations[r], run)
  {
    SumPut(db.reservations, HeldIn(run), r, db.reservations[r].(status := Released));
  }

  /** What was recorded for a reservation, or else held. */
  function Prior(b: Books, r: Id): real
    requires r in b.reservations
  {
    if r in b.usage then b.usage[r].amount else b.reservations[r].amount
  }

  function BooksCommitted(b: Books, run: Id): real {
    Sum(b.usage, UsedIn(run)) + Sum(b.reservations, HeldIn(run))
  }

  lemma {:induction false} ReplaceCommits(b: Books, r: Id, next: UsageRecord, run: Id)
    requires r in b.usage && next.run == b.usage[r].run
    ensures BooksCommitted(b.(usage := b.usage[r := next]), run) ==
            BooksCommitted(b, run) + if next.run == run then next.amount - b.usage[r].amount else 0.0
  {
    SumPut(b.usage, UsedIn(run), r, next);
  }

  lemma {:induction false} ChargeCommits(b: Books, r: Id, next: UsageRecord, run: Id)
    requires r !in b.usage && r in b.reservations
    requires next.run == b.reservations[r].run && b.reservations[r].status.Reserved?
    ensures BooksCommitted(Books(b.reservations[r := b.reservations[r].(status := Settled)], b.usage[r := next]), run) ==
            BooksCommitted(b, run) + if next.run == run then next.amount - b.reservations[r].amount else 0.0
  {
    SumPut(b.usage, UsedIn(run), r, next);
    SumPut(b.reservations, HeldIn(run), r, b.reservations[r].(status := Settled));
  }

  /** A settlement commits exactly the difference between the cost and what stood there before. */
  lemma {:induction false} SettleCommits(b: Books, r: Id, usageId: Id, cost: Money, authority: Authority, key: Id, run: Id, after: Books)
    requires b.Matched() && r in b.reservations
    requires SettleBooks(b, r, usageId, cost, authority, key) == Ok(after)
    ensures BooksCommitted(after, run) ==
            BooksCommitted(b, run) + if b.reservations[r].run == run then cost - Prior(b, r) else 0.0
  {
    var row := b.reservations[r];
    var next := UsageRecord(usageId, row.run, row.task, cost, authority, key);
    if r !in b.usage {
      ChargeCommits(b, r, next, run);
    } else {
      assert b.usage[r].run == row.run;
      ReplaceCommits(b, r, b.usage[r].(amount := cost, authority := authority), run);
    }
  }

  /** An accepted reservation, together with the lead allowance, fits what the run had left. */
  lemma {:induction false} ReserveFits(db: Db, percent: real, q: ReservationRequest, taskLimit: Option<real>, lead: real, after: Db, warned: bool)
    requires Reserve(db, percent, q, taskLimit, lead) == Ok((after, warned)) && !KeyTaken(db, q.key)
    ensures Committed(after, q.run) == Committed(db, q.run) + q.amount
    ensures LimitOf(after, q.run) == LimitOf(db, q.run)
    ensures LimitOf(db, q.run).Some? ==> Committed(after, q.run) + lead <= LimitOf(db, q.run).value
  {
    InsertCommits(db, q, q.run);
    AvailableIsUncommitted(db, q.run);
  }

  // ----- Replays -----

  lemma {:induction false} AcceptedIsReplayed(db: Db, percent: real, q: ReservationRequest, taskLimit: Option<real>, lead: real, after: Db, warned: bool)
    requires Reserve(db, percent, q, taskLimit, lead) == Ok((after, warned))
    ensures Replays(after, q)
  {
  }

  lemma {:induction false} ReplaysLater(before: Books, later: Books, r: Id)
    requires r in before.reservations && before.EvolvesTo(later)
    ensures r in later.reservations
    ensures later.reservations[r].(status := before.reservations[r].status) == before.reservations[r]
  {
    assert ReservationEvolves(before.reservations[r], later.reservations[r]);
  }

  /** Once accepted, a reservation request is answered again without effect in every later state. */
  lemma {:induction false} ReserveReplays(db: Db, percent: real, q: ReservationRequest, taskLimit: Option<real>, lead: real,
                       after: Db, warned: bool, later: Db, taskLimit': Option<real>, lead': real)
    requires Reserve(db, percent, q, taskLimit, lead) == Ok((after, warned))
    requires BooksOf(after).EvolvesTo(BooksOf(later))
    ensures Reserve(later, percent, q, taskLimit', lead') == Ok((later, false))
  {
    AcceptedIsReplayed(db, percent, q, taskLimit, lead, after, warned);
    ReplaysLater(BooksOf(after), BooksOf(later), q.id);
    assert later.reservations[q.id].key == q.key;
  }

  /** Once accepted, a settlement changes nothing when it comes again: it is answered as long as its
      amount stands, and refused once a correction has replaced the amount. */
  lemma {:induction false} SettleReplays(b: Books, r: Id, usageId: Id, cost: Money, authority: Authority, key: Id, after: Books, later: Books)
    requires r in b.reservations && SettleBooks(b, r, usageId, cost, authority, key) == Ok(after) && after.EvolvesTo(later)
    ensures r in later.reservations && r in later.usage
    ensures SettleBooks(later, r, usageId, cost, authority, key) ==
            if later.usage[r].amount == cost && later.usage[r].authority == authority then Ok(later) else Err(IdempotencyConflict)
  {
    assert r in after.reservations && ReservationEvolves(after.reservations[r], later.reservations[r]);
    assert r in after.usage && UsageEvolves(after.usage[r], later.usage[r]);
  }

  // ----- The warning state -----

  predicate Warned(db: Db, run: Id) {
    run in db.warnings && db.warnings[run]
  }

  lemma {:induction false} WarningFollowsCommitted(a: Db, b: Db, percent: real, run: Id)
    requires LimitOf(a, run) == LimitOf(b, run) && Committed(a, run) == Committed(b, run)
    ensures WarningDue(a, percent, run) == WarningDue(b, percent, run)
  {
    hide Reaches;
    AvailableIsUncommitted(a, run);
    AvailableIsUncommitted(b, run);
  }

  /** A run's warning row says whether the run has reached its threshold. */
  ghost predicate WarningsCurrent(db: Db, percent: real) {
    forall run {:trigger Warned(db, run)} :: run in db.runs ==> Warned(db, run) == WarningDue(db, percent, run)
  }

  /** A step that moves one run's money and then updates its warning keeps all warnings current. */
  lemma {:induction false} UpdateKeepsWarnings(db: Db, moved: Db, percent: real, run: Id)
    requires WarningsCurrent(db, percent) && moved.runs == db.runs && moved.warnings == db.warnings
    requires forall other :: other != run ==> Committed(moved, other) == Committed(db, other)
    ensures WarningsCurrent(UpdateWarning(moved, percent, run), percent)
  {
    var after := UpdateWarning(moved, percent, run);
    forall other | other in after.runs ensures Warned(after, other) == WarningDue(after, percent, other) {
      WarningFollowsCommitted(after, moved, percent, other);
      if other != run {
        assert Committed(moved, other) == Committed(db, other);
        WarningFollowsCommitted(db, moved, percent, other);
        assert Warned(db, other) == WarningDue(db, percent, other);
      }
    }
  }

  /** A new reservation reports a warning exactly when it takes the run to its threshold. */
  lemma {:induction false} ReserveWarns(db: Db, percent: real, q: ReservationRequest, taskLimit: Option<real>, lead: real, after: Db, warned: bool)
    requires WarningsCurrent(db, percent)
    requires Reserve(db, percent, q, taskLimit, lead) == Ok((after, warned))
    ensures WarningsCurrent(after, percent)
    ensures q.run in db.runs ==> warned == (!WarningDue(db, percent, q.run) && WarningDue(after, percent, q.run))
  {
    if !KeyTaken(db, q.key) {
      forall other | other != q.run ensures Committed(Inserted(db, q), other) == Committed(db, other) {
        InsertCommits(db, q, other);
      }
      UpdateKeepsWarnings(db, Inserted(db, q), percent, q.run);
      WarningFollowsCommitted(after, Inserted(db, q), percent, q.run);
      assert Warned(db, q.run) == WarningDue(db, percent, q.run);
    }
  }

  lemma {:induction false} ReleaseWarns(db: Db, percent: real, r: Id, after: Db)
    requires WarningsCurrent(db, percent) && Release(db, percent, r) == Ok(after)
    ensures WarningsCurrent(after, percent)
  {
    if db.reservations[r].status.Reserved? {
      var run := db.reservations[r].run;
      forall other | other != run ensures Committed(Freed(db, r), other) == Committed(db, other) {
        FreeUncommits(db, r, other);
      }
      UpdateKeepsWarnings(db, Freed(db, r), percent, run);
    }
  }

  lemma {:induction false} SettleWarns(db: Db, percent: real, r: Id, usageId: Id, cost: Option<Money>, authority: Authority, key: Id, after: Db)
    requires WarningsCurrent(db, percent) && BooksOf(db).Matched()
    ensures Settle(db, percent, r, usageId, cost, authority, key) == Ok(after) ==> WarningsCurrent(after, percent)
  {
    hide SettleBooks, UpdateWarning, Books.Matched;
    if Settle(db, percent, r, usageId, cost, authority, key) == Ok(after) {
      var books := SettleBooks(BooksOf(db), r, usageId, cost.value, authority, key).value;
      if books != BooksOf(db) {
        var run := db.reservations[r].run;
        forall other | other != run ensures Committed(WithBooks(db, books), other) == Committed(db, other) {
          SettleCommits(BooksOf(db), r, usageId, cost.value, authority, key, other, books);
        }
        UpdateKeepsWarnings(db, WithBooks(db, books), percent, run);
      }
    }
  }

  // ----- The service -----

  class BudgetLedger {
    const journal: Journal
    const warningPercent: real

    constructor (journal: Journal, warningPercent: real)
      requires 0.0 < warningPercent <= 1.0
      ensures this.journal == journal && this.warningPercent == warningPercent
    {
      this.journal := journal;
      this.warningPercent := warningPercent;
    }

    method RefreshWarning(run: Id) returns (crossed: bool)
      modifies journal
      ensures journal.db == UpdateWarning(old(journal.db), warningPercent, run)
      ensures crossed == WarningCrossed(old(journal.db), warningPercent, run)
    {
      var s := SnapshotOf(journal.db, run);
      var above := s.limit.Some? && s.limit.value > 0.0
                   && s.limit.value - s.available.value >= s.limit.value * warningPercent;
      var wasAbove := if run in journal.db.warnings then journal.db.warnings[run] else false;
      journal.db := journal.db.(warnings := journal.db.warnings[run := above]);
      crossed := above && !wasAbove;
    }

    method ReserveAmount(q: ReservationRequest, taskLimit: Option<real>, lead: real) returns (r: Result<bool, LedgerError>)
      modifies journal
      ensures match Reserve(old(journal.db), warningPercent, q, taskLimit, lead)
              case Ok((after, warned)) => journal.db == after && r == Ok(warned)
              case Err(e) => journal.db == old(journal.db) && r == Err(e)
    {
      var db := journal.db;
      if KeyTaken(db, q.key) {
        return if Replays(db, q) then Ok(false) else Err(IdempotencyConflict);
      }
      if q.run !in db.runs {
        return Err(UnknownRun);
      }
      var snapshot := SnapshotOf(db, q.run);
      if snapshot.available.Some? && q.amount + lead > snapshot.available.value {
        return Err(RunBudgetBlocked);
      }
      if taskLimit.Some? && q.task.Some? {
        var committed := TaskCommitted(db, q.run, q.task.value);
        if committed + q.amount > taskLimit.value {
          return Err(TaskBudgetBlocked);
        }
      }
      if q.id in db.reservations || (q.task.Some? && q.task.value !in db.tasks) {
        return Err(IdempotencyConflict);
      }
      journal.db := Inserted(db, q);
      var warned := RefreshWarning(q.run);
      r := Ok(warned);
    }

    method ReleaseReservation(id: Id) returns (r: Result<(), LedgerError>)
      modifies journal
      ensures match Release(old(journal.db), warningPercent, id)
              case Ok(after) => journal.db == after && r == Ok(())
              case Err(e) => journal.db == old(journal.db) && r == Err(e)
    {
      if id !in journal.db.reservations {
        return Err(UnknownReservation);
      }
      var row := journal.db.reservations[id];
      if row.status.Released? {
        return Ok(());
      }
      if !row.status.Reserved? {
        return Err(ReservationState);
      }
      journal.db := Freed(journal.db, id);
      var _ := RefreshWarning(row.run);
      r := Ok(());
    }

    method SettleReservation(id: Id, usageId: Id, cost: Option<Money>, authority: Authority, key: Id) returns (r: Result<(), LedgerError>)
      modifies journal
      ensures match Settle(old(journal.db), warningPercent, id, usageId, cost, authority, key)
              case Ok(after) => journal.db == after && r == Ok(())
              case Err(e) => journal.db == old(journal.db) && r == Err(e)
    {
      hide UpdateWarning, WarningCrossed;
      var db := journal.db;
      if id !in db.reservations {
        return Err(UnknownReservation);
      }
      if cost.None? {
        return Err(UnresolvedCost);
      }
      var row := db.reservations[id];
      if id in db.usage {
        var existing := db.usage[id];
        if existing.usageId == usageId && existing.amount == cost.value && existing.authority == authority && existing.key == key {
          return Ok(());
        }
        var sameIds := existing.usageId == usageId && existing.key == key;
        if !existing.Authoritative() && sameIds
           && (authority == AuthoritativeActual || (authority == ConservativeEstimate && cost.value >= existing.amount)) {
          journal.db := db.(usage := db.usage[id := existing.(amount := cost.value, authority := authority)]);
          var _ := RefreshWarning(row.run);
          return Ok(());
        }
        return Err(IdempotencyConflict);
      }
      if !row.status.Reserved? {
        return Err(ReservationState);
      }
      var next := UsageRecord(usageId, row.run, row.task, cost.value, authority, key);
      if UsageIdsTaken(db.usage, next) {
        return Err(IntegrityError);
      }
      journal.db := db.(usage := db.usage[id := next], reservations := db.reservations[id := row.(status := Settled)]);
      var _ := RefreshWarning(row.run);
      r := Ok(());
    }
  }
}
