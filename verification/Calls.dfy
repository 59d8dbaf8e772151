/** Accounting for provider calls (routing/assignment.py, AssignmentUsageSettler). */
module Calls {
  import opened Prelude
  import opened Journals
  import opened Ledgers
  import opened Chains

  datatype CallError =
    | UnknownAssignment | UnknownCall | ReplayBlocked | OpenFailure | BudgetExhausted
    | NoFundedReservation | CallIdTaken | NotReclassified | NotARejection | UsageConflict | LateUsage
    | NotAmbiguous | NoFailureRecord | NoEstimate | ReservationMissing | SettledWithoutCall
    | SettlementFailed(ledger: LedgerError)

  // ----- Reading the tables -----

  predicate CallOf(db: Db, c: Id, a: Id) {
    c in db.calls && db.calls[c].assignment == a
  }

  predicate KeyUsed(db: Db, a: Id, key: Id) {
    exists c :: c in db.calls && db.calls[c].assignment == a && db.calls[c].executionKey == key
  }

  /** Some provider call of the run, or some settlement in it, is waiting to be reconciled. */
  predicate Uncertain(db: Db, run: Id) {
    || (exists c :: c in db.failures && db.failures[c].Open? && c in db.calls && AssignmentInRun(db, db.calls[c].assignment, run))
    || (exists a :: a in db.unsettled && db.unsettled[a] > 0 && AssignmentInRun(db, a, run))
  }

  function ObservedIn(db: Db, run: Id): Call -> real {
    (c: Call) =>
      if c.status.Completed? && c.amount.Some? && AssignmentInRun(db, c.assignment, run) then c.amount.value else 0.0
  }

  function Observed(db: Db, run: Id): real {
    Sum(db.calls, ObservedIn(db, run))
  }

  function MaxOrdinal(calls: map<Id, Call>, among: set<Id>): (n: nat)
    requires forall c :: c in among ==> c in calls
    ensures forall c :: c in among ==> calls[c].ordinal <= n
    decreases among
  {
    if among == {} then 0
    else
      var c := Least(among);
      var rest := MaxOrdinal(calls, among - {c});
      if calls[c].ordinal > rest then calls[c].ordinal else rest
  }

  function NextOrdinal(db: Db, a: Id): nat {
    MaxOrdinal(db.calls, set c | c in db.calls && db.calls[c].assignment == a) + 1
  }

  // ----- The life of a call -----

  /** Provider calls and their accounting are kept in tables of their own. */
  predicate CallsOnly(db: Db, after: Db) {
    after == db.(calls := after.calls, failures := after.failures, callUsage := after.callUsage)
  }

  /** A new provider call. `key` is the caller's execution key, or a new one. */
  function BeginCall(db: Db, a: Id, key: Id, call: Id): (r: Result<Db, CallError>)
    ensures r.Ok? ==> CallsOnly(db, r.value)
  {
    if a !in db.assignments || db.assignments[a].attempt !in db.attempts
       || db.attempts[db.assignments[a].attempt].task !in db.tasks then Err(UnknownAssignment)
    else
      var run := db.tasks[db.attempts[db.assignments[a].attempt].task].run;
      var limit := LimitOf(db, run);
      if KeyUsed(db, a, key) then Err(ReplayBlocked)
      else if Uncertain(db, run) then Err(OpenFailure)
      else if limit.Some? && Observed(db, run) >= limit.value then Err(BudgetExhausted)
      else if !IsOpen(db, db.assignments[a].reservation) then Err(NoFundedReservation)
      else if call in db.calls then Err(CallIdTaken)
      else Ok(db.(calls := db.calls[call := Call(a, key, NextOrdinal(db, a), Started, None)]))
  }

  function WithStatus(db: Db, c: Id, status: CallStatus): Db
    requires c in db.calls
  {
    db.(calls := db.calls[c := db.calls[c].(status := status)])
  }

  function MarkSucceeded(db: Db, c: Id): (r: Result<Db, CallError>)
    ensures r.Ok? ==> CallsOnly(db, r.value)
  {
    if c !in db.calls then Err(UnknownCall)
    else if db.calls[c].status.Completed? then Ok(db)
    else if !db.calls[c].status.Started? then Err(NotReclassified)
    else Ok(WithStatus(db, c, Completed))
  }

  /** `INSERT OR IGNORE` of an open failure. */
  function WithFailure(failures: map<Id, FailureStatus>, c: Id): map<Id, FailureStatus> {
    if c in failures then failures else failures[c := Open]
  }

  function MarkAmbiguous(db: Db, c: Id): (r: Result<Db, CallError>)
    ensures r.Ok? ==> CallsOnly(db, r.value)
  {
    if c !in db.calls then Err(UnknownCall)
    else if db.calls[c].status.Completed? || db.calls[c].status.Rejected? then Ok(db)
    else Ok(WithStatus(db, c, Ambiguous).(failures := WithFailure(db.failures, c)))
  }

  function MarkRejected(db: Db, c: Id, requestRejected: bool): (r: Result<Db, CallError>)
    ensures r.Ok? ==> CallsOnly(db, r.value)
  {
    if !requestRejected then Err(NotARejection)
    else if c !in db.calls then Err(UnknownCall)
    else if db.calls[c].status.Rejected? then Ok(db)
    else if !db.calls[c].status.Started? then Err(NotReclassified)
    else Ok(WithStatus(db, c, Rejected))
  }

  function StartedCalls(db: Db, a: Id): set<Id> {
    set c | c in db.calls && db.calls[c].assignment == a && db.calls[c].status.Started?
  }

  function AmbiguousEach(db: Db, cs: set<Id>): Db {
    db.(calls := map c | c in db.calls :: if c in cs then db.calls[c].(status := Ambiguous) else db.calls[c],
        failures := map c | c in db.failures.Keys + cs :: if c in db.failures then db.failures[c] else Open)
  }

  /** Every call of the assignment without a recorded response becomes ambiguous. */
  function MarkUnreturned(db: Db, a: Id): (after: Db)
    ensures CallsOnly(db, after)
  {
    AmbiguousEach(db, StartedCalls(db, a))
  }

  // ----- Usage of a call -----

  datatype Tokens = Tokens(input: nat, output: nat, cached: nat)

  function TokenCost(t: Tokens, p: Pricing): Option<Money> {
    if t.input == 0 && t.output == 0 then None
    else if p.input.None? || p.output.None? then None
    else
      var ordinary: nat := if t.input > t.cached then t.input - t.cached else 0;
      var cachedRate := if p.cached.None? then p.input.value else p.cached.value;
      PerMillion(ordinary, p.input.value, t.cached, cachedRate, t.output, p.output.value)
  }

  function PerMillion(ordinary: nat, input: Money, cached: nat, cachedRate: Money, output: nat, outputRate: Money): Option<Money> {
    var total := ordinary as real * input + cached as real * cachedRate + output as real * outputRate;
    assert 0.0 <= ordinary as real * input && 0.0 <= cached as real * cachedRate && 0.0 <= output as real * outputRate;
    Some(total / 1000000.0)
  }

  /** A cost is known exactly when there are tokens and both main prices; and cached input at a lower
      rate never makes a call dearer. */
  lemma {:induction false} TokenCostMeaning(t: Tokens, p: Pricing)
    ensures TokenCost(t, p).Some? <==> (t.input > 0 || t.output > 0) && p.input.Some? && p.output.Some?
    ensures TokenCost(t, p).Some? && t.cached <= t.input && (p.cached.Some? ==> p.cached.value <= p.input.value) ==>
              TokenCost(t, p).value <= TokenCost(t.(cached := 0), p).value
  {
    if TokenCost(t, p).Some? && t.cached <= t.input {
      var rate := if p.cached.None? then p.input.value else p.cached.value;
      CachingSaves(t.input - t.cached, t.cached, p.input.value, rate, t.output as real * p.output.value);
    }
  }

  lemma {:induction false} CachingSaves(ordinary: nat, cached: nat, input: real, rate: real, output: real)
    ensures rate <= input ==>
      ordinary as real * input + cached as real * rate + output <= (ordinary + cached) as real * input + 0 as real * rate + output
  {
    var saved := cached as real * (input - rate);
    assert (ordinary + cached) as real == ordinary as real + cached as real;
    assert (ordinary as real + cached as real) * input == ordinary as real * input + cached as real * input;
    assert saved == cached as real * input - cached as real * rate;
    if rate <= input {
      assert 0.0 <= saved;
    }
  }

  /** The stored row for a normalized response, or for one that could not be normalized. */
  function UsageRow(tokens: Option<Tokens>, p: Pricing): CallUsage {
    match tokens
    case None => CallUsage(0, 0, 0, 0.0, false)
    case Some(t) =>
      var cost := TokenCost(t, p);
      CallUsage(t.input, t.output, t.cached, if cost.None? then 0.0 else cost.value, cost.Some?)
  }

  function UsageOf(db: Db, a: Id): map<Id, CallUsage> {
    if a in db.callUsage then db.callUsage[a] else map[]
  }

  function RecordCall(db: Db, a: Id, c: Id, tokens: Option<Tokens>): (r: Result<Db, CallError>)
    ensures r.Ok? ==> CallsOnly(db, r.value)
  {
    if a !in db.assignments then Err(UnknownAssignment)
    else
      var row := UsageRow(tokens, db.assignments[a].pricing);
      var rows := UsageOf(db, a);
      if c in rows then
        if rows[c] == row then Ok(db) else Err(UsageConflict)
      else
        var stored := db.(callUsage := db.callUsage[a := rows[c := row]]);
        if c !in db.calls then Ok(stored)
        else if db.calls[c].status.Ambiguous? || db.calls[c].status.Rejected? then Err(LateUsage)
        else Ok(stored.(calls := db.calls[c := db.calls[c].(status := Completed, amount := if row.costKnown then Some(row.amount) else None)]))
  }

  // ----- Settling an attempt -----

  function RowTokens(u: CallUsage): Tokens {
    Tokens(u.input, u.output, u.cached)
  }

  function Resolved(u: CallUsage, p: Pricing): Option<Money> {
    if u.costKnown then Some(u.amount) else TokenCost(RowTokens(u), p)
  }

  function KnownPart(p: Pricing): CallUsage -> real {
    (u: CallUsage) => if Resolved(u, p).Some? then Resolved(u, p).value else 0.0
  }

  function KnownCost(db: Db, a: Id): real
    requires a in db.assignments
  {
    Sum(UsageOf(db, a), KnownPart(db.assignments[a].pricing))
  }

  predicate Unaccounted(db: Db, a: Id) {
    exists c :: c in db.calls && CallOf(db, c, a) && !db.calls[c].status.Rejected? && c !in UsageOf(db, a)
  }

  predicate AllMeasured(db: Db, a: Id)
    requires a in db.assignments
  {
    && UsageOf(db, a).Keys != {} && !Unaccounted(db, a)
    && forall c :: c in UsageOf(db, a) ==> Resolved(UsageOf(db, a)[c], db.assignments[a].pricing).Some?
  }

  lemma {:induction false} KnownIsMoney(rows: map<Id, CallUsage>, p: Pricing)
    ensures 0.0 <= Sum(rows, KnownPart(p))
    decreases |rows|
  {
    if |rows.Keys| != 0 {
      KnownIsMoney(rows - {Least(rows.Keys)}, p);
    }
  }

  function SettledCost(db: Db, a: Id): (cost: Money)
    requires a in db.assignments
  {
    KnownIsMoney(UsageOf(db, a), db.assignments[a].pricing);
    if AllMeasured(db, a) then KnownCost(db, a) else Max(db.assignments[a].estimated, KnownCost(db, a))
  }

  function SettledAuthority(db: Db, a: Id, reconciled: bool): Authority
    requires a in db.assignments
  {
    if AllMeasured(db, a) then TokenDerivedEstimate else if reconciled then ReconciledEstimate else ConservativeEstimate
  }

  /** The usage record of an attempt carries ids derived from its assignment. */
  function SettleUsage(db: Db, percent: real, a: Id, reconciled: bool): Result<Db, LedgerError>
    requires a in db.assignments
  {
    Settle(db, percent, db.assignments[a].reservation, a, Some(SettledCost(db, a)), SettledAuthority(db, a, reconciled), a)
  }

  function WithUnsettled(db: Db, a: Id): Db {
    db.(unsettled := db.unsettled[a := (if a in db.unsettled then db.unsettled[a] else 0) + 1])
  }

  /** A settlement on its own: when the ledger refuses it, a failure stays that blocks the run. */
  function SettleAttempt(db: Db, percent: real, a: Id): (Db, Option<CallError>) {
    if a !in db.assignments then (db, Some(UnknownAssignment))
    else
      match SettleUsage(db, percent, a, false)
      case Ok(after) => (after, None)
      case Err(e) => (WithUnsettled(db, a), Some(SettlementFailed(e)))
  }

  // ----- Reconciling ambiguous calls -----

  datatype Reconciliation = Reconciliation(assignment: Id, cost: real, remaining: nat, settled: bool)

  predicate OpenCall(db: Db, c: Id, a: Id) {
    && CallOf(db, c, a)
    && (db.calls[c].status.Started? ||
        (db.calls[c].status.Ambiguous? && !(c in db.failures && db.failures[c].Estimated?)))
  }

  function OpenCalls(db: Db, a: Id): set<Id> {
    set c | c in db.calls && OpenCall(db, c, a)
  }

  function UnsettledCount(db: Db, a: Id): nat {
    if a in db.unsettled then db.unsettled[a] else 0
  }

  predicate CallInSession(db: Db, c: Id, session: Id) {
    && c in db.calls && db.calls[c].assignment in db.assignments
    && var attempt := db.assignments[db.calls[c].assignment].attempt;
       attempt in db.attempts && TaskInSession(db, db.attempts[attempt].task, session)
  }

  function ReconciliationState(db: Db, session: Id, c: Id): (r: Result<(Reconciliation, FailureStatus), CallError>)
    ensures r.Ok? ==> r.value.0.assignment in db.assignments
  {
    if !CallInSession(db, c, session) then Err(UnknownCall)
    else if !db.calls[c].status.Ambiguous? then Err(NotAmbiguous)
    else if c !in db.failures then Err(NoFailureRecord)
    else
      var a := db.calls[c].assignment;
      var row := db.assignments[a];
      if row.estimated == 0.0 && (row.pricing.input.None? || row.pricing.output.None?) then Err(NoEstimate)
      else if row.reservation !in db.reservations then Err(ReservationMissing)
      else
        Ok((Reconciliation(a, Max(row.estimated, KnownCost(db, a)), |OpenCalls(db, a)| + UnsettledCount(db, a),
                           db.reservations[row.reservation].status.Settled?),
            db.failures[c]))
  }

  function Preview(db: Db, session: Id, c: Id): Result<Reconciliation, CallError> {
    var state :- ReconciliationState(db, session, c);
    Ok(state.0)
  }

  function Estimate(db: Db, c: Id): Db {
    db.(failures := db.failures[c := Estimated])
  }

  /** One transaction: a settlement that the ledger refuses undoes all of it. */
  function Reconcile(db: Db, percent: real, session: Id, c: Id): Result<(Db, Reconciliation), CallError> {
    var before :- ReconciliationState(db, session, c);
    if before.0.settled then
      if before.1.Estimated? then Ok((db, before.0)) else Err(SettledWithoutCall)
    else
      var marked := Estimate(db, c);
      var state :- ReconciliationState(marked, session, c);
      if state.0.remaining == 0 then
        match SettleUsage(marked, percent, state.0.assignment, true)
        case Err(e) => Err(SettlementFailed(e))
        case Ok(after) =>
          var last :- ReconciliationState(after, session, c);
          Ok((after, last.0))
      else Ok((marked, state.0))
  }
}
