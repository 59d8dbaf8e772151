/** What an attempt is charged, read off its usage rows and the calls it made (routing/assignment.py,
    _settle_attempt and _token_cost_usd). */
module AttemptCosts {
  import opened Prelude
  import opened Journals
  import opened Ledgers
  import opened Calls
  import opened CallProtocol
  import N = Reconciliations

  // ----- Prices -----

  predicate Priceable(input: nat, output: nat, p: Pricing) {
    (input > 0 || output > 0) && p.input.Some? && p.output.Some?
  }

  /** Dollars for the tokens of one call: cached input at its own rate, or at the input rate when
      there is none. */
  function TokenPrice(input: nat, output: nat, cached: nat, p: Pricing): real
    requires Priceable(input, output, p)
  {
    var ordinary: nat := if input > cached then input - cached else 0;
    (ordinary as real * p.input.value + cached as real * (if p.cached.Some? then p.cached.value else p.input.value)
     + output as real * p.output.value) / 1000000.0
  }

  lemma {:induction false} TokenCostExactly(t: Tokens, p: Pricing)
    ensures TokenCost(t, p).Some? <==> Priceable(t.input, t.output, p)
    ensures TokenCost(t, p).Some? ==> TokenCost(t, p).value == TokenPrice(t.input, t.output, t.cached, p)
  {
  }

  /** A million input tokens cost the input price, a million output tokens the output price. */
  lemma {:induction false} PricesArePerMillion(p: Pricing)
    requires p.input.Some? && p.output.Some?
    ensures TokenCost(Tokens(1000000, 0, 0), p) == Some(p.input.value)
    ensures TokenCost(Tokens(0, 1000000, 0), p) == Some(p.output.value)
  {
    TokenCostExactly(Tokens(1000000, 0, 0), p);
    TokenCostExactly(Tokens(0, 1000000, 0), p);
    assert 1000000 as real * p.input.value / 1000000.0 == p.input.value;
    assert 1000000 as real * p.output.value / 1000000.0 == p.output.value;
  }

  // ----- One usage row -----

  /** The row has a known cost, or tokens that its assignment has prices for. */
  predicate RowMeasured(u: CallUsage, p: Pricing) {
    u.costKnown || Priceable(u.input, u.output, p)
  }

  /** What a row counts: the cost it came with, or else the price of its tokens, or else nothing. */
  function RowCharge(p: Pricing): CallUsage -> real {
    (u: CallUsage) =>
      if u.costKnown then u.amount
      else if Priceable(u.input, u.output, p) then TokenPrice(u.input, u.output, u.cached, p)
      else 0.0
  }

  function Charged(db: Db, a: Id): real
    requires a in db.assignments
  {
    Sum(UsageOf(db, a), RowCharge(db.assignments[a].pricing))
  }

  /** There are usage rows, each of them is measured, and each call that was not rejected has one. */
  ghost predicate Measured(db: Db, a: Id)
    requires a in db.assignments
  {
    && UsageOf(db, a) != map[]
    && (forall c :: c in UsageOf(db, a) ==> RowMeasured(UsageOf(db, a)[c], db.assignments[a].pricing))
    && (forall c :: c in db.calls && db.calls[c].assignment == a && !db.calls[c].status.Rejected? ==> c in UsageOf(db, a))
  }

  lemma {:induction false} RowExactly(u: CallUsage, p: Pricing)
    ensures Resolved(u, p).Some? <==> RowMeasured(u, p)
    ensures KnownPart(p)(u) == RowCharge(p)(u)
  {
    TokenCostExactly(RowTokens(u), p);
  }

  lemma {:induction false} SumsAgree(rows: map<Id, CallUsage>, p: Pricing)
    ensures Sum(rows, KnownPart(p)) == Sum(rows, RowCharge(p))
    decreases |rows|
  {
    if |rows.Keys| != 0 {
      var k := Least(rows.Keys);
      RowExactly(rows[k], p);
      SumsAgree(rows - {k}, p);
    }
  }

  lemma {:induction false} MeasuredExactly(db: Db, a: Id)
    requires a in db.assignments
    ensures AllMeasured(db, a) <==> Measured(db, a)
    ensures KnownCost(db, a) == Charged(db, a)
  {
    hide Resolved, RowMeasured, KnownPart, RowCharge;
    SumsAgree(UsageOf(db, a), db.assignments[a].pricing);
    forall c | c in UsageOf(db, a)
      ensures Resolved(UsageOf(db, a)[c], db.assignments[a].pricing).Some? <==> RowMeasured(UsageOf(db, a)[c], db.assignments[a].pricing)
    {
      RowExactly(UsageOf(db, a)[c], db.assignments[a].pricing);
    }
    assert UsageOf(db, a) != map[] <==> UsageOf(db, a).Keys != {} by {
      assert UsageOf(db, a).Keys == {} ==> UsageOf(db, a) == map[];
    }
  }

  // ----- What an attempt settles at -----

  /** A first settlement records what the rows count when all is measured, as derived from tokens.
      Otherwise it records no less than the frozen estimate, as an estimate. */
  lemma {:induction false} SettlesAtTheCharge(db: Db, percent: real, a: Id, reconciled: bool, after: Db)
    requires BooksOf(db).Matched() && a in db.assignments && db.assignments[a].reservation in db.reservations && !N.IsSettled(db, a)
    requires SettleUsage(db, percent, a, reconciled) == Ok(after)
    ensures var r := db.assignments[a].reservation;
      && r in after.usage
      && after.usage[r].amount == (if Measured(db, a) then Charged(db, a) else Max(db.assignments[a].estimated, Charged(db, a)))
      && after.usage[r].authority ==
         (if Measured(db, a) then TokenDerivedEstimate else if reconciled then ReconciledEstimate else ConservativeEstimate)
  {
    hide SettleUsage, KnownCost, AllMeasured, Measured, Charged, Max;
    MeasuredExactly(db, a);
    N.SettlingRecords(db, percent, a, reconciled, after);
    AuthorityRecorded(db, percent, a, reconciled, after);
  }

  lemma {:induction false} AuthorityRecorded(db: Db, percent: real, a: Id, reconciled: bool, after: Db)
    requires BooksOf(db).Matched() && a in db.assignments && db.assignments[a].reservation in db.reservations && !N.IsSettled(db, a)
    requires SettleUsage(db, percent, a, reconciled) == Ok(after)
    ensures var r := db.assignments[a].reservation;
      r in after.usage && after.usage[r].authority == SettledAuthority(db, a, reconciled)
  {
    hide SettledCost, SettledAuthority, UpdateWarning;
    var r := db.assignments[a].reservation;
    assert db.reservations[r].status.Settled? <==> r in db.usage;
    var cost, authority := SettledCost(db, a), SettledAuthority(db, a, reconciled);
    WarningOnly(WithBooks(db, SettleBooks(BooksOf(db), r, a, cost, authority, a).value), percent, db.reservations[r].run);
  }

  /** One row without a cost and without tokens or a main price is enough for the frozen estimate. */
  lemma {:induction false} UnmeasuredSettlesAtTheEstimate(db: Db, percent: real, a: Id, reconciled: bool, after: Db, c: Id)
    requires BooksOf(db).Matched() && a in db.assignments && db.assignments[a].reservation in db.reservations && !N.IsSettled(db, a)
    requires SettleUsage(db, percent, a, reconciled) == Ok(after) && c in UsageOf(db, a)
    requires var u, p := UsageOf(db, a)[c], db.assignments[a].pricing;
      !u.costKnown && ((u.input == 0 && u.output == 0) || p.input.None? || p.output.None?)
    ensures var r := db.assignments[a].reservation;
      && r in after.usage && after.usage[r].amount >= db.assignments[a].estimated
      && after.usage[r].authority in {ReconciledEstimate, ConservativeEstimate}
  {
    hide SettleUsage, Charged;
    SettlesAtTheCharge(db, percent, a, reconciled, after);
    assert !RowMeasured(UsageOf(db, a)[c], db.assignments[a].pricing);
  }

  function AmountOf(): CallUsage -> real {
    (u: CallUsage) => u.amount
  }

  lemma {:induction false} KnownRowsAddUp(rows: map<Id, CallUsage>, p: Pricing)
    requires forall c :: c in rows ==> rows[c].costKnown
    ensures Sum(rows, RowCharge(p)) == Sum(rows, AmountOf())
    decreases |rows|
  {
    if |rows.Keys| != 0 {
      KnownRowsAddUp(rows - {Least(rows.Keys)}, p);
    }
  }

  /** With a known cost for every call, the attempt settles at their sum. */
  lemma {:induction false} KnownCostsSettle(db: Db, percent: real, a: Id, reconciled: bool, after: Db)
    requires BooksOf(db).Matched() && a in db.assignments && db.assignments[a].reservation in db.reservations && !N.IsSettled(db, a)
    requires SettleUsage(db, percent, a, reconciled) == Ok(after) && UsageOf(db, a) != map[]
    requires forall c :: c in UsageOf(db, a) ==> UsageOf(db, a)[c].costKnown
    requires forall c :: c in db.calls && db.calls[c].assignment == a && !db.calls[c].status.Rejected? ==> c in UsageOf(db, a)
    ensures var r := db.assignments[a].reservation;
      r in after.usage && after.usage[r].amount == Sum(UsageOf(db, a), AmountOf()) && after.usage[r].authority == TokenDerivedEstimate
  {
    hide SettleUsage, RowCharge, AmountOf;
    SettlesAtTheCharge(db, percent, a, reconciled, after);
    KnownRowsAddUp(UsageOf(db, a), db.assignments[a].pricing);
  }

  /** A row that came without a cost, but with tokens and both prices, adds exactly their price. */
  lemma {:induction false} PricedRowCounts(db: Db, a: Id, c: Id)
    requires a in db.assignments && c in UsageOf(db, a) && !UsageOf(db, a)[c].costKnown
    requires var u := UsageOf(db, a)[c]; Priceable(u.input, u.output, db.assignments[a].pricing)
    ensures var u, p := UsageOf(db, a)[c], db.assignments[a].pricing;
      Charged(db, a) == TokenPrice(u.input, u.output, u.cached, p) + Sum(UsageOf(db, a) - {c}, RowCharge(p))
  {
    SumWithout(UsageOf(db, a), RowCharge(db.assignments[a].pricing), c);
  }

  // ----- What a reconciliation is shown -----

  /** A call of the attempt has no answer yet: it has started, or it is ambiguous and not estimated. */
  ghost predicate Unanswered(db: Db, a: Id) {
    exists c :: c in db.calls && db.calls[c].assignment == a &&
      (db.calls[c].status == Started
       || (db.calls[c].status == Ambiguous && !(c in db.failures && db.failures[c] == Estimated)))
  }

  ghost predicate OfSession(db: Db, c: Id, session: Id) {
    && c in db.calls && db.calls[c].assignment in db.assignments
    && db.assignments[db.calls[c].assignment].attempt in db.attempts
    && var task := db.attempts[db.assignments[db.calls[c].assignment].attempt].task;
       task in db.tasks && db.tasks[task].run in db.runs && db.runs[db.tasks[task].run].session == session
  }

  /** A preview is refused for a call that is not in the session, not ambiguous or without a failure record,
      and for an assignment with neither an estimate nor prices or without its reservation. Otherwise it shows
      the estimate or what the rows count, whichever is more, and whether anything is still open. */
  lemma {:induction false} PreviewAnswers(db: Db, session: Id, c: Id)
    ensures var r := Preview(db, session, c);
      if !OfSession(db, c, session) then r == Err(UnknownCall)
      else if db.calls[c].status != Ambiguous then r == Err(NotAmbiguous)
      else if c !in db.failures then r == Err(NoFailureRecord)
      else
        var a := db.calls[c].assignment;
        var row := db.assignments[a];
        if row.estimated == 0.0 && (row.pricing.input.None? || row.pricing.output.None?) then r == Err(NoEstimate)
        else if row.reservation !in db.reservations then r == Err(ReservationMissing)
        else
          && r.Ok? && r.value.assignment == a && r.value.cost == Max(row.estimated, Charged(db, a))
          && (r.value.settled <==> db.reservations[row.reservation].status == Settled)
          && (r.value.remaining == 0 <==> !Unanswered(db, a) && !(a in db.unsettled && db.unsettled[a] > 0))
  {
    if OfSession(db, c, session) {
      var a := db.calls[c].assignment;
      MeasuredExactly(db, a);
      OpenExactly(db, a);
    }
    hide KnownCost, Charged, AllMeasured, Measured, OpenCalls, Unanswered;
  }

  lemma {:induction false} OpenExactly(db: Db, a: Id)
    ensures |OpenCalls(db, a)| == 0 <==> !Unanswered(db, a)
  {
    if OpenCalls(db, a) != {} {
      var c :| c in OpenCalls(db, a);
      assert OpenCall(db, c, a);
    }
    if Unanswered(db, a) {
      var c :| c in db.calls && db.calls[c].assignment == a &&
        (db.calls[c].status == Started
         || (db.calls[c].status == Ambiguous && !(c in db.failures && db.failures[c] == Estimated)));
      assert c in OpenCalls(db, a);
    }
  }
}
