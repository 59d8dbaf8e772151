/** The cost that the guard of a call observes: the known costs in the usage rows of the run's calls
    (routing/assignment.py, record_call and begin_call). */
module ObservedCosts {
  import opened Prelude
  import opened Tasks
  import opened Journals
  import opened Ledgers
  import Ch = Chains
  import C = Calls
  import P = CallProtocol
  import T = AttemptCosts
  import A = Assignments
  import N = Reconciliations
  import R = Recoveries
  import opened Histories

  // ----- What is stored -----

  /** The row for a response: what was counted, and its price where there is one; or an unknown
      cost and no tokens for a response that cannot be read. */
  lemma {:induction false} StoredRow(tokens: Option<C.Tokens>, p: Pricing)
    ensures tokens.None? ==> C.UsageRow(tokens, p) == CallUsage(0, 0, 0, 0.0, false)
    ensures tokens.Some? ==>
      var t, row := tokens.value, C.UsageRow(tokens, p);
      && row.input == t.input && row.output == t.output && row.cached == t.cached
      && row.costKnown == T.Priceable(t.input, t.output, p)
      && row.amount == if row.costKnown then T.TokenPrice(t.input, t.output, t.cached, p) else 0.0
  {
    if tokens.Some? {
      T.TokenCostExactly(tokens.value, p);
    }
  }

  function KnownAmount(row: CallUsage): Option<Money> {
    if row.costKnown then Some(row.amount) else None
  }

  /** The known cost in the usage row of a call. */
  function RecordedCost(db: Db, c: Id): Option<Money>
    requires c in db.calls
  {
    var rows := C.UsageOf(db, db.calls[c].assignment);
    if c in rows then KnownAmount(rows[c]) else None
  }

  /** Every call carries the cost of its usage row. */
  ghost predicate AmountsAgree(db: Db) {
    forall c {:trigger db.calls[c].amount} :: c in db.calls ==> db.calls[c].amount == RecordedCost(db, c)
  }

  /** The known costs of the completed calls of a run, call by call. */
  function KnownCosts(db: Db, run: Id): map<Id, real> {
    map c | c in db.calls :: CostIn(db, run, c)
  }

  function CostIn(db: Db, run: Id, c: Id): real
    requires c in db.calls
  {
    if db.calls[c].status.Completed? && AssignmentInRun(db, db.calls[c].assignment, run) && RecordedCost(db, c).Some? then
      RecordedCost(db, c).value
    else 0.0
  }

  function Weights<V>(table: map<Id, V>, weight: V -> real): map<Id, real> {
    map k | k in table :: weight(table[k])
  }

  lemma {:induction false} SumIsTotal<V>(table: map<Id, V>, weight: V -> real)
    ensures Sum(table, weight) == Total(Weights(table, weight))
    decreases |table|
  {
    var amounts := Weights(table, weight);
    assert amounts.Keys == table.Keys;
    if |table.Keys| != 0 {
      var k := Least(table.Keys);
      SumIsTotal(table - {k}, weight);
      assert amounts - {k} == Weights(table - {k}, weight);
    }
  }

  lemma {:induction false} ObservedIsKnown(db: Db, run: Id)
    requires AmountsAgree(db)
    ensures C.Observed(db, run) == Total(KnownCosts(db, run))
  {
    SumIsTotal(db.calls, C.ObservedIn(db, run));
    forall c | c in db.calls ensures C.ObservedIn(db, run)(db.calls[c]) == CostIn(db, run, c) {
      WeighsTheSame(db, run, c);
    }
    hide C.ObservedIn, CostIn;
    assert Weights(db.calls, C.ObservedIn(db, run)) == KnownCosts(db, run);
  }

  lemma {:induction false} WeighsTheSame(db: Db, run: Id, c: Id)
    requires AmountsAgree(db) && c in db.calls
    ensures C.ObservedIn(db, run)(db.calls[c]) == CostIn(db, run, c)
  {
    hide RecordedCost, AssignmentInRun;
    assert db.calls[c].amount == RecordedCost(db, c);
  }

  // ----- Recording a call -----

  /** Recording the response of a started call completes it and raises the observed cost of its run
      by exactly the price of the response, or by nothing when it has none. */
  lemma {:induction false} RecordingObserves(db: Db, a: Id, c: Id, tokens: Option<C.Tokens>, after: Db, run: Id)
    requires P.CallsInv(db) && c in db.calls && db.calls[c].status.Started? && C.RecordCall(db, a, c, tokens) == Ok(after)
    ensures a in db.assignments && c in after.calls && after.calls[c].status.Completed?
    ensures C.Observed(after, run) == C.Observed(db, run) +
      if AssignmentInRun(db, db.calls[c].assignment, run) && tokens.Some?
         && T.Priceable(tokens.value.input, tokens.value.output, db.assignments[a].pricing) then
        T.TokenPrice(tokens.value.input, tokens.value.output, tokens.value.cached, db.assignments[a].pricing)
      else 0.0
  {
    NothingRecordedYet(db, a, c);
    var p := db.assignments[a].pricing;
    StoredRow(tokens, p);
    hide C.UsageRow, T.TokenPrice, T.Priceable, P.CallsInv;
    var row := C.UsageRow(tokens, p);
    SumPut(db.calls, C.ObservedIn(db, run), c, after.calls[c]);
    SameOwners(db, after, run);
  }

  lemma {:induction false} NothingRecordedYet(db: Db, a: Id, c: Id)
    requires P.CallsInv(db) && c in db.calls && db.calls[c].status.Started?
    ensures c !in C.UsageOf(db, a) && db.calls[c].amount.None?
  {
    assert P.CallRow(db, c, db.calls[c]);
  }

  /** The weights of the calls depend on the owners only. */
  lemma {:induction false} SameOwners(db: Db, after: Db, run: Id)
    requires after.assignments == db.assignments && after.attempts == db.attempts && after.tasks == db.tasks
    ensures Sum(after.calls, C.ObservedIn(after, run)) == Sum(after.calls, C.ObservedIn(db, run))
  {
    SameWeights(after.calls, C.ObservedIn(after, run), C.ObservedIn(db, run));
  }

  lemma {:induction false} SameWeights<V>(table: map<Id, V>, f: V -> real, g: V -> real)
    requires forall k :: k in table ==> f(table[k]) == g(table[k])
    ensures Sum(table, f) == Sum(table, g)
  {
    SumMonotone(table, f, table, g);
    SumMonotone(table, g, table, f);
  }

  // ----- What keeps the amounts right -----

  /** The step records a call under its own assignment, or at least at the cost it already has. */
  predicate RecordsOwn(db: Db, step: Step) {
    step.RecordCall? && step.call in db.calls && C.RecordCall(db, step.assignment, step.call, step.tokens).Ok?
    && step.call !in C.UsageOf(db, step.assignment) ==>
      || db.calls[step.call].assignment == step.assignment
      || KnownAmount(C.UsageRow(step.tokens, db.assignments[step.assignment].pricing)) == db.calls[step.call].amount
  }

  lemma {:induction false} RecordAnatomy(db: Db, a: Id, c: Id, tokens: Option<C.Tokens>, after: Db)
    requires C.RecordCall(db, a, c, tokens) == Ok(after)
    ensures a in db.assignments
    ensures c in C.UsageOf(db, a) ==> after == db
    ensures c !in C.UsageOf(db, a) ==>
      var row := C.UsageRow(tokens, db.assignments[a].pricing);
      && after.callUsage == db.callUsage[a := C.UsageOf(db, a)[c := row]]
      && (c in db.calls ==> after.calls == db.calls[c := db.calls[c].(status := Completed, amount := KnownAmount(row))])
      && (c !in db.calls ==> after.calls == db.calls)
  {
    RecordKnown(db, a, c, tokens);
    hide C.RecordCall, C.UsageRow, C.UsageOf, KnownAmount;
    if c !in C.UsageOf(db, a) {
      RecordNew(db, a, c, tokens, after);
    }
  }

  lemma {:induction false} RecordKnown(db: Db, a: Id, c: Id, tokens: Option<C.Tokens>)
    ensures a !in db.assignments ==> C.RecordCall(db, a, c, tokens).Err?
    ensures c in C.UsageOf(db, a) && C.RecordCall(db, a, c, tokens).Ok? ==> C.RecordCall(db, a, c, tokens).value == db
  {
    hide C.UsageRow, C.CallsOnly, C.UsageOf;
  }

  lemma {:induction false} RecordNew(db: Db, a: Id, c: Id, tokens: Option<C.Tokens>, after: Db)
    requires a in db.assignments && c !in C.UsageOf(db, a) && C.RecordCall(db, a, c, tokens) == Ok(after)
    ensures var row := C.UsageRow(tokens, db.assignments[a].pricing);
      && after.callUsage == db.callUsage[a := C.UsageOf(db, a)[c := row]]
      && (c in db.calls ==> after.calls == db.calls[c := db.calls[c].(status := Completed, amount := KnownAmount(row))])
      && (c !in db.calls ==> after.calls == db.calls)
  {
    hide C.UsageRow, C.CallsOnly, C.UsageOf;
  }

  /** A recording keeps the amounts right exactly when it is of this kind. */
  lemma {:induction false} RecordKeepsAmounts(db: Db, a: Id, c: Id, tokens: Option<C.Tokens>, after: Db)
    requires AmountsAgree(db) && C.RecordCall(db, a, c, tokens) == Ok(after)
    ensures AmountsAgree(after) <==> RecordsOwn(db, RecordCall(a, c, tokens))
  {
    hide C.UsageRow, C.RecordCall, KnownAmount, AmountsAgree, RecordedCost;
    RecordAnatomy(db, a, c, tokens, after);
    if c !in C.UsageOf(db, a) {
      var row := C.UsageRow(tokens, db.assignments[a].pricing);
      StoredKeepsAmounts(db, a, c, row, after);
      if c in db.calls {
        OwnAmount(db, c);
      }
    }
  }

  lemma {:induction false} OwnAmount(db: Db, c: Id)
    requires AmountsAgree(db) && c in db.calls
    ensures db.calls[c].amount == RecordedCost(db, c)
  {
    hide RecordedCost;
  }

  /** A new usage row, and its cost as that of the call. */
  lemma {:induction false} StoredKeepsAmounts(db: Db, a: Id, c: Id, row: CallUsage, after: Db)
    requires AmountsAgree(db) && c !in C.UsageOf(db, a)
    requires after.callUsage == db.callUsage[a := C.UsageOf(db, a)[c := row]]
    requires c in db.calls ==> after.calls == db.calls[c := db.calls[c].(status := Completed, amount := KnownAmount(row))]
    requires c !in db.calls ==> after.calls == db.calls
    ensures AmountsAgree(after) <==>
      (c in db.calls ==> db.calls[c].assignment == a || KnownAmount(row) == db.calls[c].amount)
  {
    forall d | d in after.calls && d != c ensures after.calls[d].amount == RecordedCost(after, d) {
      OwnAmount(db, d);
      OtherRowsStay(db, a, c, row, after, d);
    }
    hide KnownAmount;
    if c in db.calls {
      OwnAmount(db, c);
      RowOfTheCall(db, a, c, row, after);
      hide RecordedCost;
      assert after.calls[c].amount == KnownAmount(row);
    }
  }

  lemma {:induction false} OtherRowsStay(db: Db, a: Id, c: Id, row: CallUsage, after: Db, d: Id)
    requires d in db.calls && d in after.calls && d != c && after.calls[d] == db.calls[d]
    requires after.callUsage == db.callUsage[a := C.UsageOf(db, a)[c := row]]
    ensures RecordedCost(after, d) == RecordedCost(db, d)
  {
    hide KnownAmount;
  }

  lemma {:induction false} RowOfTheCall(db: Db, a: Id, c: Id, row: CallUsage, after: Db)
    requires c in db.calls && c in after.calls && after.calls[c].assignment == db.calls[c].assignment
    requires after.callUsage == db.callUsage[a := C.UsageOf(db, a)[c := row]]
    ensures RecordedCost(after, c) == if db.calls[c].assignment == a then KnownAmount(row) else RecordedCost(db, c)
  {
    hide KnownAmount;
  }

  lemma {:induction false} SameRowsAgree(db: Db, after: Db)
    requires AmountsAgree(db) && after.callUsage == db.callUsage && after.calls.Keys == db.calls.Keys
    requires forall c :: c in db.calls ==>
      after.calls[c].amount == db.calls[c].amount && after.calls[c].assignment == db.calls[c].assignment
    ensures AmountsAgree(after)
  {
    forall c | c in after.calls ensures after.calls[c].amount == RecordedCost(after, c) {
      assert db.calls[c].amount == RecordedCost(db, c);
    }
  }

  lemma {:induction false} BeginKeepsAmounts(db: Db, a: Id, key: Id, call: Id, after: Db)
    requires AmountsAgree(db) && P.FreshCall(db, call) && C.BeginCall(db, a, key, call) == Ok(after)
    ensures AmountsAgree(after)
  {
    P.BeginNeeds(db, a, key, call, after);
    hide C.BeginCall;
    forall c | c in after.calls ensures after.calls[c].amount == RecordedCost(after, c) {
      if c != call {
        assert db.calls[c].amount == RecordedCost(db, c);
      }
    }
  }

  lemma {:induction false} OneStatus(db: Db, c: Id, row: Call, after: Db)
    requires AmountsAgree(db) && c in db.calls && row.amount == db.calls[c].amount && row.assignment == db.calls[c].assignment
    requires after.callUsage == db.callUsage && after.calls == db.calls[c := row]
    ensures AmountsAgree(after)
  {
    forall d | d in after.calls ensures after.calls[d].amount == RecordedCost(after, d) {
      assert db.calls[d].amount == RecordedCost(db, d);
    }
  }

  lemma {:induction false} MarkedSucceeded(db: Db, c: Id, after: Db)
    requires AmountsAgree(db) && C.MarkSucceeded(db, c) == Ok(after)
    ensures AmountsAgree(after)
  {
    hide AmountsAgree;
    if after != db {
      OneStatus(db, c, after.calls[c], after);
    }
  }

  lemma {:induction false} MarkedAmbiguous(db: Db, c: Id, after: Db)
    requires AmountsAgree(db) && C.MarkAmbiguous(db, c) == Ok(after)
    ensures AmountsAgree(after)
  {
    hide AmountsAgree, C.WithFailure;
    if after != db {
      OneStatus(db, c, after.calls[c], after);
    }
  }

  lemma {:induction false} MarkedRejected(db: Db, c: Id, rejected: bool, after: Db)
    requires AmountsAgree(db) && C.MarkRejected(db, c, rejected) == Ok(after)
    ensures AmountsAgree(after)
  {
    hide AmountsAgree;
    if after != db {
      OneStatus(db, c, after.calls[c], after);
    }
  }

  lemma {:induction false} MarkedUnreturned(db: Db, a: Id, after: Db)
    requires AmountsAgree(db) && after == C.MarkUnreturned(db, a)
    ensures AmountsAgree(after)
  {
    hide AmountsAgree, C.StartedCalls;
    SameRowsAgree(db, after);
  }

  lemma {:induction false} AfterKeepsAmounts(db: Db, r: Result<Db, C.CallError>)
    requires AmountsAgree(db) && (r.Ok? ==> AmountsAgree(r.value))
    ensures AmountsAgree(After(db, r))
  {
    hide AmountsAgree;
  }

  lemma {:induction false} StatusKeepsAmounts(db: Db, percent: real, step: Step)
    requires AmountsAgree(db) && (step.MarkSucceeded? || step.MarkAmbiguous? || step.MarkRejected? || step.MarkUnreturned?)
    ensures AmountsAgree(Apply(db, percent, step))
  {
    hide AmountsAgree, After, C.MarkSucceeded, C.MarkAmbiguous, C.MarkRejected, C.MarkUnreturned, C.CallsOnly;
    match step
    case MarkSucceeded(c) =>
      var r := C.MarkSucceeded(db, c);
      if r.Ok? { MarkedSucceeded(db, c, r.value); }
      AfterKeepsAmounts(db, r);
    case MarkAmbiguous(c) =>
      var r := C.MarkAmbiguous(db, c);
      if r.Ok? { MarkedAmbiguous(db, c, r.value); }
      AfterKeepsAmounts(db, r);
    case MarkRejected(c, rejected) =>
      var r := C.MarkRejected(db, c, rejected);
      if r.Ok? { MarkedRejected(db, c, rejected, r.value); }
      AfterKeepsAmounts(db, r);
    case MarkUnreturned(a) => MarkedUnreturned(db, a, C.MarkUnreturned(db, a));
  }

  lemma {:induction false} CallStepKeepsAmounts(db: Db, percent: real, step: Step)
    requires AmountsAgree(db) && Legal(db, step) && IsCallStep(step)
    ensures AmountsAgree(Apply(db, percent, step)) <==> RecordsOwn(db, step)
  {
    hide AmountsAgree, C.BeginCall, C.RecordCall, C.MarkSucceeded, C.MarkAmbiguous, C.MarkRejected, C.MarkUnreturned, C.UsageRow;
    if step.BeginCall? {
      var r := C.BeginCall(db, step.assignment, step.key, step.call);
      if r.Ok? {
        BeginKeepsAmounts(db, step.assignment, step.key, step.call, r.value);
      }
    } else if step.RecordCall? {
      var r := C.RecordCall(db, step.assignment, step.call, step.tokens);
      if r.Ok? {
        RecordKeepsAmounts(db, step.assignment, step.call, step.tokens, r.value);
      }
    } else {
      StatusKeepsAmounts(db, percent, step);
    }
  }

  lemma {:induction false} MoneyStepsLeaveCalls(db: Db, percent: real, step: Step)
    requires Legal(db, step) && (step.ReserveMoney? || step.ReleaseMoney? || step.SettleMoney?)
    ensures Apply(db, percent, step).calls == db.calls && Apply(db, percent, step).callUsage == db.callUsage
  {
    hide Reserve, Release, Settle;
    match step
    case ReserveMoney(q, taskLimit, lead) => ReserveTouchesTheLedger(db, percent, q, taskLimit, lead);
    case ReleaseMoney(r) => ReleaseTouchesTheLedger(db, percent, r);
    case SettleMoney(r, usage, cost, authority, key) => SettleTouchesTheLedger(db, percent, r, usage, cost, authority, key);
  }

  lemma {:induction false} AssignmentsLeaveCalls(db: Db, percent: real, step: Step)
    requires Legal(db, step) && IsAssignment(step)
    ensures Apply(db, percent, step).calls == db.calls && Apply(db, percent, step).callUsage == db.callUsage
  {
    hide A.AssignOnce, A.AssignBatch;
    match step
    case AssignModel(q, offer, ids) => AssignLeavesCalls(db, percent, q, offer, ids);
    case AssignModels(qs, offers, ids, lead, leadId) => BatchLeavesCalls(db, percent, qs, offers, ids, lead, leadId);
  }

  lemma {:induction false} AccountingLeavesCalls(db: Db, percent: real, step: Step)
    requires Legal(db, step) && (step.SettleAttempt? || step.Reconcile? || step.Recover?)
    ensures Apply(db, percent, step).calls == db.calls && Apply(db, percent, step).callUsage == db.callUsage
  {
    hide C.SettleAttempt, C.Reconcile, R.Recover;
    match step
    case SettleAttempt(a) => SettleAttemptLeavesCalls(db, percent, a);
    case Reconcile(session, c) => ReconcileLeavesCalls(db, percent, session, c);
    case Recover(session, live) => RecoverLeavesCalls(db, session, live, R.Recover(db, session, live));
  }

  lemma {:induction false} CreationLeavesCalls(db: Db, percent: real, step: Step)
    requires Legal(db, step) && IsCreation(step)
    ensures Apply(db, percent, step).calls == db.calls && Apply(db, percent, step).callUsage == db.callUsage
  {
    hide Created;
  }

  lemma {:induction false} StepKinds(step: Step)
    ensures IsCallStep(step) || IsAssignment(step) || IsCreation(step)
         || step.ReserveMoney? || step.ReleaseMoney? || step.SettleMoney? || step.SettleAttempt? || step.Reconcile? || step.Recover?
  {
  }

  lemma {:induction false} OtherStepsLeaveCalls(db: Db, percent: real, step: Step)
    requires Legal(db, step) && !IsCallStep(step)
    ensures Apply(db, percent, step).calls == db.calls && Apply(db, percent, step).callUsage == db.callUsage
  {
    hide *;
    StepKinds(step);
    if IsAssignment(step) {
      AssignmentsLeaveCalls(db, percent, step);
    } else if IsCreation(step) {
      CreationLeavesCalls(db, percent, step);
    } else if step.ReserveMoney? || step.ReleaseMoney? || step.SettleMoney? {
      MoneyStepsLeaveCalls(db, percent, step);
    } else {
      AccountingLeavesCalls(db, percent, step);
    }
  }

  lemma {:induction false} SettleAttemptLeavesCalls(db: Db, percent: real, a: Id)
    ensures var after := C.SettleAttempt(db, percent, a).0; after.calls == db.calls && after.callUsage == db.callUsage
  {
    hide C.SettleUsage;
    if a in db.assignments && C.SettleUsage(db, percent, a, false).Ok? {
      N.SettlingTouchesTheLedger(db, percent, a, false, C.SettleUsage(db, percent, a, false).value);
    }
  }

  lemma {:induction false} ReconcileLeavesCalls(db: Db, percent: real, session: Id, c: Id)
    ensures var r := C.Reconcile(db, percent, session, c);
      r.Ok? ==> r.value.0.calls == db.calls && r.value.0.callUsage == db.callUsage
  {
    hide C.Reconcile, C.SettleUsage, N.NothingOpen, N.IsSettled, N.EstimateOf, C.ReconciliationState;
    var r := C.Reconcile(db, percent, session, c);
    if r.Ok? {
      N.ReconcileAnatomy(db, percent, session, c, r.value.0, r.value.1);
      var a := r.value.1.assignment;
      if !N.IsSettled(db, a) && N.NothingOpen(C.Estimate(db, c), a) {
        N.SettlingTouchesTheLedger(C.Estimate(db, c), percent, a, true, r.value.0);
      }
    }
  }

  /** Every transaction keeps the amounts of calls right, except exactly a recording that is not of the
      call's own assignment and changes its cost. */
  lemma {:induction false} StepKeepsAmounts(db: Db, percent: real, step: Step)
    requires AmountsAgree(db) && Legal(db, step)
    ensures AmountsAgree(Apply(db, percent, step)) <==> RecordsOwn(db, step)
  {
    hide *;
    if IsCallStep(step) {
      CallStepKeepsAmounts(db, percent, step);
    } else {
      OtherStepsLeaveCalls(db, percent, step);
      SameCalls(db, Apply(db, percent, step));
      NotRecording(db, step);
    }
  }

  lemma {:induction false} SameCalls(db: Db, after: Db)
    requires AmountsAgree(db) && after.calls == db.calls && after.callUsage == db.callUsage
    ensures AmountsAgree(after)
  {
    hide AmountsAgree;
    SameRowsAgree(db, after);
  }

  lemma {:induction false} NotRecording(db: Db, step: Step)
    requires !IsCallStep(step)
    ensures RecordsOwn(db, step)
  {
  }

  ghost predicate OwnRun(db: Db, percent: real, steps: seq<Step>)
    requires LegalRun(db, percent, steps)
    decreases |steps|
  {
    steps != [] ==> RecordsOwn(db, steps[0]) && OwnRun(Apply(db, percent, steps[0]), percent, steps[1..])
  }

  lemma {:induction false} RunKeepsAmounts(db: Db, percent: real, steps: seq<Step>)
    requires AmountsAgree(db) && LegalRun(db, percent, steps) && OwnRun(db, percent, steps)
    ensures AmountsAgree(Run(db, percent, steps))
    decreases |steps|
  {
    hide Apply, Legal, AmountsAgree, RecordsOwn;
    if steps != [] {
      StepKeepsAmounts(db, percent, steps[0]);
      RunKeepsAmounts(Apply(db, percent, steps[0]), percent, steps[1..]);
    }
  }

  // ----- When a call may begin -----

  /** Whatever has happened to a new journal in which calls are recorded under their own assignments: a
      call with an open reservation, a new key and nothing uncertain in its run begins exactly when
      the known costs in the usage rows of the run's completed calls have not reached the limit. */
  lemma {:induction false} BeginsBelowTheLimit(percent: real, steps: seq<Step>, a: Id, key: Id, call: Id, run: Id)
    requires LegalRun(EMPTY, percent, steps) && OwnRun(EMPTY, percent, steps)
    requires var later := Run(EMPTY, percent, steps);
      && AssignmentInRun(later, a, run) && !C.KeyUsed(later, a, key) && !C.Uncertain(later, run)
      && Ch.IsOpen(later, later.assignments[a].reservation) && call !in later.calls
    ensures var later := Run(EMPTY, percent, steps);
      var begun := C.BeginCall(later, a, key, call);
      && (begun.Ok? <==> (LimitOf(later, run).Some? ==> Total(KnownCosts(later, run)) < LimitOf(later, run).value))
      && (begun.Err? ==> begun.error == C.BudgetExhausted)
  {
    hide *;
    var later := Run(EMPTY, percent, steps);
    NothingAgrees();
    RunKeepsAmounts(EMPTY, percent, steps);
    ObservedIsKnown(later, run);
    BeginsExactly(later, a, key, call, run);
  }

  lemma {:induction false} NothingAgrees()
    ensures AmountsAgree(EMPTY)
  {
  }

  lemma {:induction false} BeginsExactly(db: Db, a: Id, key: Id, call: Id, run: Id)
    requires AssignmentInRun(db, a, run) && !C.KeyUsed(db, a, key) && !C.Uncertain(db, run)
    requires Ch.IsOpen(db, db.assignments[a].reservation) && call !in db.calls
    ensures var begun := C.BeginCall(db, a, key, call);
      && (begun.Ok? <==> (LimitOf(db, run).Some? ==> C.Observed(db, run) < LimitOf(db, run).value))
      && (begun.Err? ==> begun.error == C.BudgetExhausted)
  {
    hide C.Uncertain, C.KeyUsed, C.Observed, C.NextOrdinal;
  }

  /** And no call of the run ever begins once they have. */
  lemma {:induction false} NoneBeginsAtTheLimit(percent: real, steps: seq<Step>, a: Id, key: Id, call: Id, run: Id)
    requires LegalRun(EMPTY, percent, steps) && OwnRun(EMPTY, percent, steps)
    requires var later := Run(EMPTY, percent, steps);
      && AssignmentInRun(later, a, run) && LimitOf(later, run).Some?
      && Total(KnownCosts(later, run)) >= LimitOf(later, run).value
    ensures C.BeginCall(Run(EMPTY, percent, steps), a, key, call).Err?
  {
    hide *;
    var later := Run(EMPTY, percent, steps);
    NothingAgrees();
    RunKeepsAmounts(EMPTY, percent, steps);
    ObservedIsKnown(later, run);
    if C.BeginCall(later, a, key, call).Ok? {
      P.BeginNeeds(later, a, key, call, C.BeginCall(later, a, key, call).value);
    }
  }

  // ----- A recording under another assignment -----

  /** Whenever a completed call with a known cost is recorded once more, as unreadable and under an
      assignment that is not its own, the guard of its run forgets that cost, although its usage row stays. */
  lemma {:induction false} RecordedElsewhere(db: Db, a: Id, c: Id, run: Id)
    requires P.CallsInv(db) && AmountsAgree(db) && a in db.assignments && c in db.calls && c !in C.UsageOf(db, a)
    requires db.calls[c].assignment != a && db.calls[c].status.Completed? && AssignmentInRun(db, db.calls[c].assignment, run)
    requires RecordedCost(db, c).Some?
    ensures var r := C.RecordCall(db, a, c, None);
      && r.Ok? && C.Observed(r.value, run) == C.Observed(db, run) - RecordedCost(db, c).value
      && Total(KnownCosts(r.value, run)) == Total(KnownCosts(db, run))
  {
    hide *;
    ElsewhereAnatomy(db, a, c);
    var after := C.RecordCall(db, a, c, None).value;
    OwnAmount(db, c);
    ForgottenBy(db, c, run, after);
    forall d | d in db.calls ensures d in after.calls && CostIn(after, run, d) == CostIn(db, run, d) {
      CostStays(db, a, c, run, after, d);
    }
    SameKnown(db, after, run);
  }

  lemma {:induction false} SameKnown(db: Db, after: Db, run: Id)
    requires after.calls.Keys == db.calls.Keys && forall d :: d in db.calls ==> CostIn(after, run, d) == CostIn(db, run, d)
    ensures KnownCosts(after, run) == KnownCosts(db, run)
  {
    hide CostIn;
  }

  lemma {:induction false} ElsewhereAnatomy(db: Db, a: Id, c: Id)
    requires a in db.assignments && c in db.calls && c !in C.UsageOf(db, a) && db.calls[c].status.Completed?
    ensures var r := C.RecordCall(db, a, c, None);
      && r.Ok? && r.value.calls == db.calls[c := db.calls[c].(amount := None)]
      && r.value.callUsage == db.callUsage[a := C.UsageOf(db, a)[c := CallUsage(0, 0, 0, 0.0, false)]]
      && r.value.assignments == db.assignments && r.value.attempts == db.attempts && r.value.tasks == db.tasks
  {
    StoredRow(None, db.assignments[a].pricing);
    hide C.UsageRow;
  }

  lemma {:induction false} ForgottenBy(db: Db, c: Id, run: Id, after: Db)
    requires c in db.calls && db.calls[c].status.Completed? && db.calls[c].amount.Some?
    requires AssignmentInRun(db, db.calls[c].assignment, run)
    requires after.calls == db.calls[c := db.calls[c].(amount := None)]
    requires after.assignments == db.assignments && after.attempts == db.attempts && after.tasks == db.tasks
    ensures C.Observed(after, run) == C.Observed(db, run) - db.calls[c].amount.value
  {
    SumPut(db.calls, C.ObservedIn(db, run), c, after.calls[c]);
    SameOwners(db, after, run);
  }

  lemma {:induction false} CostStays(db: Db, a: Id, c: Id, run: Id, after: Db, d: Id)
    requires c in db.calls && d in db.calls && db.calls[c].assignment != a
    requires after.calls == db.calls[c := db.calls[c].(amount := None)]
    requires after.callUsage == db.callUsage[a := C.UsageOf(db, a)[c := CallUsage(0, 0, 0, 0.0, false)]]
    requires after.assignments == db.assignments && after.attempts == db.attempts && after.tasks == db.tasks
    ensures d in after.calls && CostIn(after, run, d) == CostIn(db, run, d)
  {
    if d == c {
      RowOfTheCall(db, a, c, CallUsage(0, 0, 0, 0.0, false), after);
    } else {
      OtherRowsStay(db, a, c, CallUsage(0, 0, 0, 0.0, false), after, d);
    }
    hide RecordedCost;
  }

  /** One run with a limit of 1 and two assignments of one attempt; the call of the first has cost 2,
      and the second is priced at nothing that is known. */
  const OVERRUN := EMPTY.(
    runs := map[0 := RunRow(0, Some(1.0))], tasks := map[0 := TaskRow(0, Queued, 0)],
    attempts := map[0 := AttemptRow(0, 1, AttemptAssigned, 0)],
    assignments := map[0 := Assignment(0, 0, 0, 1.0, None, 0, Pricing(Some(2.0), Some(2.0), None), None, 0),
                       1 := Assignment(0, 0, 0, 0.0, None, 1, Pricing(None, None, None), Some(0), 1)],
    calls := map[0 := Call(0, 0, 1, Completed, Some(2.0))],
    callUsage := map[0 := map[0 := CallUsage(1000000, 0, 0, 2.0, true)]])

  /** Recording that call once more under the other assignment makes the guard forget its cost. */
  lemma {:induction false} RecordedElsewhereIsForgotten()
    ensures AmountsAgree(OVERRUN) && Total(KnownCosts(OVERRUN, 0)) == 2.0 && C.Observed(OVERRUN, 0) == 2.0
    ensures var r := C.RecordCall(OVERRUN, 1, 0, None);
      r.Ok? && Total(KnownCosts(r.value, 0)) == 2.0 && C.Observed(r.value, 0) == 0.0
  {
    OverrunRecorded();
    OneCall(OVERRUN, 0);
    OneCall(C.RecordCall(OVERRUN, 1, 0, None).value, 0);
    hide C.RecordCall, C.Observed, KnownCosts;
  }

  lemma {:induction false} OverrunRecorded()
    ensures AmountsAgree(OVERRUN) && CostIn(OVERRUN, 0, 0) == 2.0 && C.ObservedIn(OVERRUN, 0)(OVERRUN.calls[0]) == 2.0
    ensures var r := C.RecordCall(OVERRUN, 1, 0, None);
      && r.Ok? && r.value.calls.Keys == {0}
      && CostIn(r.value, 0, 0) == 2.0 && C.ObservedIn(r.value, 0)(r.value.calls[0]) == 0.0
  {
    ElsewhereAnatomy(OVERRUN, 1, 0);
    hide C.RecordCall;
    CostStays(OVERRUN, 1, 0, 0, C.RecordCall(OVERRUN, 1, 0, None).value, 0);
  }

  lemma {:induction false} OneCall(db: Db, run: Id)
    requires db.calls.Keys == {0}
    ensures C.Observed(db, run) == C.ObservedIn(db, run)(db.calls[0])
    ensures Total(KnownCosts(db, run)) == CostIn(db, run, 0)
  {
    SumWithout(db.calls, C.ObservedIn(db, run), 0);
    assert (db.calls - {0}).Keys == {};
    var costs := KnownCosts(db, run);
    SumWithout(costs, (x: real) => x, 0);
    assert (costs - {0}).Keys == {};
  }
}
