/** What reconciling the ambiguous calls of an attempt comes to: the previewed amount, whatever the
    order. */
module Reconciliations {
  import opened Prelude
  import opened Journals
  import opened Ledgers
  import opened Chains
  import opened Calls
  import opened CallProtocol

  predicate IsSettled(db: Db, a: Id) {
    && a in db.assignments && db.assignments[a].reservation in db.reservations
    && db.reservations[db.assignments[a].reservation].status.Settled?
  }

  /** Nothing of the attempt waits for an outcome any more. */
  predicate NothingOpen(db: Db, a: Id) {
    OpenCalls(db, a) == {} && UnsettledCount(db, a) == 0
  }

  function EstimateOf(db: Db, a: Id): real
    requires a in db.assignments
  {
    Max(db.assignments[a].estimated, KnownCost(db, a))
  }

  predicate Reconcilable(db: Db, c: Id, a: Id) {
    CallOf(db, c, a) && db.calls[c].status.Ambiguous? && c in db.failures && a in db.assignments
    && db.assignments[a].reservation in db.reservations
  }

  lemma {:induction false} StateAnatomy(db: Db, session: Id, c: Id, state: (Reconciliation, FailureStatus))
    requires ReconciliationState(db, session, c) == Ok(state)
    ensures Reconcilable(db, c, state.0.assignment) && state.1 == db.failures[c]
    ensures state.0.cost == EstimateOf(db, state.0.assignment) && state.0.settled == IsSettled(db, state.0.assignment)
    ensures state.0.remaining == 0 <==> NothingOpen(db, state.0.assignment)
  {
    hide KnownCost;
  }

  lemma {:induction false} MarkingKeepsCosts(db: Db, c: Id, a: Id)
    requires a in db.assignments
    ensures KnownCost(Estimate(db, c), a) == KnownCost(db, a)
    ensures AllMeasured(Estimate(db, c), a) == AllMeasured(db, a)
    ensures IsSettled(Estimate(db, c), a) == IsSettled(db, a)
  {
    var marked := Estimate(db, c);
    assert UsageOf(marked, a) == UsageOf(db, a);
    assert Unaccounted(marked, a) == Unaccounted(db, a);
  }

  /** An ambiguous call is not measured, so its attempt settles at the estimate. */
  lemma {:induction false} AmbiguousIsUnaccounted(db: Db, c: Id, a: Id)
    requires UsageSound(db) && CallOf(db, c, a) && db.calls[c].status.Ambiguous? && a in db.assignments
    ensures !AllMeasured(db, a) && SettledCost(db, a) == EstimateOf(db, a)
  {
    hide KnownCost;
    assert c !in UsageOf(db, a);
  }

  /** A settlement touches the ledger only. */
  lemma {:induction false} SettlingTouchesTheLedger(db: Db, percent: real, a: Id, reconciled: bool, after: Db)
    requires a in db.assignments && SettleUsage(db, percent, a, reconciled) == Ok(after)
    ensures after == db.(reservations := after.reservations, usage := after.usage, warnings := after.warnings)
  {
    hide SettledCost, SettledAuthority, SettleBooks, UpdateWarning;
    var cost, authority := SettledCost(db, a), SettledAuthority(db, a, reconciled);
    var r := db.assignments[a].reservation;
    WarningOnly(WithBooks(db, SettleBooks(BooksOf(db), r, a, cost, authority, a).value), percent, db.reservations[r].run);
  }

  /** The two ways in which a reconciliation succeeds. */
  lemma {:induction false} ReconcileAnatomy(db: Db, percent: real, session: Id, c: Id, after: Db, result: Reconciliation)
    requires Reconcile(db, percent, session, c) == Ok((after, result))
    ensures var a := result.assignment;
      && Reconcilable(db, c, a)
      && ReconciliationState(db, session, c).Ok? && ReconciliationState(db, session, c).value.0.assignment == a
      && (IsSettled(db, a) ==> after == db && db.failures[c].Estimated? && result.settled && result.cost == EstimateOf(db, a))
      && (!IsSettled(db, a) && NothingOpen(Estimate(db, c), a) ==>
            SettleUsage(Estimate(db, c), percent, a, true) == Ok(after) && a in after.assignments
            && result.cost == EstimateOf(after, a) && result.settled == IsSettled(after, a))
      && (!IsSettled(db, a) && !NothingOpen(Estimate(db, c), a) ==>
            after == Estimate(db, c) && result.cost == EstimateOf(after, a) && !result.settled)
  {
    hide KnownCost, SettleUsage, ReconciliationState, NothingOpen;
    var before := ReconciliationState(db, session, c).value;
    StateAnatomy(db, session, c, before);
    if !before.0.settled {
      var marked := Estimate(db, c);
      var state := ReconciliationState(marked, session, c).value;
      StateAnatomy(marked, session, c, state);
      if state.0.remaining == 0 {
        SettlingTouchesTheLedger(marked, percent, state.0.assignment, true, after);
        StateAnatomy(after, session, c, ReconciliationState(after, session, c).value);
      }
    }
  }

  lemma {:induction false} LedgerStepKeepsCosts(db: Db, after: Db, a: Id)
    requires after == db.(reservations := after.reservations, usage := after.usage, warnings := after.warnings)
    requires a in db.assignments
    ensures EstimateOf(after, a) == EstimateOf(db, a)
  {
  }

  /** An unsettled attempt has no usage record yet, and settling makes one of exactly the cost. */
  lemma {:induction false} SettlingRecords(db: Db, percent: real, a: Id, reconciled: bool, after: Db)
    requires BooksOf(db).Matched() && a in db.assignments && db.assignments[a].reservation in db.reservations && !IsSettled(db, a)
    ensures SettleUsage(db, percent, a, reconciled) == Ok(after) ==>
      var r := db.assignments[a].reservation;
      r !in db.usage && r in after.usage && after.usage[r].amount == SettledCost(db, a) && IsSettled(after, a)
  {
    hide SettledCost, UpdateWarning, AllMeasured;
    if SettleUsage(db, percent, a, reconciled) == Ok(after) {
      var r := db.assignments[a].reservation;
      assert db.reservations[r].status.Settled? <==> r in db.usage;
      var cost, authority := SettledCost(db, a), SettledAuthority(db, a, reconciled);
      WarningOnly(WithBooks(db, SettleBooks(BooksOf(db), r, a, cost, authority, a).value), percent, db.reservations[r].run);
    }
  }

  /** A first settlement costs the sum of the call costs when every call is measured, and otherwise at
      least that sum and at least the frozen estimate. */
  lemma {:induction false} SettledAmount(db: Db, percent: real, a: Id, reconciled: bool, after: Db)
    requires BooksOf(db).Matched() && a in db.assignments && db.assignments[a].reservation in db.reservations && !IsSettled(db, a)
    ensures SettleUsage(db, percent, a, reconciled) == Ok(after) ==>
      var r := db.assignments[a].reservation;
      && r in after.usage
      && (AllMeasured(db, a) ==> after.usage[r].amount == KnownCost(db, a))
      && (!AllMeasured(db, a) ==> after.usage[r].amount >= KnownCost(db, a) && after.usage[r].amount >= db.assignments[a].estimated)
  {
    hide SettleUsage, KnownCost, AllMeasured;
    SettlingRecords(db, percent, a, reconciled, after);
  }

  /** The amount that the preview shows is the amount that reconciling reports and, once no open call
      is left, settles. */
  lemma {:induction false} PreviewIsApplied(db: Db, percent: real, session: Id, c: Id, after: Db, result: Reconciliation)
    requires UsageSound(db) && BooksOf(db).Matched()
    requires Reconcile(db, percent, session, c) == Ok((after, result))
    ensures Preview(db, session, c).Ok? && c in db.calls && result.assignment in db.assignments
    ensures var p, r := Preview(db, session, c).value, db.assignments[result.assignment].reservation;
      && p.assignment == result.assignment && p.cost == result.cost
      && (p.settled ==> after == db)
      && (!p.settled ==> (result.settled <==> NothingOpen(Estimate(db, c), p.assignment)))
      && (!p.settled && result.settled ==> r !in db.usage && r in after.usage && after.usage[r].amount == p.cost)
  {
    hide Reconcile, SettleUsage, KnownCost, NothingOpen, AllMeasured, SettledCost, ReconciliationState;
    ReconcileAnatomy(db, percent, session, c, after, result);
    var a := result.assignment;
    StateAnatomy(db, session, c, ReconciliationState(db, session, c).value);
    var marked := Estimate(db, c);
    MarkingKeepsCosts(db, c, a);
    if !IsSettled(db, a) && NothingOpen(marked, a) {
      SettlingTouchesTheLedger(marked, percent, a, true, after);
      LedgerStepKeepsCosts(marked, after, a);
      SettlingRecords(marked, percent, a, true, after);
      AmbiguousIsUnaccounted(db, c, a);
      MarkingKeepsSettledCost(db, c, a);
    }
  }

  lemma {:induction false} MarkingKeepsSettledCost(db: Db, c: Id, a: Id)
    requires a in db.assignments
    ensures SettledCost(Estimate(db, c), a) == SettledCost(db, a) && EstimateOf(Estimate(db, c), a) == EstimateOf(db, a)
  {
    hide KnownCost, AllMeasured;
    MarkingKeepsCosts(db, c, a);
  }

  // ----- Any order, with repeats -----

  function Members(cs: seq<Id>): set<Id> {
    set c | c in cs
  }

  function StateAfter(r: Result<(Db, Reconciliation), CallError>): Result<Db, CallError> {
    if r.Ok? then Ok(r.value.0) else Err(r.error)
  }

  /** Reconciling one call after another, with nothing in between. */
  function ReconcileAll(db: Db, percent: real, session: Id, cs: seq<Id>): Result<Db, CallError>
    decreases |cs|
  {
    if cs == [] then Ok(db)
    else
      var step :- StateAfter(Reconcile(db, percent, session, cs[0]));
      ReconcileAll(step, percent, session, cs[1..])
  }

  function EstimateEach(db: Db, cs: set<Id>): Db {
    db.(failures := map c | c in db.failures :: if c in cs then Estimated else db.failures[c])
  }

  ghost predicate AllEstimated(db: Db, cs: set<Id>) {
    forall c :: c in cs ==> c in db.failures && db.failures[c].Estimated?
  }

  /** What reconciling a set of calls of one attempt comes to, without regard to any order. */
  ghost function Reconciled(db: Db, percent: real, a: Id, cs: set<Id>): Result<Db, CallError>
    requires a in db.assignments
  {
    if cs == {} then Ok(db)
    else if IsSettled(db, a) then if AllEstimated(db, cs) then Ok(db) else Err(SettledWithoutCall)
    else if !NothingOpen(EstimateEach(db, cs), a) then Ok(EstimateEach(db, cs))
    else
      match SettleUsage(EstimateEach(db, cs), percent, a, true)
      case Ok(after) => Ok(after)
      case Err(e) => Err(SettlementFailed(e))
  }

  /** The call can be previewed, as one of the attempt. */
  predicate Previewed(db: Db, session: Id, c: Id, a: Id) {
    Preview(db, session, c).Ok? && Preview(db, session, c).value.assignment == a
  }

  ghost predicate AllPreviewed(db: Db, session: Id, cs: set<Id>, a: Id) {
    forall c :: c in cs ==> Previewed(db, session, c, a)
  }

  /** Estimating and settling change the ledger and the marks of failures; no row goes away. */
  predicate SameRows(db: Db, after: Db) {
    && after == db.(failures := after.failures, reservations := after.reservations, usage := after.usage, warnings := after.warnings)
    && after.failures.Keys == db.failures.Keys && after.reservations.Keys == db.reservations.Keys
  }

  lemma {:induction false} PreviewStays(db: Db, after: Db, session: Id, c: Id, a: Id)
    requires SameRows(db, after)
    ensures Previewed(after, session, c, a) <==> Previewed(db, session, c, a)
    ensures Preview(after, session, c).Ok? <==> Preview(db, session, c).Ok?
  {
    hide KnownCost, OpenCalls;
    assert CallInSession(after, c, session) <==> CallInSession(db, c, session);
  }

  lemma {:induction false} AllPreviewsStay(db: Db, after: Db, session: Id, cs: set<Id>, a: Id)
    requires SameRows(db, after) && AllPreviewed(db, session, cs, a)
    ensures AllPreviewed(after, session, cs, a)
  {
    hide SameRows, Previewed;
    forall c | c in cs ensures Previewed(after, session, c, a) {
      PreviewStays(db, after, session, c, a);
    }
  }

  lemma {:induction false} PreviewedIsReconcilable(db: Db, session: Id, c: Id, a: Id)
    requires Previewed(db, session, c, a)
    ensures Reconcilable(db, c, a) && ReconciliationState(db, session, c).Ok?
    ensures ReconciliationState(db, session, c).value.0.assignment == a
    ensures Preview(db, session, c).value.cost == EstimateOf(db, a)
  {
    hide ReconciliationState;
    StateAnatomy(db, session, c, ReconciliationState(db, session, c).value);
  }

  lemma {:induction false} EstimateIsEach(db: Db, c: Id)
    requires c in db.failures
    ensures Estimate(db, c) == EstimateEach(db, {c})
  {
  }

  lemma {:induction false} EachTogether(db: Db, xs: set<Id>, ys: set<Id>)
    ensures EstimateEach(EstimateEach(db, xs), ys) == EstimateEach(db, xs + ys)
  {
  }

  lemma {:induction false} EachKeeps(db: Db, cs: set<Id>, a: Id)
    requires a in db.assignments
    ensures var marked := EstimateEach(db, cs);
      && SameRows(db, marked) && BooksOf(marked) == BooksOf(db) && marked.assignments == db.assignments
      && IsSettled(marked, a) == IsSettled(db, a) && EstimateOf(marked, a) == EstimateOf(db, a)
      && (UsageSound(db) ==> UsageSound(marked))
  {
    var marked := EstimateEach(db, cs);
    assert forall x :: UsageOf(marked, x) == UsageOf(db, x);
  }

  /** When nothing is open after estimating some ambiguous calls, all of them are estimated. */
  lemma {:induction false} NothingMoreToEstimate(db: Db, session: Id, xs: set<Id>, ys: set<Id>, a: Id)
    requires AllPreviewed(db, session, ys, a) && NothingOpen(EstimateEach(db, xs), a)
    ensures AllEstimated(EstimateEach(db, xs), ys)
    ensures EstimateEach(db, xs + ys) == EstimateEach(db, xs)
  {
    var marked := EstimateEach(db, xs);
    forall c | c in ys ensures c in marked.failures && marked.failures[c] == FailureStatus.Estimated {
      PreviewedIsReconcilable(db, session, c, a);
      assert c !in OpenCalls(marked, a);
    }
  }

  /** A settlement of an attempt that was not settled. */
  lemma {:induction false} SettlingKeepsRows(db: Db, percent: real, a: Id, after: Db)
    requires BooksOf(db).Matched() && a in db.assignments && db.assignments[a].reservation in db.reservations && !IsSettled(db, a)
    requires SettleUsage(db, percent, a, true) == Ok(after)
    ensures SameRows(db, after) && after.failures == db.failures && IsSettled(after, a)
  {
    hide SettledCost, UpdateWarning;
    SettlingTouchesTheLedger(db, percent, a, true, after);
    SettlingRecords(db, percent, a, true, after);
    var cost, authority := SettledCost(db, a), SettledAuthority(db, a, true);
    var r := db.assignments[a].reservation;
    WarningOnly(WithBooks(db, SettleBooks(BooksOf(db), r, a, cost, authority, a).value), percent, db.reservations[r].run);
  }

  lemma {:induction false} SettlesOrNot(db: Db, percent: real, session: Id, c: Id, a: Id)
    requires BooksOf(db).Matched() && Previewed(db, session, c, a) && a in db.assignments && !IsSettled(db, a)
    requires NothingOpen(Estimate(db, c), a)
    ensures var settled := SettleUsage(Estimate(db, c), percent, a, true);
      settled.Ok? ==> ReconciliationState(settled.value, session, c).Ok?
  {
    hide SettleUsage, NothingOpen, KnownCost, IsSettled, ReconciliationState;
    PreviewedIsReconcilable(db, session, c, a);
    EstimateIsEach(db, c);
    EachKeeps(db, {c}, a);
    var marked := Estimate(db, c);
    var settled := SettleUsage(marked, percent, a, true);
    if settled.Ok? {
      SettlingKeepsRows(marked, percent, a, settled.value);
      PreviewStays(db, marked, session, c, a);
      PreviewStays(marked, settled.value, session, c, a);
    }
  }

  /** One call on its own. */
  lemma {:induction false} ReconciledOne(db: Db, percent: real, session: Id, c: Id, a: Id)
    requires BooksOf(db).Matched() && Previewed(db, session, c, a) && a in db.assignments
    ensures StateAfter(Reconcile(db, percent, session, c)) == Reconciled(db, percent, a, {c})
  {
    hide SettleUsage, NothingOpen, KnownCost, IsSettled, ReconciliationState, EstimateEach, Estimate, Preview;
    PreviewedIsReconcilable(db, session, c, a);
    StateAnatomy(db, session, c, ReconciliationState(db, session, c).value);
    EstimateIsEach(db, c);
    EachKeeps(db, {c}, a);
    var marked := Estimate(db, c);
    PreviewStays(db, marked, session, c, a);
    PreviewedIsReconcilable(marked, session, c, a);
    StateAnatomy(marked, session, c, ReconciliationState(marked, session, c).value);
    if !IsSettled(db, a) && NothingOpen(marked, a) {
      SettlesOrNot(db, percent, session, c, a);
    }
  }

  /** Some of the calls first, and the others from the state that this leaves. */
  lemma {:induction false} ReconciledSplits(db: Db, percent: real, session: Id, a: Id, xs: set<Id>, ys: set<Id>)
    requires BooksOf(db).Matched() && a in db.assignments && xs != {}
    requires AllPreviewed(db, session, xs, a) && AllPreviewed(db, session, ys, a)
    ensures var first := Reconciled(db, percent, a, xs);
      if first.Err? then Reconciled(db, percent, a, xs + ys) == first
      else SameRows(db, first.value) && BooksOf(first.value).Matched()
           && Reconciled(db, percent, a, xs + ys) == Reconciled(first.value, percent, a, ys)
  {
    hide SettleUsage, NothingOpen, KnownCost, IsSettled, AllPreviewed, EstimateEach, Books.Matched, Reconcilable, Previewed, EstimateOf;
    var all := EstimateEach(db, xs);
    ReservationIsThere(db, session, xs, a);
    EachKeeps(db, xs, a);
    EachTogether(db, xs, ys);
    if !IsSettled(db, a) && NothingOpen(all, a) {
      NothingMoreToEstimate(db, session, xs, ys, a);
      var settled := SettleUsage(all, percent, a, true);
      if settled.Ok? {
        SettlingKeepsRows(all, percent, a, settled.value);
        SettlingKeepsMatched(all, percent, a, settled.value);
      }
    } else if !IsSettled(db, a) && ys == {} {
      assert xs + ys == xs;
    }
  }

  lemma {:induction false} ReservationIsThere(db: Db, session: Id, cs: set<Id>, a: Id)
    requires cs != {} && AllPreviewed(db, session, cs, a)
    ensures a in db.assignments && db.assignments[a].reservation in db.reservations
  {
    hide Previewed;
    var c :| c in cs;
    PreviewedIsReconcilable(db, session, c, a);
  }

  lemma {:induction false} SettlingKeepsMatched(db: Db, percent: real, a: Id, after: Db)
    requires BooksOf(db).Matched() && a in db.assignments && SettleUsage(db, percent, a, true) == Ok(after)
    ensures BooksOf(after).Matched()
  {
    hide SettledCost, UpdateWarning;
    var cost, authority := SettledCost(db, a), SettledAuthority(db, a, true);
    var r := db.assignments[a].reservation;
    WarningOnly(WithBooks(db, SettleBooks(BooksOf(db), r, a, cost, authority, a).value), percent, db.reservations[r].run);
  }

  /** Reconciling calls of an attempt one after another, in any order and with repeats, comes to
      estimating their set and settling once at the end, in the state and in the error. */
  lemma {:induction false} ReconcileAllIsReconciled(db: Db, percent: real, session: Id, a: Id, cs: seq<Id>)
    requires BooksOf(db).Matched() && a in db.assignments && AllPreviewed(db, session, Members(cs), a)
    ensures ReconcileAll(db, percent, session, cs) == Reconciled(db, percent, a, Members(cs))
    decreases |cs|
  {
    hide Reconcile, Previewed, Reconciled, Books.Matched, StateAfter;
    if cs == [] {
      assert Members(cs) == {};
      ReconciledNothing(db, percent, a);
    } else {
      var first, rest := cs[0], Members(cs[1..]);
      assert Members(cs) == {first} + rest;
      ReconciledOne(db, percent, session, first, a);
      ReconciledSplits(db, percent, session, a, {first}, rest);
      var step := Reconciled(db, percent, a, {first});
      if step.Ok? {
        AllPreviewsStay(db, step.value, session, rest, a);
        ReconcileAllIsReconciled(step.value, percent, session, a, cs[1..]);
      }
    }
  }

  lemma {:induction false} ReconciledNothing(db: Db, percent: real, a: Id)
    requires a in db.assignments
    ensures Reconciled(db, percent, a, {}) == Ok(db)
  {
  }

  /** A call that cannot be previewed makes every sequence fail that it occurs in. */
  lemma {:induction false} UnpreviewedFails(db: Db, percent: real, session: Id, cs: seq<Id>, c: Id)
    requires BooksOf(db).Matched() && c in cs && Preview(db, session, c).Err?
    ensures ReconcileAll(db, percent, session, cs).Err?
    decreases |cs|
  {
    hide Preview, Reconcile, Books.Matched, Reconciled;
    if Preview(db, session, cs[0]).Err? {
      FailsAlone(db, percent, session, cs[0]);
    } else {
      var a := Preview(db, session, cs[0]).value.assignment;
      assert AllPreviewed(db, session, {cs[0]}, a) && AllPreviewed(db, session, {}, a);
      ReservationIsThere(db, session, {cs[0]}, a);
      ReconciledOne(db, percent, session, cs[0], a);
      ReconciledSplits(db, percent, session, a, {cs[0]}, {});
      var step := Reconciled(db, percent, a, {cs[0]});
      if step.Ok? {
        PreviewStays(db, step.value, session, c, a);
        UnpreviewedFails(step.value, percent, session, cs[1..], c);
      }
    }
  }

  lemma {:induction false} FailsAlone(db: Db, percent: real, session: Id, c: Id)
    requires Preview(db, session, c).Err?
    ensures StateAfter(Reconcile(db, percent, session, c)).Err?
  {
    hide ReconciliationState, SettleUsage;
  }

  /** Two ways of going over the same calls of an attempt, in any order and with repeats, succeed
      or fail together, and when they succeed they end in the same state. */
  lemma {:induction false} OrderDoesNotMatter(db: Db, percent: real, session: Id, a: Id, xs: seq<Id>, ys: seq<Id>)
    requires BooksOf(db).Matched() && forall c :: c in xs ==> CallOf(db, c, a)
    requires forall c :: c in xs <==> c in ys
    ensures var one, other := ReconcileAll(db, percent, session, xs), ReconcileAll(db, percent, session, ys);
      && (one.Ok? <==> other.Ok?) && (one.Ok? ==> one.value == other.value)
      && ((forall c :: c in xs ==> Preview(db, session, c).Ok?) ==> one == other)
  {
    hide ReconcileAll, Reconciled, Books.Matched, ReconciliationState;
    assert Members(xs) == Members(ys);
    assert (xs != [] ==> xs[0] in xs) && (ys != [] ==> ys[0] in ys);
    if c :| c in xs && Preview(db, session, c).Err? {
      UnpreviewedFails(db, percent, session, xs, c);
      UnpreviewedFails(db, percent, session, ys, c);
    } else if xs == [] {
    } else {
      assert xs[0] in Members(xs);
      forall c | c in xs ensures Previewed(db, session, c, a) {
        StateAnatomy(db, session, c, ReconciliationState(db, session, c).value);
      }
      ReservationIsThere(db, session, Members(xs), a);
      ReconcileAllIsReconciled(db, percent, session, a, xs);
      ReconcileAllIsReconciled(db, percent, session, a, ys);
    }
  }

  /** The reservation of the attempt is open, and no usage record has taken the id. */
  predicate Settleable(db: Db, a: Id)
    requires a in db.assignments && db.assignments[a].reservation in db.reservations
  {
    && db.reservations[db.assignments[a].reservation].status.Reserved?
    && forall r :: r in db.usage ==> db.usage[r].usageId != a && db.usage[r].key != a
  }

  lemma {:induction false} SettlesIfSettleable(db: Db, percent: real, a: Id)
    requires BooksOf(db).Matched() && a in db.assignments && db.assignments[a].reservation in db.reservations && !IsSettled(db, a)
    ensures SettleUsage(db, percent, a, true).Ok? <==> Settleable(db, a)
  {
    hide SettledCost, UpdateWarning, AllMeasured;
    var r := db.assignments[a].reservation;
    assert db.reservations[r].status.Settled? <==> r in db.usage;
  }

  /** A sequence over an attempt that is not settled succeeds exactly when calls stay open or the
      attempt can be settled. It settles exactly when nothing is left open, at the amount that was
      previewed at the start for any of the calls. */
  lemma {:induction false} SettlesAtThePreview(db: Db, percent: real, session: Id, a: Id, cs: seq<Id>)
    requires UsageSound(db) && BooksOf(db).Matched() && a in db.assignments && !IsSettled(db, a)
    requires cs != [] && AllPreviewed(db, session, Members(cs), a)
    ensures var done, closed := ReconcileAll(db, percent, session, cs), NothingOpen(EstimateEach(db, Members(cs)), a);
      && db.assignments[a].reservation in db.reservations
      && (done.Ok? <==> !closed || Settleable(db, a))
      && (done.Ok? ==> a in done.value.assignments && (IsSettled(done.value, a) <==> closed))
      && (done.Ok? && closed ==>
            var r := db.assignments[a].reservation;
            && r !in db.usage && r in done.value.usage
            && forall c :: c in cs ==> Preview(db, session, c).Ok? && done.value.usage[r].amount == Preview(db, session, c).value.cost)
  {
    hide Reconcile, ReconcileAll, SettleUsage, NothingOpen, KnownCost, AllMeasured, EstimateOf, Preview, IsSettled, Settleable, Reconcilable;
    var all := Members(cs);
    assert cs[0] in all;
    ReservationIsThere(db, session, all, a);
    ReconcileAllIsReconciled(db, percent, session, a, cs);
    var marked := EstimateEach(db, all);
    EachKeeps(db, all, a);
    SameSettleable(db, marked, a);
    forall c | c in cs ensures Preview(db, session, c).Ok? && Preview(db, session, c).value.cost == EstimateOf(db, a) {
      assert c in all;
      PreviewedIsReconcilable(db, session, c, a);
    }
    if NothingOpen(marked, a) {
      SettlesIfSettleable(marked, percent, a);
      var done := SettleUsage(marked, percent, a, true);
      if done.Ok? {
        SettlingKeepsRows(marked, percent, a, done.value);
        SettlingRecords(marked, percent, a, true, done.value);
        PreviewStays(db, marked, session, cs[0], a);
        PreviewedIsReconcilable(marked, session, cs[0], a);
        AmbiguousIsUnaccounted(marked, cs[0], a);
      }
    }
  }

  lemma {:induction false} SameSettleable(db: Db, marked: Db, a: Id)
    requires a in db.assignments && db.assignments[a].reservation in db.reservations
    requires marked.assignments == db.assignments && BooksOf(marked) == BooksOf(db)
    ensures Settleable(marked, a) <==> Settleable(db, a)
  {
  }
}
