/** What becomes of a provider call: its status after every transaction, and what each mark is refused
    for (routing/assignment.py, AssignmentUsageSettler). */
module CallOutcomes {
  import opened Prelude
  import opened Journals
  import C = Calls
  import P = CallProtocol
  import O = ObservedCosts
  import opened Histories

  /** What a transaction makes of a call that has started. */
  function Outcome(db: Db, step: Step, c: Id): CallStatus
    requires c in db.calls
  {
    match step
    case MarkSucceeded(d) => if d == c then Completed else Started
    case RecordCall(a, d, _) => if d == c && a in db.assignments then Completed else Started
    case MarkAmbiguous(d) => if d == c then Ambiguous else Started
    case MarkUnreturned(a) => if db.calls[c].assignment == a then Ambiguous else Started
    case MarkRejected(d, rejected) => if d == c && rejected then Rejected else Started
    case _ => Started
  }

  /** The row of a call after a transaction. */
  ghost predicate Follows(db: Db, step: Step, after: Db, c: Id) {
    && (c in db.calls ==> c in after.calls)
    && (c in db.calls && db.calls[c].status == Started ==> after.calls[c].status == Outcome(db, step, c))
    && (c in db.calls && db.calls[c].status != Started ==> after.calls[c].status == db.calls[c].status)
    && (c !in db.calls && c in after.calls ==> after.calls[c].status == Started)
  }

  lemma {:induction false} Begun(db: Db, a: Id, key: Id, call: Id, c: Id)
    requires P.FreshCall(db, call)
    ensures var r := C.BeginCall(db, a, key, call);
      Follows(db, BeginCall(a, key, call), After(db, r), c)
  {
    var r := C.BeginCall(db, a, key, call);
    if r.Ok? {
      P.BeginNeeds(db, a, key, call, r.value);
    }
    hide C.BeginCall;
  }

  lemma {:induction false} OneCall(db: Db, step: Step, after: Db, d: Id, status: CallStatus, c: Id)
    requires after.calls == if d in db.calls && db.calls[d].status == Started then db.calls[d := db.calls[d].(status := status)] else db.calls
    requires c in db.calls && db.calls[c].status == Started ==> Outcome(db, step, c) == if c == d then status else Started
    ensures Follows(db, step, after, c)
  {
    hide Outcome;
  }

  lemma {:induction false} SucceededRow(db: Db, d: Id)
    ensures After(db, C.MarkSucceeded(db, d)).calls ==
      if d in db.calls && db.calls[d].status == Started then db.calls[d := db.calls[d].(status := Completed)] else db.calls
  {
    hide C.CallsOnly;
  }

  lemma {:induction false} DoubtedRow(db: Db, d: Id)
    ensures After(db, C.MarkAmbiguous(db, d)).calls ==
      if d in db.calls && db.calls[d].status == Started then db.calls[d := db.calls[d].(status := Ambiguous)] else db.calls
  {
    hide C.CallsOnly, C.WithFailure;
    if d in db.calls && db.calls[d].status == Ambiguous {
      assert db.calls[d := db.calls[d].(status := Ambiguous)] == db.calls;
    }
  }

  lemma {:induction false} RefusedRow(db: Db, d: Id, rejected: bool)
    ensures After(db, C.MarkRejected(db, d, rejected)).calls ==
      if rejected && d in db.calls && db.calls[d].status == Started then db.calls[d := db.calls[d].(status := Rejected)] else db.calls
  {
    hide C.CallsOnly;
  }

  lemma {:induction false} LeftOpen(db: Db, a: Id, c: Id)
    ensures Follows(db, MarkUnreturned(a), C.MarkUnreturned(db, a), c)
  {
  }

  lemma {:induction false} RecordAccepted(db: Db, a: Id, d: Id, tokens: Option<C.Tokens>)
    requires P.CallsInv(db)
    ensures var r := C.RecordCall(db, a, d, tokens);
      && (d in db.calls && db.calls[d].status == Started && a in db.assignments ==> r.Ok? && d !in C.UsageOf(db, a))
      && (a !in db.assignments ==> r.Err?)
      && (r.Ok? && d !in C.UsageOf(db, a) && d in db.calls ==> db.calls[d].status in {Started, Completed})
  {
    if d in db.calls {
      P.NoUsageUnlessCompleted(db, d);
    }
    hide P.CallsInv, C.UsageRow, C.CallsOnly;
  }

  lemma {:induction false} RecordedRow(db: Db, a: Id, d: Id, tokens: Option<C.Tokens>)
    requires P.CallsInv(db)
    ensures var after := After(db, C.RecordCall(db, a, d, tokens)).calls;
      && after.Keys == db.calls.Keys && (forall c :: c in db.calls && c != d ==> after[c] == db.calls[c])
      && (d in db.calls ==>
            after[d].status == if db.calls[d].status == Started && a in db.assignments then Completed else db.calls[d].status)
  {
    RecordAccepted(db, a, d, tokens);
    var r := C.RecordCall(db, a, d, tokens);
    if r.Ok? {
      O.RecordAnatomy(db, a, d, tokens, r.value);
    }
    hide P.CallsInv, C.UsageRow, C.RecordCall, C.UsageOf, O.KnownAmount;
  }

  lemma {:induction false} Recorded(db: Db, a: Id, d: Id, tokens: Option<C.Tokens>, c: Id)
    requires P.CallsInv(db)
    ensures Follows(db, RecordCall(a, d, tokens), After(db, C.RecordCall(db, a, d, tokens)), c)
  {
    RecordedRow(db, a, d, tokens);
    hide P.CallsInv, C.RecordCall, After;
  }

  lemma {:induction false} MarkFollows(db: Db, percent: real, step: Step, c: Id)
    requires step.MarkSucceeded? || step.MarkAmbiguous? || step.MarkRejected?
    ensures Follows(db, step, Apply(db, percent, step), c)
  {
    hide Follows, After, C.MarkSucceeded, C.MarkAmbiguous, C.MarkRejected, C.CallsOnly;
    match step
    case MarkSucceeded(d) =>
      SucceededRow(db, d);
      OneCall(db, step, Apply(db, percent, step), d, Completed, c);
    case MarkAmbiguous(d) =>
      DoubtedRow(db, d);
      OneCall(db, step, Apply(db, percent, step), d, Ambiguous, c);
    case MarkRejected(d, rejected) =>
      RefusedRow(db, d, rejected);
      OneCall(db, step, Apply(db, percent, step), d, if rejected then Rejected else Started, c);
  }

  lemma {:induction false} CallStepFollows(db: Db, percent: real, step: Step, c: Id)
    requires P.CallsInv(db) && Legal(db, step) && IsCallStep(step)
    ensures Follows(db, step, Apply(db, percent, step), c)
  {
    if step.MarkSucceeded? || step.MarkAmbiguous? || step.MarkRejected? {
      MarkFollows(db, percent, step, c);
    } else {
      hide Follows, After, P.CallsInv, C.BeginCall, C.MarkUnreturned, C.RecordCall, C.CallsOnly;
      match step
      case BeginCall(a, key, call) => Begun(db, a, key, call, c);
      case MarkUnreturned(a) => LeftOpen(db, a, c);
      case RecordCall(a, d, tokens) => Recorded(db, a, d, tokens, c);
    }
  }

  lemma {:induction false} SameCallsFollow(db: Db, step: Step, after: Db, c: Id)
    requires !IsCallStep(step) && after.calls == db.calls
    ensures Follows(db, step, after, c)
  {
  }

  /** A started call becomes what the transaction says; any other keeps its status; and a call that
      begins has started. */
  lemma {:induction false} StatusAfter(db: Db, percent: real, step: Step, c: Id)
    requires P.CallsInv(db) && Legal(db, step)
    ensures Follows(db, step, Apply(db, percent, step), c)
  {
    hide *;
    if IsCallStep(step) {
      CallStepFollows(db, percent, step, c);
    } else {
      O.OtherStepsLeaveCalls(db, percent, step);
      SameCallsFollow(db, step, Apply(db, percent, step), c);
    }
  }

  /** A mark is refused for an unknown call, for a final one that it contradicts, and a rejection also
      for an error that is not the provider's definite refusal. */
  lemma {:induction false} MarksRefused(db: Db, c: Id, rejected: bool)
    ensures C.MarkSucceeded(db, c).Ok? <==> c in db.calls && db.calls[c].status in {Started, Completed}
    ensures C.MarkAmbiguous(db, c).Ok? <==> c in db.calls
    ensures C.MarkRejected(db, c, rejected).Ok? <==> rejected && c in db.calls && db.calls[c].status in {Started, Rejected}
  {
  }

  // ----- Which call begins -----

  ghost predicate OfRun(db: Db, a: Id, run: Id) {
    && a in db.assignments && db.assignments[a].attempt in db.attempts
    && db.attempts[db.assignments[a].attempt].task in db.tasks
    && db.tasks[db.attempts[db.assignments[a].attempt].task].run == run
  }

  ghost predicate KeyInUse(db: Db, a: Id, key: Id) {
    exists c :: c in db.calls && db.calls[c].assignment == a && db.calls[c].executionKey == key
  }

  /** A call of the run waits to be reconciled, or a settlement in it has failed. */
  ghost predicate InDoubt(db: Db, run: Id) {
    || (exists c :: c in db.calls && OfRun(db, db.calls[c].assignment, run) && c in db.failures && db.failures[c] == Open)
    || (exists b :: OfRun(db, b, run) && b in db.unsettled && db.unsettled[b] != 0)
  }

  ghost predicate LimitReached(db: Db, run: Id) {
    run in db.runs && db.runs[run].limit.Some? && Total(O.KnownCosts(db, run)) >= db.runs[run].limit.value
  }

  ghost predicate HoldsMoney(db: Db, a: Id)
    requires a in db.assignments
  {
    db.assignments[a].reservation in db.reservations && db.reservations[db.assignments[a].reservation].status == Reserved
  }

  /** It is the first of its assignment, or comes right after the latest. */
  ghost predicate ComesNext(db: Db, a: Id, ordinal: nat) {
    && (forall c :: c in db.calls && db.calls[c].assignment == a ==> db.calls[c].ordinal < ordinal)
    && (ordinal == 1 || exists c :: c in db.calls && db.calls[c].assignment == a && db.calls[c].ordinal == ordinal - 1)
  }

  lemma {:induction false} DoubtExactly(db: Db, run: Id)
    ensures C.Uncertain(db, run) <==> InDoubt(db, run)
  {
    forall a ensures AssignmentInRun(db, a, run) <==> OfRun(db, a, run) { }
    hide AssignmentInRun, OfRun;
  }

  lemma {:induction false} MaxIsTaken(calls: map<Id, Call>, among: set<Id>)
    requires among != {} && forall c :: c in among ==> c in calls
    ensures exists c :: c in among && calls[c].ordinal == C.MaxOrdinal(calls, among)
    decreases among
  {
    var c := Least(among);
    if among - {c} == {} {
      assert C.MaxOrdinal(calls, among - {c}) == 0;
    } else {
      MaxIsTaken(calls, among - {c});
    }
  }

  lemma {:induction false} OrdinalComesNext(db: Db, a: Id)
    ensures ComesNext(db, a, C.NextOrdinal(db, a))
  {
    var own := set c | c in db.calls && db.calls[c].assignment == a;
    if own != {} {
      MaxIsTaken(db.calls, own);
    }
  }

  /** A new call of an assignment: refused for a key that the assignment has used, for what is in doubt in
      its run, for a limit that known costs have reached, and for a reservation that is not open, in this
      order; and otherwise begun. */
  lemma {:induction false} BeginAnswers(db: Db, a: Id, key: Id, call: Id, run: Id)
    requires O.AmountsAgree(db) && OfRun(db, a, run) && call !in db.calls
    ensures var r := C.BeginCall(db, a, key, call);
      if KeyInUse(db, a, key) then r == Err(C.ReplayBlocked)
      else if InDoubt(db, run) then r == Err(C.OpenFailure)
      else if LimitReached(db, run) then r == Err(C.BudgetExhausted)
      else if !HoldsMoney(db, a) then r == Err(C.NoFundedReservation)
      else
        r.Ok? && call in r.value.calls && ComesNext(db, a, r.value.calls[call].ordinal)
        && r.value == db.(calls := db.calls[call := Call(a, key, r.value.calls[call].ordinal, Started, None)])
  {
    DoubtExactly(db, run);
    O.ObservedIsKnown(db, run);
    OrdinalComesNext(db, a);
    hide C.Uncertain, InDoubt, C.Observed, O.KnownCosts, C.NextOrdinal, ComesNext, O.AmountsAgree, C.CallsOnly;
  }

  // ----- Over a run -----

  /** Some transaction of the run, made while the call had started, gives it the outcome. */
  ghost predicate Decided(db: Db, percent: real, steps: seq<Step>, c: Id, outcome: CallStatus)
    requires LegalRun(db, percent, steps)
    decreases |steps|
  {
    steps != [] &&
    if c in db.calls && db.calls[c].status == Started && Outcome(db, steps[0], c) != Started then Outcome(db, steps[0], c) == outcome
    else Decided(Apply(db, percent, steps[0]), percent, steps[1..], c, outcome)
  }

  /** A call is completed, ambiguous or rejected exactly when the first transaction
      that decided it, after it began, says so. */
  lemma {:induction false} FirstOutcomeStands(db: Db, percent: real, steps: seq<Step>, c: Id, outcome: CallStatus)
    requires Sound(db) && LegalRun(db, percent, steps) && outcome != Started
    requires c in db.calls ==> db.calls[c].status == Started
    ensures var later := Run(db, percent, steps);
      c in later.calls && later.calls[c].status == outcome <==> Decided(db, percent, steps, c, outcome)
    decreases |steps|
  {
    hide Sound, Outcome, Apply, Legal, Evolves;
    if steps != [] {
      SoundParts(db);
      StatusAfter(db, percent, steps[0], c);
      StepKeepsSound(db, percent, steps[0]);
      var after := Apply(db, percent, steps[0]);
      if c in after.calls && after.calls[c].status != Started {
        OutcomesAreFinal(after, percent, steps[1..], c);
      } else {
        FirstOutcomeStands(after, percent, steps[1..], c, outcome);
      }
    }
  }

  /** From a new journal. */
  lemma {:induction false} FirstOutcomeFromTheStart(percent: real, steps: seq<Step>, c: Id, outcome: CallStatus)
    requires LegalRun(EMPTY, percent, steps) && outcome != Started
    ensures var later := Run(EMPTY, percent, steps);
      c in later.calls && later.calls[c].status == outcome <==> Decided(EMPTY, percent, steps, c, outcome)
  {
    hide Sound, Inv, Run, LegalRun, Decided;
    EmptyInv();
    FirstOutcomeStands(EMPTY, percent, steps, c, outcome);
  }
}
