/** Whole runs of the control plane: any sequence of transactions over the shared tables. */
module Histories {
  import opened Prelude
  import opened Tasks
  import opened Journals
  import opened Ledgers
  import A = Assignments
  import S = Selector
  import opened Chains
  import B = Batches
  import C = Calls
  import P = CallProtocol
  import R = Recoveries
  import N = Reconciliations

  datatype Step =
    | CreateRun(run: Id, limit: Option<real>, session: Id)
    | CreateTask(task: Id, run: Id, key: Id)
    | CreateAttempt(attempt: Id, task: Id, number: int, key: Id)
    | MoveTask(task: Id, taskStatus: TaskStatus)
    | MoveAttempt(attempt: Id, attemptStatus: AttemptStatus)
    | ReserveMoney(booking: ReservationRequest, taskLimit: Option<real>, lead: real)
    | ReleaseMoney(reservation: Id)
    | SettleMoney(reservation: Id, usage: Id, cost: Option<Money>, authority: Authority, key: Id)
    | AssignModel(request: A.Request, offer: A.RoutingSnapshot, ids: A.Ids)
    | AssignModels(requests: seq<A.Request>, offers: seq<A.RoutingSnapshot>, idList: seq<A.Ids>, lead: real, leadId: Id)
    | BeginCall(assignment: Id, key: Id, call: Id)
    | MarkSucceeded(call: Id)
    | MarkAmbiguous(call: Id)
    | MarkRejected(call: Id, requestRejected: bool)
    | MarkUnreturned(assignment: Id)
    | RecordCall(assignment: Id, call: Id, tokens: Option<C.Tokens>)
    | SettleAttempt(assignment: Id)
    | Reconcile(session: Id, call: Id)
    | Recover(session: Id, live: set<Id>)

  /** What callers of a step provide: new call ids are new, and a batch has one offer and one pair of
      ids for each request. */
  predicate Legal(db: Db, step: Step) {
    match step
    case BeginCall(_, _, call) => P.FreshCall(db, call)
    case AssignModels(qs, offers, ids, _, _) => |offers| == |qs| == |ids|
    case _ => true
  }

  function After<E>(db: Db, r: Result<Db, E>): Db {
    if r.Ok? then r.value else db
  }

  function First<T, E>(db: Db, r: Result<(Db, T), E>): Db {
    if r.Ok? then r.value.0 else db
  }

  function Created(db: Db, step: Step): (after: Db)
    requires step.CreateRun? || step.CreateTask? || step.CreateAttempt? || step.MoveTask? || step.MoveAttempt?
    ensures after == db.(runs := after.runs, tasks := after.tasks, attempts := after.attempts)
  {
    match step
    case CreateRun(run, limit, session) =>
      if run in db.runs then db else db.(runs := db.runs[run := RunRow(session, limit)])
    case CreateTask(task, run, key) =>
      if task in db.tasks || run !in db.runs then db else db.(tasks := db.tasks[task := TaskRow(run, Queued, key)])
    case CreateAttempt(attempt, task, number, key) =>
      if attempt in db.attempts || task !in db.tasks || number !in {1, 2} then db
      else db.(attempts := db.attempts[attempt := AttemptRow(task, number, AttemptAssigned, key)])
    case MoveTask(task, status) =>
      if task !in db.tasks then db else db.(tasks := db.tasks[task := db.tasks[task].(status := status)])
    case MoveAttempt(attempt, status) =>
      if attempt !in db.attempts then db
      else db.(attempts := db.attempts[attempt := db.attempts[attempt].(status := status)])
  }

  /** One transaction. One that fails changes nothing, except that a failed settlement is remembered. */
  function Apply(db: Db, percent: real, step: Step): Db
    requires Legal(db, step)
  {
    match step
    case ReserveMoney(q, taskLimit, lead) => First(db, Reserve(db, percent, q, taskLimit, lead))
    case ReleaseMoney(r) => After(db, Release(db, percent, r))
    case SettleMoney(r, usage, cost, authority, key) => After(db, Settle(db, percent, r, usage, cost, authority, key))
    case AssignModel(q, offer, ids) => First(db, A.AssignOnce(db, percent, q, offer, ids))
    case AssignModels(qs, offers, ids, lead, leadId) => First(db, A.AssignBatch(db, percent, qs, offers, ids, lead, leadId))
    case BeginCall(a, key, call) => After(db, C.BeginCall(db, a, key, call))
    case MarkSucceeded(c) => After(db, C.MarkSucceeded(db, c))
    case MarkAmbiguous(c) => After(db, C.MarkAmbiguous(db, c))
    case MarkRejected(c, requestRejected) => After(db, C.MarkRejected(db, c, requestRejected))
    case MarkUnreturned(a) => C.MarkUnreturned(db, a)
    case RecordCall(a, c, tokens) => After(db, C.RecordCall(db, a, c, tokens))
    case SettleAttempt(a) => C.SettleAttempt(db, percent, a).0
    case Reconcile(session, c) => First(db, C.Reconcile(db, percent, session, c))
    case Recover(session, live) => R.Recover(db, session, live)
    case _ => Created(db, step)
  }

  ghost predicate LegalRun(db: Db, percent: real, steps: seq<Step>)
    decreases |steps|
  {
    steps != [] ==> Legal(db, steps[0]) && LegalRun(Apply(db, percent, steps[0]), percent, steps[1..])
  }

  ghost function Run(db: Db, percent: real, steps: seq<Step>): Db
    requires LegalRun(db, percent, steps)
    decreases |steps|
  {
    if steps == [] then db else Run(Apply(db, percent, steps[0]), percent, steps[1..])
  }

  // ----- What every legal step keeps -----

  /** Money is linked and counted once, assignments are funded and decided once, and calls follow
      their protocol. */
  ghost predicate Sound(db: Db) {
    BooksInv(db) && P.CallsInv(db)
  }

  /** And the assignments of every attempt form one chain, of which only the newest holds money. */
  ghost predicate Inv(db: Db) {
    AssignmentsInv(db) && P.CallsInv(db)
  }

  /** Nothing recorded is lost, and nothing closed is opened again. */
  ghost predicate Evolves(before: Db, after: Db) {
    LedgerEvolves(before, after) && AssignmentsKept(before, after) && P.CallsEvolve(before, after)
  }

  lemma {:induction false} EvolvesReflexive(db: Db)
    ensures Evolves(db, db)
  {
  }

  lemma {:induction false} EvolvesTransitive(a: Db, b: Db, c: Db)
    requires Evolves(a, b) && Evolves(b, c)
    ensures Evolves(a, c)
  {
    hide LedgerEvolves, AssignmentsKept, P.CallsEvolve;
    LedgerEvolvesTransitive(a, b, c);
    B.KeptTransitive(a, b, c);
    P.CallsEvolveTransitive(a, b, c);
  }

  lemma {:induction false} SoundParts(db: Db)
    requires Sound(db)
    ensures BooksInv(db) && P.CallsInv(db) && LedgerInv(db) && BooksOf(db).Matched() && P.UsageSound(db) && Funded(db)
    ensures DecidedOnce(db.assignments) && P.CallsSound(db)
  {
  }

  lemma {:induction false} InvParts(db: Db)
    ensures Inv(db) <==> AssignmentsInv(db) && P.CallsInv(db)
    ensures Inv(db) ==> Sound(db)
  {
  }

  /** A step that leaves the assignments and the calls alone. */
  lemma {:induction false} LedgerStep(db: Db, after: Db)
    requires Sound(db) && LedgerInv(after) && LedgerEvolves(db, after) && SameOwners(db, after)
    requires after.assignments == db.assignments
    requires after.calls == db.calls && after.failures == db.failures && after.callUsage == db.callUsage
    ensures Sound(after) && Evolves(db, after)
  {
    hide P.CallsInv, LedgerInv, LedgerEvolves, P.CallsEvolve, SameOwners, Funded, DecidedOnce;
    FundedStays(db, after);
    P.CallsUntouched(db, after);
  }

  ghost predicate LedgerOnly(db: Db, after: Db) {
    after == db.(reservations := after.reservations, usage := after.usage, warnings := after.warnings)
  }

  lemma {:induction false} LedgerOnlyStep(db: Db, after: Db)
    requires Sound(db) && LedgerInv(after) && LedgerEvolves(db, after) && LedgerOnly(db, after)
    ensures Sound(after) && Evolves(db, after)
  {
    hide Sound, Evolves, LedgerInv, LedgerEvolves, SameOwners;
    OwnersStay(db, after);
    LedgerStep(db, after);
  }

  /** A step of the calls. */
  lemma {:induction false} CallStep(db: Db, after: Db)
    requires Sound(db) && P.CallsInv(after) && P.CallsEvolve(db, after)
    requires after == db.(calls := after.calls, failures := after.failures, callUsage := after.callUsage, unsettled := after.unsettled)
    ensures Sound(after) && Evolves(db, after)
  {
    hide P.CallsInv, LedgerInv, P.CallsEvolve, LedgerEvolves, SameOwners, Funded, DecidedOnce;
    LedgerUntouched(db, after);
    OwnersStay(db, after);
    FundedStays(db, after);
  }

  lemma {:induction false} LedgerUntouched(db: Db, after: Db)
    requires LedgerInv(db) && after.reservations == db.reservations && after.usage == db.usage
    requires after.runs == db.runs && after.tasks == db.tasks
    ensures LedgerInv(after) && LedgerEvolves(db, after)
  {
    assert BooksOf(after) == BooksOf(db);
  }

  /** A step of the assignments. */
  lemma {:induction false} AssignmentStep(db: Db, after: Db)
    requires Sound(db) && BooksInv(after) && AssignmentsKept(db, after) && LedgerEvolves(db, after)
    requires after.calls == db.calls && after.failures == db.failures && after.callUsage == db.callUsage
    ensures Sound(after) && Evolves(db, after)
  {
    hide BooksInv, P.CallsInv, LedgerEvolves, P.CallsEvolve;
    P.CallsUntouched(db, after);
  }

  lemma {:induction false} RunCreated(db: Db, run: Id, row: RunRow, after: Db)
    requires LedgerInv(db) && run !in db.runs && after == db.(runs := db.runs[run := row])
    ensures LedgerInv(after) && LedgerEvolves(db, after) && SameOwners(db, after)
  {
  }

  lemma {:induction false} OwnersChanged(db: Db, after: Db)
    requires LedgerInv(db) && after == db.(tasks := after.tasks, attempts := after.attempts) && SameOwners(db, after)
    ensures LedgerInv(after) && LedgerEvolves(db, after)
  {
  }

  lemma {:induction false} TaskPut(db: Db, t: Id, row: TaskRow)
    requires t in db.tasks ==> row == db.tasks[t].(status := row.status)
    ensures SameOwners(db, db.(tasks := db.tasks[t := row]))
  {
  }

  lemma {:induction false} AttemptPut(db: Db, t: Id, row: AttemptRow)
    requires t in db.attempts ==> row == db.attempts[t].(status := row.status)
    ensures SameOwners(db, db.(attempts := db.attempts[t := row]))
  {
  }

  lemma {:induction false} CreatedOwners(db: Db, step: Step)
    requires step.CreateTask? || step.CreateAttempt? || step.MoveTask? || step.MoveAttempt?
    ensures var after := Created(db, step);
      SameOwners(db, after) && after == db.(tasks := after.tasks, attempts := after.attempts)
  {
    hide SameOwners;
    OwnersStay(db, db);
    match step
    case CreateTask(t, run, key) => if t !in db.tasks { TaskPut(db, t, TaskRow(run, Queued, key)); }
    case CreateAttempt(t, task, number, key) => if t !in db.attempts { AttemptPut(db, t, AttemptRow(task, number, AttemptAssigned, key)); }
    case MoveTask(t, status) => if t in db.tasks { TaskPut(db, t, db.tasks[t].(status := status)); }
    case MoveAttempt(t, status) => if t in db.attempts { AttemptPut(db, t, db.attempts[t].(status := status)); }
  }

  predicate IsCreation(step: Step) {
    step.CreateRun? || step.CreateTask? || step.CreateAttempt? || step.MoveTask? || step.MoveAttempt?
  }

  lemma {:induction false} CreatedKeeps(db: Db, step: Step)
    requires Sound(db) && IsCreation(step)
    ensures Sound(Created(db, step)) && Evolves(db, Created(db, step))
  {
    hide Sound, Evolves, LedgerInv, LedgerEvolves, SameOwners;
    EvolvesReflexive(db);
    SoundParts(db);
    var after := Created(db, step);
    if after != db {
      if step.CreateRun? {
        RunCreated(db, step.run, RunRow(step.session, step.limit), after);
      } else {
        CreatedOwners(db, step);
        OwnersChanged(db, after);
      }
      LedgerStep(db, after);
    }
  }

  lemma {:induction false} LedgerStepKeepsSound(db: Db, percent: real, step: Step)
    requires Sound(db) && (step.ReserveMoney? || step.ReleaseMoney? || step.SettleMoney?)
    ensures Sound(Apply(db, percent, step)) && Evolves(db, Apply(db, percent, step))
  {
    hide Sound, Evolves, Reserve, Release, Settle, LedgerInv, LedgerEvolves, LedgerOnly;
    EvolvesReflexive(db);
    SoundParts(db);
    var after := Apply(db, percent, step);
    match step
    case ReserveMoney(q, taskLimit, lead) =>
      var r := Reserve(db, percent, q, taskLimit, lead);
      if r.Ok? {
        ReserveKeeps(db, percent, q, taskLimit, lead, r.value.0, r.value.1);
        ReserveTouchesTheLedger(db, percent, q, taskLimit, lead);
        LedgerOnlyStep(db, after);
      }
    case ReleaseMoney(id) =>
      if Release(db, percent, id).Ok? {
        ReleaseKeeps(db, percent, id, after);
        ReleaseTouchesTheLedger(db, percent, id);
        LedgerOnlyStep(db, after);
      }
    case SettleMoney(id, usage, cost, authority, key) =>
      if Settle(db, percent, id, usage, cost, authority, key).Ok? {
        SettleKeeps(db, percent, id, usage, cost, authority, key, after);
        SettleTouchesTheLedger(db, percent, id, usage, cost, authority, key);
        LedgerOnlyStep(db, after);
      }
  }

  lemma {:induction false} ReserveTouchesTheLedger(db: Db, percent: real, q: ReservationRequest, taskLimit: Option<real>, lead: real)
    ensures Reserve(db, percent, q, taskLimit, lead).Ok? ==> LedgerOnly(db, Reserve(db, percent, q, taskLimit, lead).value.0)
  {
  }

  lemma {:induction false} ReleaseTouchesTheLedger(db: Db, percent: real, r: Id)
    ensures Release(db, percent, r).Ok? ==> LedgerOnly(db, Release(db, percent, r).value)
  {
    hide UpdateWarning;
    if r in db.reservations {
      WarningOnly(Freed(db, r), percent, db.reservations[r].run);
    }
  }

  lemma {:induction false} SettleTouchesTheLedger(db: Db, percent: real, r: Id, usageId: Id, cost: Option<Money>, authority: Authority, key: Id)
    ensures Settle(db, percent, r, usageId, cost, authority, key).Ok? ==>
              LedgerOnly(db, Settle(db, percent, r, usageId, cost, authority, key).value)
  {
    hide SettleBooks;
  }

  lemma {:induction false} AssignStepKeepsSound(db: Db, percent: real, step: Step)
    requires Sound(db) && Legal(db, step) && (step.AssignModel? || step.AssignModels?)
    ensures Sound(Apply(db, percent, step)) && Evolves(db, Apply(db, percent, step))
  {
    hide Sound, Evolves, A.AssignOnce, A.AssignBatch, BooksInv, LedgerEvolves, AssignmentsKept;
    EvolvesReflexive(db);
    SoundParts(db);
    match step
    case AssignModel(q, offer, ids) =>
      var r := A.AssignOnce(db, percent, q, offer, ids);
      if r.Ok? {
        AssignKeepsBooks(db, percent, q, offer, ids, r.value.0, r.value.1);
        AssignLeavesCalls(db, percent, q, offer, ids);
        AssignmentStep(db, r.value.0);
      }
    case AssignModels(qs, offers, ids, lead, leadId) =>
      var r := A.AssignBatch(db, percent, qs, offers, ids, lead, leadId);
      if r.Ok? {
        B.BatchKeepsBooks(db, percent, qs, offers, ids, lead, leadId, r.value.0, r.value.1);
        BatchLeavesCalls(db, percent, qs, offers, ids, lead, leadId);
        AssignmentStep(db, r.value.0);
      }
  }

  /** Runs, calls and their accounting are as before. */
  ghost predicate CallsLeft(db: Db, after: Db) {
    && after.calls == db.calls && after.failures == db.failures && after.callUsage == db.callUsage
    && after.unsettled == db.unsettled && after.runs == db.runs
  }

  lemma {:induction false} PersistLeavesCalls(db: Db, percent: real, q: A.Request, c: S.Candidate, ids: A.Ids)
    ensures A.Persist(db, percent, q, c, ids).Ok? ==> CallsLeft(db, A.Persist(db, percent, q, c, ids).value)
  {
    hide Reserve;
    ReserveTouchesTheLedger(db, percent, A.Booking(q, c, ids), q.taskLimit, 0.0);
  }

  lemma {:induction false} AssignLeavesCalls(db: Db, percent: real, q: A.Request, offer: A.RoutingSnapshot, ids: A.Ids)
    ensures A.AssignOnce(db, percent, q, offer, ids).Ok? ==> CallsLeft(db, A.AssignOnce(db, percent, q, offer, ids).value.0)
  {
    var r := A.AssignOnce(db, percent, q, offer, ids);
    if r.Ok? {
      hide *;
      AssignAnatomy(db, percent, q, offer, ids, r.value.0, r.value.1);
      NothingLeft(db);
      if r.value.0 != db {
        var source, c := NewAssignmentAnatomy(db, percent, A.WithBaseline(db, q), offer, ids, r.value.0, r.value.1);
        PersistLeavesCalls(A.SourceReleased(db, percent, A.WithBaseline(db, q).run, source), percent, A.WithBaseline(db, q), c, ids);
        SourceLeavesCalls(db, percent, A.WithBaseline(db, q).run, source, r.value.0);
      }
    }
  }

  lemma {:induction false} NothingLeft(db: Db)
    ensures CallsLeft(db, db)
  {
  }

  lemma {:induction false} SourceLeavesCalls(db: Db, percent: real, run: Id, source: Option<A.Source>, after: Db)
    requires source.Some? ==> source.value.reservation in db.reservations
    requires CallsLeft(A.SourceReleased(db, percent, run, source), after)
    ensures CallsLeft(db, after)
  {
  }

  lemma {:induction false} PersistAllLeavesCalls(db: Db, percent: real, choices: seq<A.Choice>)
    ensures A.PersistAll(db, percent, choices).Ok? ==> CallsLeft(db, A.PersistAll(db, percent, choices).value)
    decreases |choices|
  {
    hide A.Persist;
    if choices != [] {
      var next := A.Persist(db, percent, choices[0].request, choices[0].candidate, choices[0].ids);
      PersistLeavesCalls(db, percent, choices[0].request, choices[0].candidate, choices[0].ids);
      if next.Ok? {
        PersistAllLeavesCalls(next.value, percent, choices[1..]);
      }
    }
  }

  lemma {:induction false} BatchLeavesCalls(db: Db, percent: real, qs: seq<A.Request>, offers: seq<A.RoutingSnapshot>, ids: seq<A.Ids>, lead: real, leadId: Id)
    requires |offers| == |qs| == |ids|
    ensures A.AssignBatch(db, percent, qs, offers, ids, lead, leadId).Ok? ==>
              CallsLeft(db, A.AssignBatch(db, percent, qs, offers, ids, lead, leadId).value.0)
  {
    hide A.BatchChoices, A.PersistAll, Reserve, A.Owned;
    if qs != [] && A.BatchChoices(db, qs, offers, ids, lead).Ok? && lead >= 0.0 {
      var booking := A.LeadBooking(qs[0].run, lead, leadId);
      ReserveTouchesTheLedger(db, percent, booking, None, 0.0);
      if Reserve(db, percent, booking, None, 0.0).Ok? {
        PersistAllLeavesCalls(Reserve(db, percent, booking, None, 0.0).value.0, percent, A.BatchChoices(db, qs, offers, ids, lead).value.chosen);
      }
    }
  }

  predicate IsCallStep(step: Step) {
    || step.BeginCall? || step.MarkSucceeded? || step.MarkAmbiguous? || step.MarkRejected? || step.MarkUnreturned?
    || step.RecordCall?
  }

  lemma {:induction false} CallStepKeepsCalls(db: Db, percent: real, step: Step)
    requires P.CallsInv(db) && Legal(db, step) && IsCallStep(step)
    ensures P.CallsInv(Apply(db, percent, step)) && P.CallsEvolve(db, Apply(db, percent, step))
  {
    hide P.CallsInv, P.CallsEvolve, C.BeginCall, C.MarkSucceeded, C.MarkAmbiguous, C.MarkRejected, C.RecordCall, C.MarkUnreturned, P.FreshCall;
    CallsReflexive(db);
    var after := Apply(db, percent, step);
    match step
    case BeginCall(a, key, call) => if C.BeginCall(db, a, key, call).Ok? { P.BeginKeeps(db, a, key, call, after); }
    case MarkSucceeded(c) => if C.MarkSucceeded(db, c).Ok? { P.SucceededKeeps(db, c, after); }
    case MarkAmbiguous(c) => if C.MarkAmbiguous(db, c).Ok? { P.AmbiguousKeeps(db, c, after); }
    case MarkRejected(c, rejected) => if C.MarkRejected(db, c, rejected).Ok? { P.RejectedKeeps(db, c, rejected, after); }
    case MarkUnreturned(a) => P.UnreturnedKeeps(db, a, after);
    case RecordCall(a, c, tokens) => if C.RecordCall(db, a, c, tokens).Ok? { P.RecordKeeps(db, a, c, tokens, after); }
  }

  lemma {:induction false} CallsReflexive(db: Db)
    ensures P.CallsEvolve(db, db)
  {
  }

  lemma {:induction false} CallStepsTouchCalls(db: Db, percent: real, step: Step)
    requires Legal(db, step) && IsCallStep(step)
    ensures C.CallsOnly(db, Apply(db, percent, step)) && Apply(db, percent, step).unsettled == db.unsettled
    ensures var after := Apply(db, percent, step); after.reservations == db.reservations && after.usage == db.usage
  {
    hide C.BeginCall, C.MarkSucceeded, C.MarkAmbiguous, C.MarkRejected, C.MarkUnreturned, C.RecordCall, P.FreshCall;
  }

  lemma {:induction false} CallStepKeepsSound(db: Db, percent: real, step: Step)
    requires Sound(db) && Legal(db, step) && IsCallStep(step)
    ensures Sound(Apply(db, percent, step)) && Evolves(db, Apply(db, percent, step))
  {
    hide *;
    SoundParts(db);
    CallStepKeepsCalls(db, percent, step);
    CallStepsTouchCalls(db, percent, step);
    CallStepOnly(db, Apply(db, percent, step));
  }

  lemma {:induction false} CallStepOnly(db: Db, after: Db)
    requires Sound(db) && P.CallsInv(after) && P.CallsEvolve(db, after) && C.CallsOnly(db, after)
    ensures Sound(after) && Evolves(db, after)
  {
    hide Sound, Evolves;
    CallStep(db, after);
  }

  /** Settling an attempt's usage, alone or at the end of a reconciliation. */
  lemma {:induction false} SettleUsageKeepsSound(db: Db, percent: real, a: Id, reconciled: bool, after: Db)
    requires Sound(db) && a in db.assignments
    ensures C.SettleUsage(db, percent, a, reconciled) == Ok(after) ==> Sound(after) && Evolves(db, after)
  {
    hide Sound, Evolves, Settle, LedgerInv, LedgerEvolves, C.SettledCost, C.SettledAuthority, LedgerOnly;
    SoundParts(db);
    if C.SettleUsage(db, percent, a, reconciled) == Ok(after) {
      var cost, authority := Some(C.SettledCost(db, a)), C.SettledAuthority(db, a, reconciled);
      SettleKeeps(db, percent, db.assignments[a].reservation, a, cost, authority, a, after);
      SettleTouchesTheLedger(db, percent, db.assignments[a].reservation, a, cost, authority, a);
      LedgerOnlyStep(db, after);
    }
  }

  lemma {:induction false} EstimateKeepsSound(db: Db, c: Id, after: Db)
    requires Sound(db) && c in db.failures && after == C.Estimate(db, c)
    ensures Sound(after) && Evolves(db, after)
  {
    hide Sound, Evolves, P.CallsInv, P.CallsEvolve;
    SoundParts(db);
    P.EstimateKeeps(db, c, after);
    CallStep(db, after);
  }

  lemma {:induction false} ReconcileKeepsSound(db: Db, percent: real, session: Id, c: Id, after: Db, result: C.Reconciliation)
    requires Sound(db)
    ensures C.Reconcile(db, percent, session, c) == Ok((after, result)) ==> Sound(after) && Evolves(db, after)
  {
    hide Sound, Evolves, C.Reconcile, C.SettleUsage, N.NothingOpen, N.IsSettled, N.EstimateOf, C.ReconciliationState;
    EvolvesReflexive(db);
    if C.Reconcile(db, percent, session, c) == Ok((after, result)) {
      N.ReconcileAnatomy(db, percent, session, c, after, result);
      var a := result.assignment;
      if !N.IsSettled(db, a) {
        var marked := C.Estimate(db, c);
        EstimateKeepsSound(db, c, marked);
        if N.NothingOpen(marked, a) {
          SettleUsageKeepsSound(marked, percent, a, true, after);
          EvolvesTransitive(db, marked, after);
        }
      }
    }
  }

  lemma {:induction false} SettleAttemptKeepsSound(db: Db, percent: real, a: Id)
    requires Sound(db)
    ensures Sound(C.SettleAttempt(db, percent, a).0) && Evolves(db, C.SettleAttempt(db, percent, a).0)
  {
    hide Sound, Evolves, C.SettleUsage;
    EvolvesReflexive(db);
    if a in db.assignments {
      var r := C.SettleUsage(db, percent, a, false);
      if r.Ok? {
        SettleUsageKeepsSound(db, percent, a, false, r.value);
      } else {
        RememberedKeepsSound(db, a, C.WithUnsettled(db, a));
      }
    }
  }

  lemma {:induction false} RememberedKeepsSound(db: Db, a: Id, after: Db)
    requires Sound(db) && after == C.WithUnsettled(db, a)
    ensures Sound(after) && Evolves(db, after)
  {
    hide Sound, Evolves, P.CallsInv, P.CallsEvolve;
    SoundParts(db);
    P.CallsUntouched(db, after);
    CallStep(db, after);
  }

  lemma {:induction false} RecoverKeepsSound(db: Db, session: Id, live: set<Id>)
    requires Sound(db)
    ensures Sound(R.Recover(db, session, live)) && Evolves(db, R.Recover(db, session, live))
  {
    hide Sound, Evolves, R.Recover, LedgerInv, LedgerEvolves, SameOwners;
    SoundParts(db);
    var after := R.Recover(db, session, live);
    R.RecoveryKeepsLedger(db, session, live, after);
    R.RecoveryKeepsOwners(db, session, live, after);
    RecoverLeavesCalls(db, session, live, after);
    LedgerStep(db, after);
  }

  lemma {:induction false} RecoverLeavesCalls(db: Db, session: Id, live: set<Id>, after: Db)
    requires after == R.Recover(db, session, live)
    ensures CallsLeft(db, after)
  {
    R.RecoverAnatomy(db, session, live, after);
    hide R.Recover;
  }

  /** Every transaction keeps the books and the protocol, and only ever adds to what is recorded. */
  lemma {:induction false} StepKeepsSound(db: Db, percent: real, step: Step)
    requires Sound(db) && Legal(db, step)
    ensures Sound(Apply(db, percent, step)) && Evolves(db, Apply(db, percent, step))
  {
    hide Sound, Evolves, Created, R.Recover, C.SettleAttempt, C.Reconcile, Legal;
    EvolvesReflexive(db);
    match step
    case ReserveMoney(_, _, _) => LedgerStepKeepsSound(db, percent, step);
    case ReleaseMoney(_) => LedgerStepKeepsSound(db, percent, step);
    case SettleMoney(_, _, _, _, _) => LedgerStepKeepsSound(db, percent, step);
    case AssignModel(_, _, _) => AssignStepKeepsSound(db, percent, step);
    case AssignModels(_, _, _, _, _) => AssignStepKeepsSound(db, percent, step);
    case SettleAttempt(a) => SettleAttemptKeepsSound(db, percent, a);
    case Reconcile(session, c) =>
      var r := C.Reconcile(db, percent, session, c);
      if r.Ok? {
        ReconcileKeepsSound(db, percent, session, c, r.value.0, r.value.1);
      }
    case Recover(session, live) => RecoverKeepsSound(db, session, live);
    case CreateRun(_, _, _) => CreatedKeeps(db, step);
    case CreateTask(_, _, _) => CreatedKeeps(db, step);
    case CreateAttempt(_, _, _, _) => CreatedKeeps(db, step);
    case MoveTask(_, _) => CreatedKeeps(db, step);
    case MoveAttempt(_, _) => CreatedKeeps(db, step);
    case _ => CallStepKeepsSound(db, percent, step);
  }

  /** In every reachable state, whatever the batches were asked for, money is linked and counted once,
      assignments are funded and decided once, and calls follow their protocol; and over any run
      nothing recorded is lost or reopened. */
  lemma {:induction false} RunKeepsSound(db: Db, percent: real, steps: seq<Step>)
    requires Sound(db) && LegalRun(db, percent, steps)
    ensures Sound(Run(db, percent, steps)) && Evolves(db, Run(db, percent, steps))
    decreases |steps|
  {
    hide Sound, Evolves, Apply, Legal;
    EvolvesReflexive(db);
    if steps != [] {
      var next := Apply(db, percent, steps[0]);
      StepKeepsSound(db, percent, steps[0]);
      RunKeepsSound(next, percent, steps[1..]);
      EvolvesTransitive(db, next, Run(next, percent, steps[1..]));
    }
  }

  // ----- When the chains are kept -----

  /** A batch that goes through finds the sources of its fallbacks ready. */
  ghost predicate Careful(db: Db, percent: real, step: Step)
    requires Legal(db, step)
  {
    step.AssignModels? && A.AssignBatch(db, percent, step.requests, step.offers, step.idList, step.lead, step.leadId).Ok? ==>
      B.BatchReady(db, percent, step.requests, step.offers, step.idList, step.lead, step.leadId)
  }

  ghost predicate CarefulRun(db: Db, percent: real, steps: seq<Step>)
    requires LegalRun(db, percent, steps)
    decreases |steps|
  {
    steps != [] ==> Careful(db, percent, steps[0]) && CarefulRun(Apply(db, percent, steps[0]), percent, steps[1..])
  }

  /** Every state along the run has its assignments in chains. */
  ghost predicate AlwaysInv(db: Db, percent: real, steps: seq<Step>)
    requires LegalRun(db, percent, steps)
    decreases |steps|
  {
    Inv(db) && (steps != [] ==> AlwaysInv(Apply(db, percent, steps[0]), percent, steps[1..]))
  }

  predicate IsAssignment(step: Step) {
    step.AssignModel? || step.AssignModels?
  }

  lemma {:induction false} AssignmentsAreSame(db: Db, percent: real, step: Step)
    requires Legal(db, step) && !IsAssignment(step)
    ensures Apply(db, percent, step).assignments == db.assignments
  {
    hide *;
    if IsCallStep(step) {
      CallStepsTouchCalls(db, percent, step);
      OnlyCallsChange(db, Apply(db, percent, step));
    } else {
      OtherStepsLeaveAssignments(db, percent, step);
    }
  }

  lemma {:induction false} OnlyCallsChange(db: Db, after: Db)
    requires C.CallsOnly(db, after)
    ensures after.assignments == db.assignments && after.runs == db.runs && after.warnings == db.warnings
  {
  }

  lemma {:induction false} OtherStepsLeaveAssignments(db: Db, percent: real, step: Step)
    requires Legal(db, step) && !IsAssignment(step) && !IsCallStep(step)
    ensures Apply(db, percent, step).assignments == db.assignments
    ensures !step.CreateRun? ==> Apply(db, percent, step).runs == db.runs
    ensures Apply(db, percent, step).unsettled == db.unsettled || step.SettleAttempt?
  {
    hide Reserve, Release, Settle, A.AssignOnce, A.AssignBatch, C.SettleAttempt, C.Reconcile, R.Recover;
    match step
    case ReserveMoney(q, taskLimit, lead) => ReserveTouchesTheLedger(db, percent, q, taskLimit, lead);
    case ReleaseMoney(r) => ReleaseTouchesTheLedger(db, percent, r);
    case SettleMoney(r, usage, cost, authority, key) => SettleTouchesTheLedger(db, percent, r, usage, cost, authority, key);
    case SettleAttempt(a) => SettleAttemptLeavesAssignments(db, percent, a);
    case Reconcile(session, c) => ReconcileLeavesAssignments(db, percent, session, c);
    case Recover(session, live) =>
      R.RecoveryKeepsOwners(db, session, live, R.Recover(db, session, live));
      RecoverLeavesCalls(db, session, live, R.Recover(db, session, live));
    case _ =>
  }

  lemma {:induction false} SettleAttemptLeavesAssignments(db: Db, percent: real, a: Id)
    ensures var after := C.SettleAttempt(db, percent, a).0;
      after.assignments == db.assignments && after.runs == db.runs && (after.unsettled == db.unsettled || after == C.WithUnsettled(db, a))
  {
    hide C.SettleUsage;
    if a in db.assignments && C.SettleUsage(db, percent, a, false).Ok? {
      N.SettlingTouchesTheLedger(db, percent, a, false, C.SettleUsage(db, percent, a, false).value);
    }
  }

  lemma {:induction false} ReconcileLeavesAssignments(db: Db, percent: real, session: Id, c: Id)
    ensures var r := C.Reconcile(db, percent, session, c);
      r.Ok? ==> r.value.0.assignments == db.assignments && r.value.0.runs == db.runs && r.value.0.unsettled == db.unsettled
  {
    hide C.Reconcile, C.SettleUsage, N.NothingOpen, N.IsSettled, N.EstimateOf, C.ReconciliationState;
    var r := C.Reconcile(db, percent, session, c);
    if r.Ok? {
      N.ReconcileAnatomy(db, percent, session, c, r.value.0, r.value.1);
      var a := r.value.1.assignment;
      if !N.IsSettled(db, a) && N.NothingOpen(C.Estimate(db, c), a) {
        N.SettlingTouchesTheLedger(C.Estimate(db, c), percent, a, true, r.value.0);
      }
    }
  }

  /** Every transaction keeps every invariant, except exactly a batch that persists a fallback whose
      source is not ready. */
  lemma {:induction false} StepKeeps(db: Db, percent: real, step: Step)
    requires Inv(db) && Legal(db, step)
    ensures Inv(Apply(db, percent, step)) <==> Careful(db, percent, step)
    ensures Evolves(db, Apply(db, percent, step))
  {
    hide *;
    InvParts(db);
    InvParts(Apply(db, percent, step));
    StepKeepsSound(db, percent, step);
    SoundParts(Apply(db, percent, step));
    if IsAssignment(step) {
      AssignStepKeepsChains(db, percent, step);
    } else {
      AssignmentsAreSame(db, percent, step);
      EvolvesParts(db, Apply(db, percent, step));
      LedgerStepKeeps(db, Apply(db, percent, step));
      OthersAreCareful(db, percent, step);
    }
  }

  lemma {:induction false} OthersAreCareful(db: Db, percent: real, step: Step)
    requires Legal(db, step) && !IsAssignment(step)
    ensures Careful(db, percent, step)
  {
  }

  lemma {:induction false} EvolvesParts(before: Db, after: Db)
    requires Evolves(before, after)
    ensures LedgerEvolves(before, after) && AssignmentsKept(before, after) && SameOwners(before, after)
  {
  }

  lemma {:induction false} AssignStepKeepsChains(db: Db, percent: real, step: Step)
    requires AssignmentsInv(db) && Legal(db, step) && IsAssignment(step)
    ensures AssignmentsInv(Apply(db, percent, step)) <==> Careful(db, percent, step)
  {
    hide A.AssignOnce, A.AssignBatch, AssignmentsInv, LedgerEvolves, AssignmentsKept, B.BatchReady;
    match step
    case AssignModel(q, offer, ids) =>
      var r := A.AssignOnce(db, percent, q, offer, ids);
      if r.Ok? {
        AssignKeeps(db, percent, q, offer, ids, r.value.0, r.value.1);
      }
    case AssignModels(qs, offers, ids, lead, leadId) =>
      var r := A.AssignBatch(db, percent, qs, offers, ids, lead, leadId);
      if r.Ok? {
        B.BatchKeeps(db, percent, qs, offers, ids, lead, leadId, r.value.0, r.value.1);
      }
  }

  /** The assignments stay in chains all along a run exactly when every batch in it finds the sources
      of its fallbacks ready. */
  lemma {:induction false} RunKeeps(db: Db, percent: real, steps: seq<Step>)
    requires Inv(db) && LegalRun(db, percent, steps)
    ensures AlwaysInv(db, percent, steps) <==> CarefulRun(db, percent, steps)
    ensures CarefulRun(db, percent, steps) ==> Inv(Run(db, percent, steps))
    decreases |steps|
  {
    hide Inv, Evolves, Apply, Legal, Careful;
    if steps != [] {
      var next := Apply(db, percent, steps[0]);
      StepKeeps(db, percent, steps[0]);
      if Careful(db, percent, steps[0]) {
        RunKeeps(next, percent, steps[1..]);
      } else {
        NotAlways(next, percent, steps[1..]);
      }
    }
  }

  lemma {:induction false} NotAlways(db: Db, percent: real, steps: seq<Step>)
    requires LegalRun(db, percent, steps) && !Inv(db)
    ensures !AlwaysInv(db, percent, steps)
  {
  }

  /** A run whose batches hold no fallbacks is careful. */
  lemma {:induction false} NoFallbacksIsCareful(db: Db, percent: real, steps: seq<Step>)
    requires LegalRun(db, percent, steps)
    requires forall step, q :: step in steps && step.AssignModels? && q in step.requests ==> q.fallbackOf.None?
    ensures CarefulRun(db, percent, steps)
    decreases |steps|
  {
    hide Apply, Legal, B.BatchReady, A.AssignBatch;
    if steps != [] {
      var step := steps[0];
      assert step in steps;
      if step.AssignModels? && Legal(db, step) {
        BatchHasOffers(db, step);
        B.FirstChoicesAreReady(db, percent, step.requests, step.offers, step.idList, step.lead, step.leadId);
      }
      NoFallbacksIsCareful(Apply(db, percent, step), percent, steps[1..]);
    }
  }

  lemma {:induction false} BatchHasOffers(db: Db, step: Step)
    requires Legal(db, step) && step.AssignModels?
    ensures |step.offers| == |step.requests| == |step.idList|
  {
  }

  lemma {:induction false} RunsAreSame(db: Db, percent: real, step: Step)
    requires Legal(db, step) && !step.CreateRun?
    ensures Apply(db, percent, step).runs == db.runs
  {
    hide *;
    if IsCallStep(step) {
      CallStepsTouchCalls(db, percent, step);
      OnlyCallsChange(db, Apply(db, percent, step));
    } else if IsAssignment(step) {
      AssignStepLeavesCalls(db, percent, step);
    } else {
      OtherStepsLeaveAssignments(db, percent, step);
    }
  }

  lemma {:induction false} AssignStepLeavesCalls(db: Db, percent: real, step: Step)
    requires Legal(db, step) && IsAssignment(step)
    ensures Apply(db, percent, step).runs == db.runs && Apply(db, percent, step).unsettled == db.unsettled
  {
    hide A.AssignOnce, A.AssignBatch;
    match step
    case AssignModel(q, offer, ids) => AssignLeavesCalls(db, percent, q, offer, ids);
    case AssignModels(qs, offers, ids, lead, leadId) => BatchLeavesCalls(db, percent, qs, offers, ids, lead, leadId);
  }

  const EMPTY: Db := Db(map[], map[], map[], map[], map[], map[], map[], map[], map[], map[], map[], map[])

  lemma {:induction false} EmptyInv()
    ensures Inv(EMPTY) && Sound(EMPTY)
  {
  }

  /** Everything that can happen to a new journal: the books and the protocol always hold, and the
      chains whenever no batch persisted a fallback with a source that was not ready. */
  lemma {:induction false} FromTheStart(percent: real, steps: seq<Step>)
    requires LegalRun(EMPTY, percent, steps)
    ensures Sound(Run(EMPTY, percent, steps))
    ensures AlwaysInv(EMPTY, percent, steps) <==> CarefulRun(EMPTY, percent, steps)
    ensures CarefulRun(EMPTY, percent, steps) ==> Inv(Run(EMPTY, percent, steps))
  {
    hide Inv, Sound, Evolves, LegalRun, CarefulRun, AlwaysInv, Run;
    EmptyInv();
    RunKeepsSound(EMPTY, percent, steps);
    RunKeeps(EMPTY, percent, steps);
  }

  // ----- What stays decided -----

  /** Whatever happens later, a reservation that was accepted is answered again without effect. */
  lemma {:induction false} ReserveAgainLater(db: Db, percent: real, q: ReservationRequest, taskLimit: Option<real>, lead: real,
                          after: Db, warned: bool, steps: seq<Step>)
    requires Sound(db) && Reserve(db, percent, q, taskLimit, lead) == Ok((after, warned)) && LegalRun(after, percent, steps)
    ensures Reserve(Run(after, percent, steps), percent, q, taskLimit, lead) == Ok((Run(after, percent, steps), false))
  {
    hide *;
    ReserveStepIs(db, percent, q, taskLimit, lead);
    StepKeepsSound(db, percent, ReserveMoney(q, taskLimit, lead));
    RunKeepsSound(after, percent, steps);
    EvolvesBooks(after, Run(after, percent, steps));
    ReserveReplays(db, percent, q, taskLimit, lead, after, warned, Run(after, percent, steps), taskLimit, lead);
  }

  lemma {:induction false} ReserveStepIs(db: Db, percent: real, q: ReservationRequest, taskLimit: Option<real>, lead: real)
    ensures Legal(db, ReserveMoney(q, taskLimit, lead))
    ensures Reserve(db, percent, q, taskLimit, lead).Ok? ==>
              Apply(db, percent, ReserveMoney(q, taskLimit, lead)) == Reserve(db, percent, q, taskLimit, lead).value.0
  {
    hide Reserve;
  }

  lemma {:induction false} EvolvesBooks(before: Db, after: Db)
    requires Evolves(before, after)
    ensures BooksOf(before).EvolvesTo(BooksOf(after))
  {
  }

  /** Whatever happens later, an accepted settlement that comes again changes nothing: it is answered
      as long as its amount stands, and refused exactly when a correction has replaced it. */
  lemma {:induction false} SettleAgainLater(db: Db, percent: real, r: Id, usage: Id, cost: Option<Money>, authority: Authority, key: Id,
                                            after: Db, steps: seq<Step>)
    requires Sound(db) && Settle(db, percent, r, usage, cost, authority, key) == Ok(after) && LegalRun(after, percent, steps)
    ensures var later := Run(after, percent, steps);
      && r in later.usage && cost.Some?
      && Settle(later, percent, r, usage, cost, authority, key) ==
         if later.usage[r].amount == cost.value && later.usage[r].authority == authority then Ok(later) else Err(IdempotencyConflict)
  {
    hide *;
    var later := Run(after, percent, steps);
    SettleStepIs(db, percent, r, usage, cost, authority, key);
    StepKeepsSound(db, percent, SettleMoney(r, usage, cost, authority, key));
    RunKeepsSound(after, percent, steps);
    EvolvesBooks(after, later);
    SettledBooks(db, percent, r, usage, cost, authority, key, after);
    SettleReplays(BooksOf(db), r, usage, cost.value, authority, key, BooksOf(after), BooksOf(later));
    SettlesByBooks(later, percent, r, usage, cost, authority, key);
  }

  lemma {:induction false} SettleStepIs(db: Db, percent: real, r: Id, usage: Id, cost: Option<Money>, authority: Authority, key: Id)
    ensures Legal(db, SettleMoney(r, usage, cost, authority, key))
    ensures Settle(db, percent, r, usage, cost, authority, key).Ok? ==>
              Apply(db, percent, SettleMoney(r, usage, cost, authority, key)) == Settle(db, percent, r, usage, cost, authority, key).value
  {
    hide Settle;
  }

  lemma {:induction false} SettledBooks(db: Db, percent: real, r: Id, usage: Id, cost: Option<Money>, authority: Authority, key: Id, after: Db)
    requires Settle(db, percent, r, usage, cost, authority, key) == Ok(after)
    ensures r in BooksOf(db).reservations && cost.Some?
    ensures SettleBooks(BooksOf(db), r, usage, cost.value, authority, key) == Ok(BooksOf(after))
  {
    hide UpdateWarning, SettleBooks;
    var books := SettleBooks(BooksOf(db), r, usage, cost.value, authority, key).value;
    if books != BooksOf(db) {
      WarningOnly(WithBooks(db, books), percent, db.reservations[r].run);
    }
  }

  lemma {:induction false} SettlesByBooks(db: Db, percent: real, r: Id, usage: Id, cost: Option<Money>, authority: Authority, key: Id)
    requires r in BooksOf(db).reservations && cost.Some?
    ensures db.usage == BooksOf(db).usage
    ensures var books := SettleBooks(BooksOf(db), r, usage, cost.value, authority, key);
      && (books.Err? ==> Settle(db, percent, r, usage, cost, authority, key) == Err(books.error))
      && (books == Ok(BooksOf(db)) ==> Settle(db, percent, r, usage, cost, authority, key) == Ok(db))
  {
    hide UpdateWarning, SettleBooks;
  }

  /** Whatever happens later, a decision is answered with the assignment that was made for it. */
  lemma {:induction false} DecisionsAreFinal(db: Db, percent: real, q: A.Request, offer: A.RoutingSnapshot, ids: A.Ids, after: Db, answer: A.Answer,
                          steps: seq<Step>, again: A.Request, offer': A.RoutingSnapshot, ids': A.Ids)
    requires Sound(db) && A.AssignOnce(db, percent, q, offer, ids) == Ok((after, answer)) && answer.Assigned?
    requires LegalRun(after, percent, steps)
    requires again.attempt == q.attempt && again.fallbackOf == q.fallbackOf && A.Owned(Run(after, percent, steps), again)
    ensures var later := Run(after, percent, steps);
      A.AssignOnce(later, percent, again, offer', ids') == Ok((later, answer))
  {
    hide *;
    var later := Run(after, percent, steps);
    SoundParts(db);
    AssignKeepsBooks(db, percent, q, offer, ids, after, answer);
    AssignStepIs(db, percent, q, offer, ids);
    StepKeepsSound(db, percent, AssignModel(q, offer, ids));
    RunKeepsSound(after, percent, steps);
    RowStays(after, later, answer.id, answer.row);
    AnsweredByRow(later, percent, again, offer', ids', answer.id);
  }

  lemma {:induction false} AssignStepIs(db: Db, percent: real, q: A.Request, offer: A.RoutingSnapshot, ids: A.Ids)
    ensures Legal(db, AssignModel(q, offer, ids))
    ensures A.AssignOnce(db, percent, q, offer, ids).Ok? ==>
              Apply(db, percent, AssignModel(q, offer, ids)) == A.AssignOnce(db, percent, q, offer, ids).value.0
  {
    hide A.AssignOnce;
  }

  lemma {:induction false} RowStays(after: Db, later: Db, a: Id, row: Assignment)
    requires Sound(later) && Evolves(after, later) && a in after.assignments && after.assignments[a] == row
    ensures a in later.assignments && later.assignments[a] == row && DecidedOnce(later.assignments)
  {
    hide LedgerEvolves, P.CallsEvolve, P.CallsInv, LedgerInv;
  }

  lemma {:induction false} AnsweredByRow(db: Db, percent: real, q: A.Request, offer: A.RoutingSnapshot, ids: A.Ids, a: Id)
    requires DecidedOnce(db.assignments) && a in db.assignments && A.Owned(db, q)
    requires A.Decides(db.assignments[a], q.attempt, q.fallbackOf)
    ensures A.AssignOnce(db, percent, q, offer, ids) == Ok((db, A.Assigned(a, db.assignments[a])))
  {
    hide A.AssignNew;
    var existing := A.ExistingFor(db.assignments, q.attempt, q.fallbackOf);
    assert db.assignments[existing.value].fallbackOf == db.assignments[a].fallbackOf;
  }

  /** Whatever happens later, a completed, rejected or ambiguous call stays what it is. */
  lemma {:induction false} OutcomesAreFinal(db: Db, percent: real, steps: seq<Step>, c: Id)
    requires Sound(db) && LegalRun(db, percent, steps) && c in db.calls && !db.calls[c].status.Started?
    ensures c in Run(db, percent, steps).calls && Run(db, percent, steps).calls[c].status == db.calls[c].status
  {
    hide Sound, LegalRun, Run, LedgerEvolves, AssignmentsKept;
    RunKeepsSound(db, percent, steps);
    var later := Run(db, percent, steps);
    assert P.CallEvolves(db.calls[c], later.calls[c]);
  }

  // ----- What bars a call -----

  /** At every begin that is accepted, after any run, all ambiguous calls of the same run have been
      reconciled and no settlement in it has failed. */
  lemma {:induction false} BeginsInCertainty(db: Db, percent: real, steps: seq<Step>, a: Id, key: Id, call: Id, run: Id)
    requires Sound(db) && LegalRun(db, percent, steps)
    requires C.BeginCall(Run(db, percent, steps), a, key, call).Ok? && AssignmentInRun(Run(db, percent, steps), a, run)
    ensures var later := Run(db, percent, steps);
      && (forall c :: c in later.calls && AssignmentInRun(later, later.calls[c].assignment, run) && later.calls[c].status.Ambiguous? ==>
            c in later.failures && later.failures[c].Estimated?)
      && (forall b :: AssignmentInRun(later, b, run) ==> C.UnsettledCount(later, b) == 0)
  {
    hide *;
    var later := Run(db, percent, steps);
    RunKeepsSound(db, percent, steps);
    SoundParts(later);
    P.BeginIsCertain(later, a, key, call, C.BeginCall(later, a, key, call).value, run);
  }

  lemma {:induction false} UnsettledGrows(db: Db, percent: real, step: Step, b: Id)
    requires Legal(db, step)
    ensures C.UnsettledCount(Apply(db, percent, step), b) >= C.UnsettledCount(db, b)
  {
    hide Apply, Legal;
    if IsCallStep(step) {
      CallStepsTouchCalls(db, percent, step);
    } else if IsAssignment(step) {
      AssignStepLeavesCalls(db, percent, step);
    } else if step.SettleAttempt? {
      SettleAttemptApplies(db, percent, step.assignment);
      SettleAttemptLeavesAssignments(db, percent, step.assignment);
    } else {
      OtherStepsLeaveAssignments(db, percent, step);
    }
  }

  lemma {:induction false} SettleAttemptApplies(db: Db, percent: real, a: Id)
    ensures Legal(db, SettleAttempt(a)) && Apply(db, percent, SettleAttempt(a)) == C.SettleAttempt(db, percent, a).0
  {
    hide C.SettleAttempt;
  }

  lemma {:induction false} RecoverApplies(db: Db, percent: real, session: Id, live: set<Id>)
    ensures Legal(db, Recover(session, live)) && Apply(db, percent, Recover(session, live)) == R.Recover(db, session, live)
  {
    hide R.Recover;
  }

  lemma {:induction false} UnsettledStays(db: Db, percent: real, steps: seq<Step>, b: Id)
    requires LegalRun(db, percent, steps)
    ensures C.UnsettledCount(Run(db, percent, steps), b) >= C.UnsettledCount(db, b)
    decreases |steps|
  {
    hide Apply, Legal, C.UnsettledCount;
    if steps != [] {
      UnsettledGrows(db, percent, steps[0], b);
      UnsettledStays(Apply(db, percent, steps[0]), percent, steps[1..], b);
    }
  }

  /** Once a settlement of an assignment has failed, no call begins in its run ever again. */
  lemma {:induction false} FailedSettlementBars(db: Db, percent: real, steps: seq<Step>, b: Id, run: Id, a: Id, key: Id, call: Id)
    requires Sound(db) && LegalRun(db, percent, steps)
    requires AssignmentInRun(db, b, run) && C.UnsettledCount(db, b) > 0
    requires AssignmentInRun(Run(db, percent, steps), a, run)
    ensures C.BeginCall(Run(db, percent, steps), a, key, call).Err?
  {
    hide *;
    var later := Run(db, percent, steps);
    RunKeepsSound(db, percent, steps);
    UnsettledStays(db, percent, steps, b);
    EvolvesParts(db, later);
    StaysInRun(db, later, b, run);
    if C.BeginCall(later, a, key, call).Ok? {
      BeginsInCertainty(db, percent, steps, a, key, call, run);
    }
  }

  lemma {:induction false} StaysInRun(db: Db, later: Db, b: Id, run: Id)
    requires AssignmentsKept(db, later) && AssignmentInRun(db, b, run)
    ensures AssignmentInRun(later, b, run)
  {
    assert later.assignments[b] == db.assignments[b];
    var t := db.assignments[b].attempt;
    assert later.attempts[t].task == db.attempts[t].task;
    assert later.tasks[db.attempts[t].task].run == db.tasks[db.attempts[t].task].run;
  }
}
