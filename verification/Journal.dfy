/** The tables that routing and accounting share (sessions/schema.py), and the joins and sums that
    are taken over them. A table is a map from its primary key to its row. */
module Journals {
  import opened Prelude
  import Selector
  import opened Tasks

  datatype RunRow = RunRow(session: Id, limit: Option<real>)

  datatype TaskRow = TaskRow(run: Id, status: TaskStatus, key: Id)

  datatype AttemptRow = AttemptRow(task: Id, number: int, status: AttemptStatus, key: Id)

  datatype ReservationStatus = Reserved | Released | Settled

  /** Idempotency keys carry a prefix that names who reserved. */
  datatype ReservationKey = ForAssignment(id: Id) | ForBatchLead(id: Id) | FromCaller(id: Id)

  datatype Purpose = TaskAttempt | LeadContinuation | UnpricedManual

  datatype Reservation = Reservation(
    run: Id, task: Option<Id>, amount: Money, status: ReservationStatus, key: ReservationKey, purpose: Purpose)

  datatype Authority =
    | AuthoritativeActual | TokenDerivedEstimate | ConservativeEstimate
    | UnknownAuthority | EstimatedActual | ReconciledEstimate

  datatype UsageRecord = UsageRecord(
    usageId: Id, run: Id, task: Option<Id>, amount: Money, authority: Authority, key: Id)
  {
    predicate Authoritative() {
      authority == AuthoritativeActual
    }
  }

  /** `fallbackOf` and `attempt` make up the unique decision key. `rowid` is the insertion order,
      `fit` and `pricing` are what the profile stated when the assignment was made. */
  datatype Assignment = Assignment(
    attempt: Id, provider: Id, model: Id, estimated: Money, fit: Option<real>, reservation: Id,
    pricing: Pricing, fallbackOf: Option<Id>, rowid: nat)

  datatype Deferral = Deferral(task: Id, excluded: Selector.Counts, binding: Option<Selector.Reason>)

  /** The answer of a batch; stored under the attempts it was asked for. */
  datatype Batch = Batch(assignments: seq<Id>, deferred: seq<Deferral>, lead: Option<Id>)

  datatype CallStatus = Started | Completed | Rejected | Ambiguous

  datatype Call = Call(assignment: Id, executionKey: Id, ordinal: nat, status: CallStatus, amount: Option<Money>)

  datatype CallUsage = CallUsage(input: nat, output: nat, cached: nat, amount: Money, costKnown: bool)

  datatype FailureStatus = Open | Estimated

  /** `usage` is keyed by the reservation it settles, which the schema makes unique, and `callUsage`
      by assignment and call. `failures` holds the reconciliation failures that name a call,
      `unsettled` counts those of an assignment that name none; nothing ever closes the latter. */
  datatype Db = Db(
    runs: map<Id, RunRow>,
    tasks: map<Id, TaskRow>,
    attempts: map<Id, AttemptRow>,
    reservations: map<Id, Reservation>,
    usage: map<Id, UsageRecord>,
    warnings: map<Id, bool>,
    assignments: map<Id, Assignment>,
    batches: map<seq<Id>, Batch>,
    calls: map<Id, Call>,
    callUsage: map<Id, map<Id, CallUsage>>,
    failures: map<Id, FailureStatus>,
    unsettled: map<Id, nat>)

  /** The database file. A committed transaction replaces its value; a failed one leaves it. */
  class Journal {
    var db: Db

    constructor (initial: Db)
      ensures db == initial
    {
      db := initial;
    }
  }

  // ----- Joins -----

  predicate AttemptInRun(db: Db, attempt: Id, run: Id) {
    && attempt in db.attempts && db.attempts[attempt].task in db.tasks
    && db.tasks[db.attempts[attempt].task].run == run
  }

  predicate AssignmentInRun(db: Db, a: Id, run: Id) {
    a in db.assignments && AttemptInRun(db, db.assignments[a].attempt, run)
  }

  predicate TaskInSession(db: Db, task: Id, session: Id) {
    && task in db.tasks && db.tasks[task].run in db.runs
    && db.runs[db.tasks[task].run].session == session
  }

  function LimitOf(db: Db, run: Id): Option<real> {
    if run in db.runs then db.runs[run].limit else None
  }

  // ----- Sums -----

  function Held(r: Reservation, run: Id): real {
    if r.run == run && r.status.Reserved? then r.amount else 0.0
  }

  function HeldIn(run: Id): Reservation -> real {
    (r: Reservation) => Held(r, run)
  }

  function ActualIn(run: Id): UsageRecord -> real {
    (u: UsageRecord) => if u.run == run && u.Authoritative() then u.amount else 0.0
  }

  function EstimatedIn(run: Id): UsageRecord -> real {
    (u: UsageRecord) => if u.run == run && !u.Authoritative() then u.amount else 0.0
  }

  function Used(u: UsageRecord, run: Id): real {
    if u.run == run then u.amount else 0.0
  }

  function UsedIn(run: Id): UsageRecord -> real {
    (u: UsageRecord) => Used(u, run)
  }

  function HeldFor(run: Id, task: Id): Reservation -> real {
    (r: Reservation) => if r.run == run && r.task == Some(task) && r.status.Reserved? then r.amount else 0.0
  }

  function UsedFor(run: Id, task: Id): UsageRecord -> real {
    (u: UsageRecord) => if u.run == run && u.task == Some(task) then u.amount else 0.0
  }

  datatype BudgetSnapshot = BudgetSnapshot(limit: Option<real>, actual: real, estimated: real, reserved: real, available: Option<real>)

  function SnapshotOf(db: Db, run: Id): BudgetSnapshot {
    var actual := Sum(db.usage, ActualIn(run));
    var estimated := Sum(db.usage, EstimatedIn(run));
    var reserved := Sum(db.reservations, HeldIn(run));
    var limit := LimitOf(db, run);
    BudgetSnapshot(limit, actual, estimated, reserved,
                   if limit.None? then None else Some(limit.value - actual - estimated - reserved))
  }

  function TaskCommitted(db: Db, run: Id, task: Id): real {
    Sum(db.usage, UsedFor(run, task)) + Sum(db.reservations, HeldFor(run, task))
  }

  /** All money that a run has spent or holds. */
  function Committed(db: Db, run: Id): real {
    Sum(db.usage, UsedIn(run)) + Sum(db.reservations, HeldIn(run))
  }

  lemma {:induction false} ActualAndEstimated(usage: map<Id, UsageRecord>, run: Id)
    ensures Sum(usage, ActualIn(run)) + Sum(usage, EstimatedIn(run)) == Sum(usage, UsedIn(run))
    decreases |usage|
  {
    if |usage.Keys| != 0 {
      ActualAndEstimated(usage - {Least(usage.Keys)}, run);
    }
  }

  lemma {:induction false} AvailableIsUncommitted(db: Db, run: Id)
    ensures SnapshotOf(db, run).limit == LimitOf(db, run)
    ensures LimitOf(db, run).Some? ==>
              SnapshotOf(db, run).available == Some(LimitOf(db, run).value - Committed(db, run))
  {
    ActualAndEstimated(db.usage, run);
  }
}
