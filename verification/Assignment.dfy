/** Routing decisions and their reservations (routing/assignment.py, AssignmentService). A
    transaction is a function from the database to its next value; an error leaves the database. */
module Assignments {
  import opened Prelude
  import opened Journals
  import opened Ledgers
  import opened Selector

  datatype Request = Request(
    session: Id, run: Id, task: Id, attempt: Id, number: int, catalog: Id, requirements: Requirements,
    config: Id, taskLimit: Option<real>, pin: Option<Key>, fallbackOf: Option<Id>)

  /** What the caller's `candidates()` returns; `current` is the answer of `snapshot_is_current`. */
  datatype RoutingSnapshot = RoutingSnapshot(catalog: Id, config: Id, current: bool, candidates: seq<Candidate>)

  /** The fresh identifiers that a decision uses if it is persisted. */
  datatype Ids = Ids(assignment: Id, reservation: Id)

  datatype AssignError =
    | NotOneAttempt | BadFallbackSource | StaleSnapshot | RevisionChanged | SpansRuns | NegativeAllowance
    | Selection(selector: SelectorError) | Ledger(ledger: LedgerError)

  datatype Answer =
    | Assigned(id: Id, row: Assignment)
    | NotAssigned(excluded: Counts, binding: Option<Reason>)

  // ----- Reading the tables -----

  predicate Owned(db: Db, q: Request) {
    && q.attempt in db.attempts
    && db.attempts[q.attempt].number == q.number && db.attempts[q.attempt].task == q.task
    && TaskInSession(db, q.task, q.session) && db.tasks[q.task].run == q.run
  }

  /** `ORDER BY rowid DESC LIMIT 1` over the selected rows. */
  function Latest(table: map<Id, Assignment>, among: set<Id>): (a: Option<Id>)
    requires forall k :: k in among ==> k in table
    ensures a.None? <==> among == {}
    ensures a.Some? ==> a.value in among && forall k :: k in among ==> table[k].rowid <= table[a.value].rowid
    decreases among
  {
    if among == {} then None
    else
      var k := Least(among);
      var rest := Latest(table, among - {k});
      if rest.None? || table[rest.value].rowid <= table[k].rowid then Some(k) else rest
  }

  predicate Decides(row: Assignment, attempt: Id, fallbackOf: Option<Id>) {
    row.attempt == attempt && row.fallbackOf == fallbackOf
  }

  /** The assignment that holds a decision key. */
  function ExistingFor(table: map<Id, Assignment>, attempt: Id, fallbackOf: Option<Id>): (r: Option<Id>)
    ensures r.Some? ==> r.value in table && Decides(table[r.value], attempt, fallbackOf)
    ensures r.None? ==> forall a :: a in table ==> !Decides(table[a], attempt, fallbackOf)
  {
    var holders := set a | a in table && Decides(table[a], attempt, fallbackOf);
    assert forall a :: a in table && Decides(table[a], attempt, fallbackOf) ==> a in holders;
    Latest(table, holders)
  }

  predicate OfFirstAttempt(db: Db, a: Id, task: Id) {
    && a in db.assignments && db.assignments[a].attempt in db.attempts
    && var attempt := db.attempts[db.assignments[a].attempt];
       attempt.task == task && attempt.number == 1
  }

  /** A second attempt has to be stronger than the newest assignment of the first. */
  function WithBaseline(db: Db, q: Request): Request {
    if q.number != 2 then q
    else
      var prior := Latest(db.assignments, set a | a in db.assignments && OfFirstAttempt(db, a, q.task));
      var fit := if prior.None? then None else db.assignments[prior.value].fit;
      q.(requirements := q.requirements.(escalated := true, failedFit := fit))
  }

  datatype Source = Source(model: Id, reservation: Id, amount: Money, open: bool)

  function SourceOf(db: Db, q: Request): Result<Option<Source>, AssignError> {
    if q.fallbackOf.None? then Ok(None)
    else if q.fallbackOf.value !in db.assignments || db.assignments[q.fallbackOf.value].attempt != q.attempt then
      Err(BadFallbackSource)
    else
      var row := db.assignments[q.fallbackOf.value];
      if row.reservation !in db.reservations then Err(BadFallbackSource)
      else
        var r := db.reservations[row.reservation];
        Ok(Some(Source(row.model, row.reservation, r.amount, r.status.Reserved?)))
  }

  /** What a fallback gets back by giving up its source. */
  function Credit(source: Option<Source>): Money {
    if source.Some? && source.value.open then source.value.amount else 0.0
  }

  function Within(a: Option<real>, b: Option<real>): Option<real> {
    if a.None? then b else if b.None? then a else Some(Min(a.value, b.value))
  }

  function TaskFunds(db: Db, q: Request): Option<real> {
    if q.taskLimit.None? then None else Some(q.taskLimit.value - TaskCommitted(db, q.run, q.task))
  }

  function More(funds: Option<real>, extra: real): Option<real> {
    if funds.None? then None else Some(funds.value + extra)
  }

  function FundsFor(db: Db, q: Request, source: Option<Source>): Option<real> {
    Within(More(SnapshotOf(db, q.run).available, Credit(source)), More(TaskFunds(db, q), Credit(source)))
  }

  predicate AllowsUnpriced(db: Db, q: Request) {
    q.requirements.mode == Manual && q.taskLimit.None? && LimitOf(db, q.run).None?
  }

  // ----- Deciding -----

  datatype Decision = Choose(candidate: Candidate) | Refuse(excluded: Counts, binding: Option<Reason>)

  /** A chosen model has a price within the funds, unless nothing limits the request. */
  function Decide(db: Db, q: Request, source: Option<Source>, funds: Option<real>, candidates: seq<Candidate>)
    : (r: Result<Decision, AssignError>)
    ensures r.Err? ==> r.error.Selection?
    ensures r.Ok? && r.value.Choose? ==>
      var c := r.value.candidate;
      && c in candidates
      && (c.estimatedCost.None? ==> AllowsUnpriced(db, q))
      && (funds.Some? ==> c.estimatedCost.Some? && c.estimatedCost.value <= funds.value)
      && (source.Some? ==> c.key.model == source.value.model)
      && (q.requirements.escalated ==>
            c.autoEligible && q.requirements.failedFit.Some? && c.Fit().Some? && c.Fit().value > q.requirements.failedFit.value)
  {
    match SelectSpec(candidates, q.requirements, funds, q.pin)
    case Err(e) => Err(Selection(e))
    case Ok(RouteFailure(excluded, binding)) => Ok(Refuse(excluded, binding))
    case Ok(Selected(c, _, _, _)) =>
      SelectionAffordable(candidates, q.requirements, funds, q.pin);
      if c.estimatedCost.None? && !AllowsUnpriced(db, q) then
        Ok(Refuse(map[PriceUnavailableForReservation := 1], Some(PriceUnavailableForReservation)))
      else if source.Some? && c.key.model != source.value.model then
        Ok(Refuse(map[FallbackModelMismatch := 1], Some(FallbackModelMismatch)))
      else Ok(Choose(c))
  }

  // ----- One assignment -----

  function Cost(c: Candidate): Money {
    if c.estimatedCost.None? then 0.0 else c.estimatedCost.value
  }

  function Booking(q: Request, c: Candidate, ids: Ids): ReservationRequest {
    ReservationRequest(ids.reservation, q.run, Some(q.task), Cost(c), ForAssignment(ids.assignment),
                       if c.estimatedCost.None? then UnpricedManual else TaskAttempt)
  }

  function RowOf(db: Db, q: Request, c: Candidate, ids: Ids): Assignment {
    Assignment(q.attempt, c.key.provider, c.key.model, Cost(c), if c.autoEligible then c.Fit() else None,
               ids.reservation, c.pricing, q.fallbackOf, |db.assignments|)
  }

  function Persist(db: Db, percent: real, q: Request, c: Candidate, ids: Ids): Result<Db, AssignError> {
    match Reserve(db, percent, Booking(q, c, ids), q.taskLimit, 0.0)
    case Err(e) => Err(Ledger(e))
    case Ok((booked, _)) =>
      if ids.assignment in db.assignments || ExistingFor(db.assignments, q.attempt, q.fallbackOf).Some? then
        Err(Ledger(IdempotencyConflict))
      else Ok(booked.(assignments := db.assignments[ids.assignment := RowOf(db, q, c, ids)]))
  }

  function SourceReleased(db: Db, percent: real, run: Id, source: Option<Source>): Db
    requires source.Some? ==> source.value.reservation in db.reservations
  {
    if source.Some? && source.value.open then UpdateWarning(Freed(db, source.value.reservation), percent, run) else db
  }

  predicate IsCurrent(q: Request, offer: RoutingSnapshot) {
    offer.current && offer.catalog == q.catalog && offer.config == q.config
  }

  /** The decision for a request that has no answer yet, with its escalation baseline. */
  function AssignNew(db: Db, percent: real, q: Request, offer: RoutingSnapshot, ids: Ids): Result<(Db, Answer), AssignError> {
    var source :- SourceOf(db, q);
    if !IsCurrent(q, offer) then Err(StaleSnapshot)
    else
      var decision :- Decide(db, q, source, FundsFor(db, q, source), offer.candidates);
      match decision
      case Refuse(excluded, binding) => Ok((db, NotAssigned(excluded, binding)))
      case Choose(c) =>
        var after :- Persist(SourceReleased(db, percent, q.run, source), percent, q, c, ids);
        Ok((after, Assigned(ids.assignment, RowOf(db, q, c, ids))))
  }

  function AssignOnce(db: Db, percent: real, q: Request, offer: RoutingSnapshot, ids: Ids): Result<(Db, Answer), AssignError> {
    if !Owned(db, q) then Err(NotOneAttempt)
    else
      var existing := ExistingFor(db.assignments, q.attempt, q.fallbackOf);
      if existing.Some? then Ok((db, Assigned(existing.value, db.assignments[existing.value])))
      else AssignNew(db, percent, WithBaseline(db, q), offer, ids)
  }

  /** The answer for the first offer that is not stale. */
  function AssignWith(db: Db, percent: real, q: Request, offers: seq<RoutingSnapshot>, ids: Ids): Result<(Db, Answer), AssignError>
    requires offers != []
  {
    var first := AssignOnce(db, percent, q, offers[0], ids);
    if first == Err(StaleSnapshot) && |offers| > 1 then AssignWith(db, percent, q, offers[1..], ids) else first
  }

  // ----- A batch -----

  datatype Choice = Choice(request: Request, candidate: Candidate, ids: Ids)

  datatype Choices = Choices(chosen: seq<Choice>, deferred: seq<Deferral>)

  function BatchFunds(db: Db, q: Request, remaining: Option<real>): Option<real> {
    Within(remaining, TaskFunds(db, q))
  }

  function After(remaining: Option<real>, c: Candidate): Option<real> {
    More(remaining, 0.0 - Cost(c))
  }

  predicate Matches(q: Request, offer: RoutingSnapshot) {
    offer.catalog == q.catalog && offer.config == q.config
  }

  function ChooseAll(db: Db, qs: seq<Request>, offers: seq<RoutingSnapshot>, ids: seq<Ids>, remaining: Option<real>)
    : Result<Choices, AssignError>
    requires |offers| == |qs| == |ids|
  {
    if qs == [] then Ok(Choices([], []))
    else if !Matches(qs[0], offers[0]) then Err(RevisionChanged)
    else
      var decision :- Decide(db, qs[0], None, BatchFunds(db, qs[0], remaining), offers[0].candidates);
      match decision
      case Refuse(excluded, binding) =>
        var rest :- ChooseAll(db, qs[1..], offers[1..], ids[1..], remaining);
        Ok(rest.(deferred := [Deferral(qs[0].task, excluded, binding)] + rest.deferred))
      case Choose(c) =>
        var rest :- ChooseAll(db, qs[1..], offers[1..], ids[1..], After(remaining, c));
        Ok(rest.(chosen := [Choice(qs[0], c, ids[0])] + rest.chosen))
  }

  function PersistAll(db: Db, percent: real, choices: seq<Choice>): Result<Db, AssignError>
    decreases |choices|
  {
    if choices == [] then Ok(db)
    else
      var next :- Persist(db, percent, choices[0].request, choices[0].candidate, choices[0].ids);
      PersistAll(next, percent, choices[1..])
  }

  function WithBaselines(db: Db, qs: seq<Request>): (rs: seq<Request>)
    ensures |rs| == |qs| && forall i :: 0 <= i < |qs| ==> rs[i] == WithBaseline(db, qs[i])
  {
    seq(|qs|, i requires 0 <= i < |qs| => WithBaseline(db, qs[i]))
  }

  function AttemptsOf(qs: seq<Request>): seq<Id> {
    seq(|qs|, i requires 0 <= i < |qs| => qs[i].attempt)
  }

  function AssignmentIds(choices: seq<Choice>): seq<Id> {
    seq(|choices|, i requires 0 <= i < |choices| => choices[i].ids.assignment)
  }

  function LeadBooking(run: Id, lead: Money, leadId: Id): ReservationRequest {
    ReservationRequest(leadId, run, None, lead, ForBatchLead(leadId), LeadContinuation)
  }

  /** Reserving what was chosen: first the allowance of the lead, then each assignment. */
  function Commit(db: Db, percent: real, run: Id, choices: seq<Choice>, lead: real, leadId: Id): Result<Db, AssignError> {
    if lead < 0.0 then Err(NegativeAllowance)
    else
      match Reserve(db, percent, LeadBooking(run, lead, leadId), None, 0.0)
      case Err(e) => Err(Ledger(e))
      case Ok((booked, _)) => PersistAll(booked, percent, choices)
  }

  /** The choices of a batch, made within what the lead's allowance leaves. */
  function BatchChoices(db: Db, qs: seq<Request>, offers: seq<RoutingSnapshot>, ids: seq<Ids>, lead: real): Result<Choices, AssignError>
    requires qs != [] && |offers| == |qs| == |ids|
  {
    ChooseAll(db, WithBaselines(db, qs), offers, ids, More(SnapshotOf(db, qs[0].run).available, 0.0 - lead))
  }

  function AssignBatch(db: Db, percent: real, qs: seq<Request>, offers: seq<RoutingSnapshot>, ids: seq<Ids>, lead: real, leadId: Id)
    : Result<(Db, Batch), AssignError>
    requires |offers| == |qs| == |ids|
  {
    if qs == [] then Ok((db, Batch([], [], None)))
    else if exists q :: q in qs && q.run != qs[0].run then Err(SpansRuns)
    else if exists q :: q in qs && !Owned(db, q) then Err(NotOneAttempt)
    else if AttemptsOf(qs) in db.batches then Ok((db, db.batches[AttemptsOf(qs)]))
    else
      var choices :- BatchChoices(db, qs, offers, ids, lead);
      if choices.chosen == [] then Ok((db, Batch([], choices.deferred, None)))
      else
        var after :- Commit(db, percent, qs[0].run, choices.chosen, lead, leadId);
        var answer := Batch(AssignmentIds(choices.chosen), choices.deferred, Some(leadId));
        Ok((after.(batches := after.batches[AttemptsOf(qs) := answer]), answer))
  }
}
