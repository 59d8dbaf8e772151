/** What an assignment decides and writes, in the fields of the request, the candidates and the tables
    (routing/assignment.py, AssignmentService._assign_once). */
module AssignmentOutcomes {
  import opened Prelude
  import opened Journals
  import opened Ledgers
  import opened Selector
  import opened Assignments
  import Ch = Chains
  import Q = Qualifications
  import L = LedgerAnswers
  import T = TaskSpending

  // ----- What the request names -----

  /** The session, run, task and attempt of the request belong together. */
  ghost predicate OneAttempt(db: Db, q: Request) {
    && q.attempt in db.attempts && db.attempts[q.attempt].task == q.task && db.attempts[q.attempt].number == q.number
    && q.task in db.tasks && db.tasks[q.task].run == q.run
    && q.run in db.runs && db.runs[q.run].session == q.session
  }

  ghost predicate Decided(db: Db, q: Request) {
    exists a :: a in db.assignments && db.assignments[a].attempt == q.attempt && db.assignments[a].fallbackOf == q.fallbackOf
  }

  /** What it falls back from, if anything, is an assignment of the same attempt with a reservation. */
  ghost predicate SourceKnown(db: Db, q: Request) {
    q.fallbackOf.Some? ==>
      && q.fallbackOf.value in db.assignments && db.assignments[q.fallbackOf.value].attempt == q.attempt
      && db.assignments[q.fallbackOf.value].reservation in db.reservations
  }

  /** What giving the source up would free. */
  ghost function Returned(db: Db, q: Request): real
    requires SourceKnown(db, q)
  {
    if q.fallbackOf.None? then 0.0
    else
      var r := db.reservations[db.assignments[q.fallbackOf.value].reservation];
      if r.status == Reserved then r.amount else 0.0
  }

  ghost predicate SameModel(db: Db, q: Request, c: Candidate)
    requires SourceKnown(db, q)
  {
    q.fallbackOf.Some? ==> c.key.model == db.assignments[q.fallbackOf.value].model
  }

  // ----- What it may cost -----

  /** The run and the task have room for the cost once the source is given up. */
  ghost predicate Room(db: Db, q: Request, cost: real)
    requires SourceKnown(db, q)
  {
    && (q.run in db.runs && db.runs[q.run].limit.Some? ==>
          L.RunSpent(db, q.run) - Returned(db, q) + cost <= db.runs[q.run].limit.value)
    && (q.taskLimit.Some? ==> T.Spent(db, q.run, q.task) - Returned(db, q) + cost <= q.taskLimit.value)
  }

  /** `left` is all that there is room for; there is none to name when neither limit is set. */
  ghost predicate IsLeft(db: Db, q: Request, left: Option<real>)
    requires SourceKnown(db, q)
  {
    match left
    case None => q.taskLimit.None? && !(q.run in db.runs && db.runs[q.run].limit.Some?)
    case Some(most) =>
      && (q.taskLimit.Some? || (q.run in db.runs && db.runs[q.run].limit.Some?))
      && forall cost: real {:trigger Room(db, q, cost)} :: Room(db, q, cost) <==> cost <= most
  }

  lemma {:induction false} LeftIsUnique(db: Db, q: Request, a: Option<real>, b: Option<real>)
    requires SourceKnown(db, q) && IsLeft(db, q, a) && IsLeft(db, q, b)
    ensures a == b
  {
    hide Room;
    if a.Some? && b.Some? {
      assert Room(db, q, a.value) && Room(db, q, b.value);
    }
  }

  lemma {:induction false} SourceExactly(db: Db, q: Request)
    ensures SourceOf(db, q).Ok? <==> SourceKnown(db, q)
    ensures SourceOf(db, q).Err? ==> SourceOf(db, q).error == BadFallbackSource
    ensures SourceOf(db, q).Ok? ==>
      var source := SourceOf(db, q).value;
      && Credit(source) == Returned(db, q) && (source.Some? <==> q.fallbackOf.Some?)
      && (source.Some? ==>
            && source.value.model == db.assignments[q.fallbackOf.value].model
            && source.value.reservation == db.assignments[q.fallbackOf.value].reservation
            && (source.value.open <==> db.reservations[source.value.reservation].status == Reserved))
  {
  }

  /** The selection is made with exactly what is left. */
  lemma {:induction false} FundsAreLeft(db: Db, q: Request, source: Option<Source>)
    requires BooksOf(db).Matched() && SourceOf(db, q) == Ok(source)
    ensures SourceKnown(db, q) && IsLeft(db, q, FundsFor(db, q, source))
  {
    hide *;
    SourceExactly(db, q);
    FundsMean(db, q, source, 0.0);
    forall cost: real
      ensures FundsFor(db, q, source).Some? ==> (Room(db, q, cost) <==> cost <= FundsFor(db, q, source).value)
    {
      FundsMean(db, q, source, cost);
      RoomMeans(db, q, cost);
    }
    IsLeftWhen(db, q, FundsFor(db, q, source));
  }

  lemma {:induction false} FundsMean(db: Db, q: Request, source: Option<Source>, cost: real)
    ensures FundsFor(db, q, source).None? <==> LimitOf(db, q.run).None? && q.taskLimit.None?
    ensures FundsFor(db, q, source).Some? ==>
      (cost <= FundsFor(db, q, source).value <==>
         && (LimitOf(db, q.run).Some? ==> Committed(db, q.run) - Credit(source) + cost <= LimitOf(db, q.run).value)
         && (q.taskLimit.Some? ==> TaskCommitted(db, q.run, q.task) - Credit(source) + cost <= q.taskLimit.value))
  {
    AvailableIsUncommitted(db, q.run);
    hide Committed, TaskCommitted, Credit;
  }

  lemma {:induction false} RoomMeans(db: Db, q: Request, cost: real)
    requires BooksOf(db).Matched() && SourceKnown(db, q)
    ensures Room(db, q, cost) <==>
      && (LimitOf(db, q.run).Some? ==> Committed(db, q.run) - Returned(db, q) + cost <= LimitOf(db, q.run).value)
      && (q.taskLimit.Some? ==> TaskCommitted(db, q.run, q.task) - Returned(db, q) + cost <= q.taskLimit.value)
  {
    CountedOnce(db, q.run);
    T.TaskCountedOnce(db, q.run, q.task);
    hide Books.Matched, Charges, T.Spent, Committed, TaskCommitted, Returned;
  }

  lemma {:induction false} IsLeftWhen(db: Db, q: Request, left: Option<real>)
    requires SourceKnown(db, q) && (left.None? <==> LimitOf(db, q.run).None? && q.taskLimit.None?)
    requires forall cost: real {:trigger Room(db, q, cost)} :: left.Some? ==> (Room(db, q, cost) <==> cost <= left.value)
    ensures IsLeft(db, q, left)
  {
    hide Room;
  }

  // ----- What it asks for -----

  ghost predicate FirstTry(db: Db, a: Id, task: Id) {
    && a in db.assignments && db.assignments[a].attempt in db.attempts
    && db.attempts[db.assignments[a].attempt].task == task && db.attempts[db.assignments[a].attempt].number == 1
  }

  ghost predicate NewestFirstTry(db: Db, a: Id, task: Id) {
    FirstTry(db, a, task) && forall b :: FirstTry(db, b, task) ==> db.assignments[b].rowid <= db.assignments[a].rowid
  }

  /** A second attempt asks for more than the fit of the newest assignment of the first. */
  ghost predicate AskedFor(db: Db, q: Request, reqs: Requirements) {
    if q.number != 2 then reqs == q.requirements
    else
      && reqs == q.requirements.(escalated := true, failedFit := reqs.failedFit)
      && ((forall a :: !FirstTry(db, a, q.task)) ==> reqs.failedFit.None?)
      && ((exists a :: FirstTry(db, a, q.task)) ==>
            exists a :: NewestFirstTry(db, a, q.task) && reqs.failedFit == db.assignments[a].fit)
  }

  lemma {:induction false} BaselineAsked(db: Db, q: Request)
    ensures AskedFor(db, q, WithBaseline(db, q).requirements)
    ensures WithBaseline(db, q) == q.(requirements := WithBaseline(db, q).requirements)
  {
    if q.number == 2 {
      var firsts := set a | a in db.assignments && OfFirstAttempt(db, a, q.task);
      var prior := Latest(db.assignments, firsts);
      forall a ensures a in firsts <==> FirstTry(db, a, q.task) { }
      if prior.Some? {
        assert NewestFirstTry(db, prior.value, q.task);
      }
    }
  }

  // ----- What is chosen and written -----

  /** `c` comes first among the candidates that qualify for what is asked and what is left. */
  ghost predicate Chosen(c: Candidate, db: Db, q: Request, candidates: seq<Candidate>)
    requires SourceKnown(db, q)
  {
    exists reqs, left :: AskedFor(db, q, reqs) && IsLeft(db, q, left) && Q.First(c, candidates, reqs, left, q.pin)
  }

  ghost predicate NoneQualifies(db: Db, q: Request, candidates: seq<Candidate>)
    requires SourceKnown(db, q)
  {
    exists reqs, left :: AskedFor(db, q, reqs) && IsLeft(db, q, left) && NoneOf(candidates, reqs, left, q.pin)
  }

  ghost predicate NoneOf(candidates: seq<Candidate>, reqs: Requirements, left: Option<real>, pin: Option<Key>) {
    forall c :: c in candidates ==> !Q.Qualifies(c, reqs, left, pin)
  }

  function Price(c: Candidate): Money {
    if c.estimatedCost.Some? then c.estimatedCost.value else 0.0
  }

  function Rating(c: Candidate): Option<real> {
    if c.autoEligible && c.capability.Some? then Some(Q.Weakest(c.capability.value)) else None
  }

  /** The assignment of the model at its price, with its own open reservation, in place of the source's. */
  ghost predicate Written(db: Db, after: Db, q: Request, c: Candidate, ids: Ids)
    requires SourceKnown(db, q)
  {
    && after == db.(assignments := after.assignments, reservations := after.reservations, warnings := after.warnings)
    && after.assignments == db.assignments[ids.assignment :=
         Assignment(q.attempt, c.key.provider, c.key.model, Price(c), Rating(c), ids.reservation, c.pricing, q.fallbackOf,
                    |db.assignments|)]
    && ids.assignment !in db.assignments && ids.reservation !in db.reservations
    && ids.reservation in after.reservations && after.reservations.Keys == db.reservations.Keys + {ids.reservation}
    && after.reservations[ids.reservation] ==
         Reservation(q.run, Some(q.task), Price(c), Reserved, ForAssignment(ids.assignment),
                     if c.estimatedCost.Some? then TaskAttempt else UnpricedManual)
    && forall r :: r in db.reservations ==> after.reservations[r] == GivenUp(db, q, r)
  }

  /** The source's reservation is released; any other stays. */
  ghost function GivenUp(db: Db, q: Request, r: Id): Reservation
    requires SourceKnown(db, q) && r in db.reservations
  {
    if q.fallbackOf.Some? && r == db.assignments[q.fallbackOf.value].reservation && db.reservations[r].status == Reserved
    then db.reservations[r].(status := Released) else db.reservations[r]
  }

  // ----- The decision -----

  lemma {:induction false} DecideExactly(db: Db, q: Request, candidates: seq<Candidate>)
    requires SourceOf(db, q).Ok? && BooksOf(db).Matched() && DistinctKeys(candidates)
    requires !(q.requirements.mode == Manual && q.pin.None?)
    ensures var source := SourceOf(db, q).value;
      var left := FundsFor(db, q, source);
      match Decide(db, q, source, left, candidates)
      case Err(e) => e == Selection(UnratedModel) && exists c :: Q.Unrated(c, candidates, q.requirements, left, q.pin)
      case Ok(Refuse(_, binding)) =>
        || NoneOf(candidates, q.requirements, left, q.pin)
        || (binding == Some(FallbackModelMismatch)
            && exists c :: Q.First(c, candidates, q.requirements, left, q.pin) && SourceKnown(db, q) && !SameModel(db, q, c))
      case Ok(Choose(c)) => Q.First(c, candidates, q.requirements, left, q.pin) && SourceKnown(db, q) && SameModel(db, q, c)
  {
    SourceExactly(db, q);
    var source := SourceOf(db, q).value;
    var left := FundsFor(db, q, source);
    FundsMean(db, q, source, 0.0);
    hide FundsFor, SourceOf;
    Q.SelectsTheFirst(candidates, q.requirements, left, q.pin);
    SelectedIsPayable(candidates, q.requirements, left, q.pin);
    hide SelectSpec, Q.First, Q.Qualifies, Books.Matched;
  }

  lemma {:induction false} SelectedIsPayable(candidates: seq<Candidate>, reqs: Requirements, left: Option<real>, pin: Option<Key>)
    ensures match SelectSpec(candidates, reqs, left, pin)
      case Ok(Selected(c, _, _, _)) => c.estimatedCost.None? ==> reqs.mode == Manual && left.None?
      case _ => true
  {
    if SelectSpec(candidates, reqs, left, pin).Ok? && SelectSpec(candidates, reqs, left, pin).value.Selected? {
      SelectionAffordable(candidates, reqs, left, pin);
    }
    hide SelectSpec;
  }

  // ----- What one assignment does -----

  /** A new assignment, with current offers of distinct models: the first candidate that qualifies is
      written with its reservation; or none qualifies, or the fallback would change the model, and nothing
      is written; or the ranking fails on a model without a rating. */
  ghost predicate Outcome(db: Db, q: Request, candidates: seq<Candidate>, ids: Ids, r: Result<(Db, Answer), AssignError>)
    requires SourceKnown(db, q)
  {
    match r
    case Err(Selection(e)) => e == UnratedModel && SomeUnrated(db, q, candidates)
    case Err(Ledger(e)) => e == IdempotencyConflict && !Ch.FreshIds(db, ids)
    case Err(_) => false
    case Ok((after, NotAssigned(_, binding))) =>
      && after == db
      && (NoneQualifies(db, q, candidates)
          || (binding == Some(FallbackModelMismatch) && exists c :: Chosen(c, db, q, candidates) && !SameModel(db, q, c)))
    case Ok((after, Assigned(a, row))) =>
      && a == ids.assignment && a in after.assignments && after.assignments[a] == row
      && exists c :: Chosen(c, db, q, candidates) && SameModel(db, q, c) && (Ch.FreshIds(db, ids) ==> Written(db, after, q, c, ids))
  }

  ghost predicate SomeUnrated(db: Db, q: Request, candidates: seq<Candidate>)
    requires SourceKnown(db, q)
  {
    exists c, reqs, left :: AskedFor(db, q, reqs) && IsLeft(db, q, left) && Q.Unrated(c, candidates, reqs, left, q.pin)
  }

  lemma {:induction false} WrittenExactly(db: Db, percent: real, q: Request, source: Option<Source>, c: Candidate, ids: Ids, after: Db)
    requires SourceOf(db, q) == Ok(source) && SourceKnown(db, q) && Ch.FreshIds(db, ids)
    requires source.Some? ==> source.value.reservation in db.reservations
    requires Persist(SourceReleased(db, percent, q.run, source), percent, q, c, ids) == Ok(after)
    ensures Written(db, after, q, c, ids)
  {
    hide *;
    Ch.ReleaseKeepsFresh(db, percent, q.run, source, ids);
    var mid := SourceReleased(db, percent, q.run, source);
    MidIs(db, percent, q, source, mid);
    PersistWrites(mid, percent, q, c, ids, after);
    RowAdded(mid.assignments, ids.assignment, after.assignments[ids.assignment], after.assignments);
    RowAdded(mid.reservations, ids.reservation, after.reservations[ids.reservation], after.reservations);
    WrittenWhen(db, mid, q, c, ids, after);
  }

  lemma {:induction false} RowAdded<V>(table: map<Id, V>, k: Id, v: V, after: map<Id, V>)
    requires k !in table && after == table[k := v]
    ensures after.Keys == table.Keys + {k} && forall x :: x in table ==> x in after && after[x] == table[x]
  {
  }

  lemma {:induction false} WrittenWhen(db: Db, mid: Db, q: Request, c: Candidate, ids: Ids, after: Db)
    requires SourceKnown(db, q) && ids.assignment !in db.assignments && ids.reservation !in db.reservations
    requires mid == db.(reservations := mid.reservations, warnings := mid.warnings) && mid.reservations.Keys == db.reservations.Keys
    requires forall r :: r in db.reservations ==> mid.reservations[r] == GivenUp(db, q, r)
    requires after == mid.(assignments := after.assignments, reservations := after.reservations, warnings := after.warnings)
    requires after.assignments == db.assignments[ids.assignment :=
      Assignment(q.attempt, c.key.provider, c.key.model, Price(c), Rating(c), ids.reservation, c.pricing, q.fallbackOf, |db.assignments|)]
    requires after.reservations.Keys == mid.reservations.Keys + {ids.reservation}
    requires forall r :: r in mid.reservations ==> r in after.reservations && after.reservations[r] == mid.reservations[r]
    requires ids.reservation in after.reservations && after.reservations[ids.reservation] ==
      Reservation(q.run, Some(q.task), Price(c), Reserved, ForAssignment(ids.assignment),
                  if c.estimatedCost.Some? then TaskAttempt else UnpricedManual)
    ensures Written(db, after, q, c, ids)
  {
    hide GivenUp, SourceKnown, Price, Rating;
  }

  /** The two rows of a model that is persisted under fresh ids. */
  lemma {:induction false} PersistWrites(db: Db, percent: real, q: Request, c: Candidate, ids: Ids, after: Db)
    requires Ch.FreshIds(db, ids) && Persist(db, percent, q, c, ids) == Ok(after)
    ensures ids.assignment !in db.assignments && ids.reservation !in db.reservations
    ensures after == db.(assignments := after.assignments, reservations := after.reservations, warnings := after.warnings)
    ensures after.assignments == db.assignments[ids.assignment :=
      Assignment(q.attempt, c.key.provider, c.key.model, Price(c), Rating(c), ids.reservation, c.pricing, q.fallbackOf, |db.assignments|)]
    ensures after.reservations == db.reservations[ids.reservation :=
      Reservation(q.run, Some(q.task), Price(c), Reserved, ForAssignment(ids.assignment),
                  if c.estimatedCost.Some? then TaskAttempt else UnpricedManual)]
  {
    var booked, warned := Ch.PersistAnatomy(db, percent, q, c, ids, after);
    hide Persist;
    RowIs(db, q, c, ids);
    hide RowOf;
    BookedRows(db, percent, q, c, ids, booked, warned);
    hide Reserve, Ch.FreshIds, Price, Rating;
  }

  lemma {:induction false} BookedRows(db: Db, percent: real, q: Request, c: Candidate, ids: Ids, booked: Db, warned: bool)
    requires Ch.FreshIds(db, ids) && Reserve(db, percent, Booking(q, c, ids), q.taskLimit, 0.0) == Ok((booked, warned))
    ensures ids.reservation !in db.reservations
    ensures booked == db.(reservations := booked.reservations, warnings := booked.warnings)
    ensures booked.reservations == db.reservations[ids.reservation :=
      Reservation(q.run, Some(q.task), Price(c), Reserved, ForAssignment(ids.assignment),
                  if c.estimatedCost.Some? then TaskAttempt else UnpricedManual)]
  {
    BookedAnatomy(db, percent, Booking(q, c, ids), q.taskLimit, 0.0, booked, warned);
    WarningOnly(Inserted(db, Booking(q, c, ids)), percent, q.run);
    hide UpdateWarning, Reserve, KeyTaken;
  }

  lemma {:induction false} RowIs(db: Db, q: Request, c: Candidate, ids: Ids)
    ensures RowOf(db, q, c, ids) == Assignment(q.attempt, c.key.provider, c.key.model, Price(c), Rating(c), ids.reservation, c.pricing,
                                               q.fallbackOf, |db.assignments|)
    ensures Cost(c) == Price(c)
  {
  }

  lemma {:induction false} FreedOnly(db: Db, percent: real, run: Id, x: Id, mid: Db)
    requires x in db.reservations && mid == UpdateWarning(Freed(db, x), percent, run)
    ensures mid == db.(reservations := mid.reservations, warnings := mid.warnings)
    ensures mid.reservations == db.reservations[x := db.reservations[x].(status := Released)]
  {
    hide WarningDue;
  }

  lemma {:induction false} MidIs(db: Db, percent: real, q: Request, source: Option<Source>, mid: Db)
    requires SourceOf(db, q) == Ok(source) && SourceKnown(db, q) && mid == SourceReleased(db, percent, q.run, source)
    requires source.Some? ==> source.value.reservation in db.reservations
    ensures mid == db.(reservations := mid.reservations, warnings := mid.warnings)
    ensures mid.reservations.Keys == db.reservations.Keys
    ensures forall r :: r in db.reservations ==> mid.reservations[r] == GivenUp(db, q, r)
  {
    SourceExactly(db, q);
    hide SourceOf, UpdateWarning, SourceKnown, Freed;
    if source.Some? && source.value.open {
      FreedOnly(db, percent, q.run, source.value.reservation, mid);
    }
  }

  lemma {:induction false} SameSource(db: Db, q: Request, reqs: Requirements)
    ensures var r := q.(requirements := reqs);
      && SourceOf(db, r) == SourceOf(db, q) && (SourceKnown(db, r) <==> SourceKnown(db, q))
      && forall source :: FundsFor(db, r, source) == FundsFor(db, q, source)
  {
    hide SnapshotOf, TaskCommitted;
  }

  lemma {:induction false} NewAnatomy(db: Db, percent: real, q: Request, source: Option<Source>, offer: RoutingSnapshot, ids: Ids)
    requires Owned(db, q) && ExistingFor(db.assignments, q.attempt, q.fallbackOf).None? && IsCurrent(q, offer)
    requires SourceOf(db, q) == Ok(source) && (source.Some? ==> source.value.reservation in db.reservations)
    ensures var r, answer := WithBaseline(db, q), AssignOnce(db, percent, q, offer, ids);
      var decision := Decide(db, r, source, FundsFor(db, q, source), offer.candidates);
      if decision.Err? then answer == Err(decision.error)
      else if decision.value.Refuse? then answer == Ok((db, NotAssigned(decision.value.excluded, decision.value.binding)))
      else
        var c := decision.value.candidate;
        var stored := Persist(SourceReleased(db, percent, q.run, source), percent, r, c, ids);
        if stored.Err? then answer == Err(stored.error) && stored.error.Ledger?
        else answer == Ok((stored.value, Assigned(ids.assignment, RowOf(db, r, c, ids))))
             && ids.assignment in stored.value.assignments && stored.value.assignments[ids.assignment] == RowOf(db, r, c, ids)
  {
    var r := WithBaseline(db, q);
    SameSource(db, q, r.requirements);
    BaselineAsked(db, q);
    hide WithBaseline, Decide, ExistingFor, SourceOf, Reserve, FundsFor, Booking;
    Ch.SourceReleaseLeaves(db, percent, q.run, source);
    hide SourceReleased;
  }

  lemma {:induction false} SameWritten(db: Db, after: Db, q: Request, reqs: Requirements, c: Candidate, ids: Ids)
    requires SourceKnown(db, q)
    ensures SourceKnown(db, q.(requirements := reqs))
    ensures Written(db, after, q.(requirements := reqs), c, ids) <==> Written(db, after, q, c, ids)
    ensures SameModel(db, q.(requirements := reqs), c) <==> SameModel(db, q, c)
  {
  }

  lemma {:induction false} SameMode(db: Db, q: Request)
    ensures WithBaseline(db, q).requirements.mode == q.requirements.mode
  {
  }

  lemma {:induction false} NothingWritten(db: Db, q: Request, reqs: Requirements, left: Option<real>, candidates: seq<Candidate>, ids: Ids,
                                          answer: Result<(Db, Answer), AssignError>)
    requires SourceKnown(db, q) && AskedFor(db, q, reqs) && IsLeft(db, q, left)
    requires answer.Err? ==> answer.error == Selection(UnratedModel) && exists c :: Q.Unrated(c, candidates, reqs, left, q.pin)
    requires answer.Ok? ==>
      && answer.value.0 == db && answer.value.1.NotAssigned?
      && (NoneOf(candidates, reqs, left, q.pin)
          || (answer.value.1.binding == Some(FallbackModelMismatch)
              && exists c :: Q.First(c, candidates, reqs, left, q.pin) && !SameModel(db, q, c)))
    ensures Outcome(db, q, candidates, ids, answer)
  {
    hide AskedFor, IsLeft, Q.First, Q.Unrated, NoneOf, SameModel, Written, SourceKnown;
    if answer.Err? {
      var c :| Q.Unrated(c, candidates, reqs, left, q.pin);
      assert SomeUnrated(db, q, candidates);
    } else if NoneOf(candidates, reqs, left, q.pin) {
      assert NoneQualifies(db, q, candidates);
    } else {
      var c :| Q.First(c, candidates, reqs, left, q.pin) && !SameModel(db, q, c);
      assert Chosen(c, db, q, candidates);
    }
  }

  lemma {:induction false} ChosenIsWritten(db: Db, q: Request, reqs: Requirements, left: Option<real>, candidates: seq<Candidate>,
                                           c: Candidate, ids: Ids, answer: Result<(Db, Answer), AssignError>)
    requires SourceKnown(db, q) && AskedFor(db, q, reqs) && IsLeft(db, q, left)
    requires Q.First(c, candidates, reqs, left, q.pin) && SameModel(db, q, c)
    requires answer.Err? ==> answer.error == Ledger(IdempotencyConflict) && !Ch.FreshIds(db, ids)
    requires answer.Ok? ==>
      && answer.value.1.Assigned? && answer.value.1.id == ids.assignment
      && ids.assignment in answer.value.0.assignments && answer.value.0.assignments[ids.assignment] == answer.value.1.row
      && (Ch.FreshIds(db, ids) ==> Written(db, answer.value.0, q, c, ids))
    ensures Outcome(db, q, candidates, ids, answer)
  {
    hide AskedFor, IsLeft, Q.First, SameModel, Written, SourceKnown, Ch.FreshIds;
    assert Chosen(c, db, q, candidates);
  }

  lemma {:induction false} NewExactly(db: Db, percent: real, q: Request, offer: RoutingSnapshot, ids: Ids)
    requires Ch.Funded(db) && BooksOf(db).Matched() && DistinctKeys(offer.candidates) && !(q.requirements.mode == Manual && q.pin.None?)
    requires Owned(db, q) && ExistingFor(db.assignments, q.attempt, q.fallbackOf).None? && SourceKnown(db, q) && IsCurrent(q, offer)
    ensures Outcome(db, q, offer.candidates, ids, AssignOnce(db, percent, q, offer, ids))
  {
    hide *;
    var r := WithBaseline(db, q);
    BaselineAsked(db, q);
    SameMode(db, q);
    SameSource(db, q, r.requirements);
    SourceExactly(db, q);
    var source := SourceOf(db, q).value;
    var left := FundsFor(db, q, source);
    FundsAreLeft(db, q, source);
    DecideExactly(db, r, offer.candidates);
    Ch.SourceBelongs(db, q, source);
    NewAnatomy(db, percent, q, source, offer, ids);
    var answer := AssignOnce(db, percent, q, offer, ids);
    var decision := Decide(db, r, source, left, offer.candidates);
    if decision.Ok? && decision.value.Choose? {
      var c := decision.value.candidate;
      if answer.Err? {
        Ch.AffordedIsAccepted(db, percent, q, offer, ids, answer.error.ledger);
      } else {
        if Ch.FreshIds(db, ids) {
          WrittenExactly(db, percent, r, source, c, ids, answer.value.0);
        }
        SameWritten(db, answer.value.0, q, r.requirements, c, ids);
      }
      SameWritten(db, db, q, r.requirements, c, ids);
      ChosenIsWritten(db, q, r.requirements, left, offer.candidates, c, ids, answer);
    } else {
      forall c ensures SameModel(db, r, c) <==> SameModel(db, q, c) {
        SameWritten(db, db, q, r.requirements, c, ids);
      }
      NothingWritten(db, q, r.requirements, left, offer.candidates, ids, answer);
    }
  }

  lemma {:induction false} PinMissing(db: Db, percent: real, q: Request, offer: RoutingSnapshot, ids: Ids)
    requires Ch.Funded(db) && Owned(db, q) && ExistingFor(db.assignments, q.attempt, q.fallbackOf).None?
    requires SourceKnown(db, q) && IsCurrent(q, offer) && q.requirements.mode == Manual && q.pin.None?
    ensures AssignOnce(db, percent, q, offer, ids) == Err(Selection(ManualPinMissing))
  {
    SameMode(db, q);
    BaselineAsked(db, q);
    SourceExactly(db, q);
    var source := SourceOf(db, q).value;
    Ch.SourceBelongs(db, q, source);
    NewAnatomy(db, percent, q, source, offer, ids);
    var r := WithBaseline(db, q);
    hide AssignOnce, WithBaseline, FundsFor;
    assert Decide(db, r, source, FundsFor(db, q, source), offer.candidates) == Err(Selection(ManualPinMissing));
  }

  /** An assignment is refused for a request that names no attempt, or a source that is not its own, or
      for offers that are not current; a decision made before is answered again; otherwise it is made
      by the outcome above. */
  lemma {:induction false} AssignedExactly(db: Db, percent: real, q: Request, offer: RoutingSnapshot, ids: Ids)
    requires Ch.Funded(db) && BooksOf(db).Matched() && DistinctKeys(offer.candidates)
    ensures var r := AssignOnce(db, percent, q, offer, ids);
      if !OneAttempt(db, q) then r == Err(NotOneAttempt)
      else if Decided(db, q) then
        r.Ok? && r.value.0 == db && r.value.1.Assigned? && r.value.1.id in db.assignments
        && var row := db.assignments[r.value.1.id];
           r.value.1.row == row && row.attempt == q.attempt && row.fallbackOf == q.fallbackOf
      else if !SourceKnown(db, q) then r == Err(BadFallbackSource)
      else if !(offer.current && offer.catalog == q.catalog && offer.config == q.config) then r == Err(StaleSnapshot)
      else if q.requirements.mode == Manual && q.pin.None? then r == Err(Selection(ManualPinMissing))
      else Outcome(db, q, offer.candidates, ids, r)
  {
    var e := ExistingFor(db.assignments, q.attempt, q.fallbackOf);
    assert OneAttempt(db, q) <==> Owned(db, q);
    assert Decided(db, q) <==> e.Some?;
    BaselineAsked(db, q);
    SourceExactly(db, q);
    if OneAttempt(db, q) && !Decided(db, q) && SourceKnown(db, q) && IsCurrent(q, offer) {
      if q.requirements.mode == Manual && q.pin.None? {
        PinMissing(db, percent, q, offer, ids);
      } else {
        NewExactly(db, percent, q, offer, ids);
      }
    }
    hide Outcome, Ch.Funded, Books.Matched, Decide, Persist;
  }

  // ----- A refusal that is never given -----

  lemma {:induction false} TalliedHolds(s: seq<Candidate>, req: Requirements, available: Option<real>, pin: Option<Key>, r: Reason, atHand: bool)
    requires Q.Tally(s, req, available, pin, r, atHand) > 0
    ensures r != PriceUnavailableForReservation
  {
    if s != [] && !Q.Excludes(r, s[0], req, available, pin) {
      TalliedHolds(s[1..], req, available, pin, r, atHand);
    }
  }

  lemma {:induction false} SelectionGivesAnother(candidates: seq<Candidate>, reqs: Requirements, left: Option<real>, pin: Option<Key>)
    requires DistinctKeys(candidates)
    ensures match SelectSpec(candidates, reqs, left, pin)
      case Ok(outcome) => outcome.binding != Some(PriceUnavailableForReservation)
      case Err(_) => true
  {
    var r := SelectSpec(candidates, reqs, left, pin);
    Q.BindingConstraint(candidates, reqs, left, pin);
    hide SelectSpec, Q.Tally, Q.Excludes, DistinctKeys, Alphabetical;
    if r.Ok? && r.value.binding.Some? {
      var b := r.value.binding.value;
      if x :| Q.PinExcluded(candidates, reqs, left, pin, x) {
        PinnedHolds(candidates, reqs, left, pin, x);
      } else {
        TalliedHolds(candidates, reqs, left, pin, b, Q.SomeExcluded(candidates, reqs, left, pin, true));
      }
    }
  }

  lemma {:induction false} PinnedHolds(candidates: seq<Candidate>, reqs: Requirements, left: Option<real>, pin: Option<Key>, r: Reason)
    requires Q.PinExcluded(candidates, reqs, left, pin, r)
    ensures r != PriceUnavailableForReservation
  {
  }

  /** An assignment is never refused because its price is not available for the reservation: where nothing
      limits the request no price is needed, and where something does the selection asks for one. */
  lemma {:induction false} NeverUnpriced(db: Db, percent: real, q: Request, offer: RoutingSnapshot, ids: Ids)
    requires DistinctKeys(offer.candidates)
    ensures var r := AssignOnce(db, percent, q, offer, ids);
      r.Ok? && r.value.1.NotAssigned? ==> r.value.1.binding != Some(PriceUnavailableForReservation)
  {
    var w := WithBaseline(db, q);
    if SourceOf(db, w).Ok? {
      var left := FundsFor(db, w, SourceOf(db, w).value);
      SelectionGivesAnother(offer.candidates, w.requirements, left, w.pin);
      SelectedIsPayable(offer.candidates, w.requirements, left, w.pin);
      FundsMean(db, w, SourceOf(db, w).value, 0.0);
    }
    hide WithBaseline, FundsFor, SourceOf, SelectSpec, Persist, ExistingFor, Owned, DistinctKeys;
  }

  // ----- Trying again -----

  /** With the offers that the caller gives one after another, the answer is that for the first which is not
      stale, or for the last. */
  lemma {:induction false} TriesUntilCurrent(db: Db, percent: real, q: Request, offers: seq<RoutingSnapshot>, ids: Ids) returns (k: nat)
    requires offers != []
    ensures k < |offers| && AssignWith(db, percent, q, offers, ids) == AssignOnce(db, percent, q, offers[k], ids)
    ensures forall i :: 0 <= i < k ==> AssignOnce(db, percent, q, offers[i], ids) == Err(StaleSnapshot)
    ensures k + 1 < |offers| ==> AssignOnce(db, percent, q, offers[k], ids) != Err(StaleSnapshot)
    decreases |offers|
  {
    hide AssignOnce;
    k := 0;
    if AssignOnce(db, percent, q, offers[0], ids) == Err(StaleSnapshot) && |offers| > 1 {
      var later := TriesUntilCurrent(db, percent, q, offers[1..], ids);
      k := later + 1;
      forall i | 0 <= i < k ensures AssignOnce(db, percent, q, offers[i], ids) == Err(StaleSnapshot) {
        assert i > 0 ==> offers[i] == offers[1..][i - 1];
      }
    }
  }
}
