/** Crash recovery of a session (sessions/recovery.py): one transaction over attempts, tasks, calls
    and reservations, given the idempotency keys that the latest checkpoint calls live. */
module Recoveries {
  import opened Prelude
  import opened Tasks
  import opened Journals
  import opened Ledgers
  import opened Chains
  import opened Calls
  import opened CallProtocol

  // ----- Reading the tables -----

  predicate Active(db: Db, t: Id, session: Id) {
    && t in db.attempts && TaskInSession(db, db.attempts[t].task, session)
    && (db.attempts[t].status.AttemptAssigned? || db.attempts[t].status.AttemptRunning?)
  }

  function Dead(db: Db, session: Id, live: set<Id>): set<Id> {
    set t | t in db.attempts && Active(db, t, session) && db.attempts[t].key !in live
  }

  function Live(db: Db, session: Id, live: set<Id>): set<Id> {
    set t | t in db.attempts && Active(db, t, session) && db.attempts[t].key in live
  }

  function TasksOf(db: Db, attempts: set<Id>): set<Id> {
    set t | t in db.attempts && t in attempts :: db.attempts[t].task
  }

  predicate RunningIn(db: Db, task: Id, session: Id) {
    TaskInSession(db, task, session) && db.tasks[task].status.Running?
  }

  function RunningTasks(db: Db, session: Id): set<Id> {
    set t | t in db.tasks && RunningIn(db, t, session)
  }

  predicate Unresolved(db: Db, c: Id, session: Id) {
    CallInSession(db, c, session) && (db.calls[c].status.Started? || db.calls[c].status.Ambiguous?)
  }

  function UnresolvedCalls(db: Db, session: Id): set<Id> {
    set c | c in db.calls && Unresolved(db, c, session)
  }

  predicate CallForTask(db: Db, c: Id, task: Id) {
    && c in db.calls && db.calls[c].assignment in db.assignments
    && var t := db.assignments[db.calls[c].assignment].attempt;
       t in db.attempts && db.attempts[t].task == task
  }

  predicate AwaitsAnswer(db: Db, task: Id, session: Id) {
    exists c :: c in db.calls && Unresolved(db, c, session) && CallForTask(db, c, task)
  }

  // ----- The transaction -----

  function Interrupted(db: Db, attempts: set<Id>): Db {
    db.(attempts := map t | t in db.attempts ::
          if t in attempts then db.attempts[t].(status := AttemptInterrupted) else db.attempts[t])
  }

  function Returned(db: Db, tasks: set<Id>): Db {
    db.(tasks := map t | t in db.tasks ::
          if t in tasks && db.tasks[t].status.Running? then db.tasks[t].(status := ReturnedToLead) else db.tasks[t])
  }

  predicate HeldByOneOf(r: Reservation, tasks: set<Id>) {
    r.status.Reserved? && r.task.Some? && r.task.value in tasks
  }

  function ReleasedFor(db: Db, tasks: set<Id>): Db {
    db.(reservations := map r | r in db.reservations ::
          if HeldByOneOf(db.reservations[r], tasks) then db.reservations[r].(status := Released) else db.reservations[r])
  }

  /** Running tasks that no live attempt protects. */
  function Unprotected(db: Db, session: Id, live: set<Id>): set<Id> {
    RunningTasks(db, session) - TasksOf(db, Live(db, session, live))
  }

  function Orphans(db: Db, session: Id, live: set<Id>): set<Id> {
    TasksOf(db, Dead(db, session, live)) + Unprotected(db, session, live)
  }

  function Releasable(db: Db, session: Id, live: set<Id>): set<Id> {
    set t | t in Orphans(db, session, live) && !AwaitsAnswer(db, t, session)
  }

  function Recover(db: Db, session: Id, live: set<Id>): Db {
    ReleasedFor(Returned(Interrupted(db, Dead(db, session, live)), Orphans(db, session, live)), Releasable(db, session, live))
  }

  // ----- What recovery establishes -----

  lemma {:induction false} RecoverAnatomy(db: Db, session: Id, live: set<Id>, after: Db)
    requires after == Recover(db, session, live)
    ensures after == db.(attempts := after.attempts, tasks := after.tasks, reservations := after.reservations)
    ensures after.attempts == Interrupted(db, Dead(db, session, live)).attempts
    ensures after.tasks == Returned(db, Orphans(db, session, live)).tasks
    ensures after.reservations == ReleasedFor(db, Releasable(db, session, live)).reservations
  {
  }

  /** Afterwards every assigned or running attempt of the session is live in the checkpoint, and
      every running task has such an attempt. */
  lemma {:induction false} NothingIsLeftBehind(db: Db, session: Id, live: set<Id>, after: Db)
    requires after == Recover(db, session, live)
    ensures forall t :: Active(after, t, session) ==> after.attempts[t].key in live
    ensures forall task :: RunningIn(after, task, session) ==>
              exists t :: Active(after, t, session) && after.attempts[t].task == task && after.attempts[t].key in live
  {
    hide Releasable, ReleasedFor;
    RecoverAnatomy(db, session, live, after);
    var dead := Dead(db, session, live);
    forall t | Active(after, t, session) ensures after.attempts[t].key in live {
      assert t !in dead;
      assert Active(db, t, session);
    }
    forall task | RunningIn(after, task, session)
      ensures exists t :: Active(after, t, session) && after.attempts[t].task == task && after.attempts[t].key in live
    {
      assert task !in Orphans(db, session, live) && task in RunningTasks(db, session);
      assert task in TasksOf(db, Live(db, session, live));
      var t :| t in db.attempts && t in Live(db, session, live) && db.attempts[t].task == task;
      assert t !in dead && Active(after, t, session);
    }
  }

  /** No reservation of a task that waits for a call's outcome is touched, and an orphaned task that
      waits for none holds no money any more. */
  lemma {:induction false} ReleasesExactlyTheOrphans(db: Db, session: Id, live: set<Id>, after: Db, r: Id)
    requires after == Recover(db, session, live) && r in db.reservations
    ensures r in after.reservations
    ensures var row := db.reservations[r];
      after.reservations[r] ==
      if row.status.Reserved? && row.task.Some? && row.task.value in Orphans(db, session, live)
         && !AwaitsAnswer(db, row.task.value, session)
      then row.(status := Released) else row
  {
    hide Orphans, AwaitsAnswer;
    RecoverAnatomy(db, session, live, after);
  }

  // ----- What recovery keeps -----

  function FreedIn(run: Id, tasks: set<Id>): Reservation -> real {
    (r: Reservation) => if r.run == run && HeldByOneOf(r, tasks) then r.amount else 0.0
  }

  /** What recovery takes off a run's account: the open reservations of its orphaned tasks that
      wait for no call. */
  function Freed(db: Db, session: Id, live: set<Id>, run: Id): real {
    Sum(db.reservations, FreedIn(run, Releasable(db, session, live)))
  }

  lemma {:induction false} HeldSplits(before: map<Id, Reservation>, after: map<Id, Reservation>, run: Id, tasks: set<Id>)
    requires before.Keys == after.Keys
    requires forall r :: r in before ==>
      after[r] == if HeldByOneOf(before[r], tasks) then before[r].(status := Released) else before[r]
    ensures Sum(before, HeldIn(run)) == Sum(after, HeldIn(run)) + Sum(before, FreedIn(run, tasks))
    decreases |before|
  {
    if |before.Keys| != 0 {
      var k := Least(before.Keys);
      assert (before - {k}).Keys == (after - {k}).Keys;
      HeldSplits(before - {k}, after - {k}, run, tasks);
    }
  }

  lemma {:induction false} FreedIsMoney(table: map<Id, Reservation>, run: Id, tasks: set<Id>)
    ensures 0.0 <= Sum(table, FreedIn(run, tasks))
    decreases |table|
  {
    if |table.Keys| != 0 {
      FreedIsMoney(table - {Least(table.Keys)}, run, tasks);
    }
  }

  /** Recovery frees for each run exactly what its releasable tasks hold; it moves no other money. */
  lemma {:induction false} RecoveryFreesMoney(db: Db, session: Id, live: set<Id>, after: Db, run: Id)
    requires after == Recover(db, session, live)
    ensures Committed(after, run) == Committed(db, run) - Freed(db, session, live, run)
    ensures 0.0 <= Freed(db, session, live, run) && LimitOf(after, run) == LimitOf(db, run)
  {
    hide Releasable, Orphans, Dead;
    RecoverAnatomy(db, session, live, after);
    HeldSplits(db.reservations, after.reservations, run, Releasable(db, session, live));
    FreedIsMoney(db.reservations, run, Releasable(db, session, live));
  }

  lemma {:induction false} ReleasedKeepsBooks(b: Books, after: Books, runs: map<Id, RunRow>, tasks: map<Id, TaskRow>, afterTasks: map<Id, TaskRow>)
    requires b.Linked(runs, tasks) && b.Matched() && after.usage == b.usage && after.reservations.Keys == b.reservations.Keys
    requires forall r :: r in b.reservations ==>
      || after.reservations[r] == b.reservations[r]
      || (b.reservations[r].status.Reserved? && after.reservations[r] == b.reservations[r].(status := Released))
    requires forall t :: t in tasks ==> t in afterTasks
    ensures after.Linked(runs, afterTasks) && after.Matched() && b.EvolvesTo(after)
  {
    forall r | r in after.reservations
      ensures after.reservations[r].status.Settled? <==> r in after.usage
      ensures after.reservations[r].run in runs
      ensures after.reservations[r].task.Some? ==> after.reservations[r].task.value in afterTasks
    {
      assert r in b.reservations && (b.reservations[r].status.Settled? <==> r in b.usage);
    }
    forall r | r in after.usage
      ensures r in after.reservations && after.usage[r].run == after.reservations[r].run && after.usage[r].task == after.reservations[r].task
    {
      assert b.usage[r].run == b.reservations[r].run;
    }
  }

  /** Recovery keeps every invariant of the tables. */
  lemma {:induction false} RecoveryKeeps(db: Db, session: Id, live: set<Id>, after: Db)
    requires AssignmentsInv(db) && CallsInv(db) && after == Recover(db, session, live)
    ensures AssignmentsInv(after) && CallsInv(after)
    ensures LedgerEvolves(db, after) && AssignmentsKept(db, after) && CallsEvolve(db, after)
  {
    hide AssignmentsInv, CallsInv, LedgerEvolves, CallsEvolve, LedgerInv, Releasable, Orphans, Dead, Recover;
    RecoverAnatomy(db, session, live, after);
    InvParts(db);
    RecoveryKeepsLedger(db, session, live, after);
    RecoveryKeepsOwners(db, session, live, after);
    LedgerStepKeeps(db, after);
    CallsUntouched(db, after);
  }

  lemma {:induction false} RecoveryKeepsOwners(db: Db, session: Id, live: set<Id>, after: Db)
    requires after == Recover(db, session, live)
    ensures SameOwners(db, after) && after.assignments == db.assignments
  {
    hide Releasable, Orphans, Dead;
    RecoverAnatomy(db, session, live, after);
  }

  lemma {:induction false} RecoveryKeepsLedger(db: Db, session: Id, live: set<Id>, after: Db)
    requires LedgerInv(db) && after == Recover(db, session, live)
    ensures LedgerInv(after) && LedgerEvolves(db, after)
  {
    hide Releasable, Orphans, Dead;
    RecoverAnatomy(db, session, live, after);
    hide Recover, Books.Linked, Books.Matched, Books.EvolvesTo;
    ReleasedKeepsBooks(BooksOf(db), BooksOf(after), db.runs, db.tasks, after.tasks);
  }

  /** A second recovery from the same checkpoint finds nothing to do. */
  lemma {:induction false} RecoveryIsIdempotent(db: Db, session: Id, live: set<Id>, after: Db)
    requires after == Recover(db, session, live)
    ensures Recover(after, session, live) == after
  {
    NothingIsLeftBehind(db, session, live, after);
    assert Dead(after, session, live) == {};
    assert Unprotected(after, session, live) == {} by {
      forall task | task in RunningTasks(after, session) ensures task in TasksOf(after, Live(after, session, live)) {
        var t :| Active(after, t, session) && after.attempts[t].task == task && after.attempts[t].key in live;
        assert t in Live(after, session, live);
      }
    }
    assert Orphans(after, session, live) == {} by {
      assert TasksOf(after, {}) == {};
    }
    NothingToDo(after, session, live);
  }

  lemma {:induction false} NothingToDo(db: Db, session: Id, live: set<Id>)
    requires Dead(db, session, live) == {} && Orphans(db, session, live) == {}
    ensures Recover(db, session, live) == db
  {
    hide Dead, Orphans, AwaitsAnswer;
    assert Releasable(db, session, live) == {};
    assert Interrupted(db, {}) == db && Returned(db, {}) == db && ReleasedFor(db, {}) == db;
  }

  /** A running task goes on running exactly when it has a live attempt and no dead one; a live
      attempt alone does not keep it. */
  lemma {:induction false} StaysRunning(db: Db, session: Id, live: set<Id>, after: Db, task: Id)
    requires after == Recover(db, session, live) && RunningIn(db, task, session)
    ensures RunningIn(after, task, session) <==>
            task in TasksOf(db, Live(db, session, live)) && task !in TasksOf(db, Dead(db, session, live))
  {
    hide Releasable, ReleasedFor;
    RecoverAnatomy(db, session, live, after);
    assert task in RunningTasks(db, session);
  }

  /** A task that is running in two attempts, one of them live in the checkpoint. */
  function TwoAttempts(): Db {
    Db(map[0 := RunRow(0, None)], map[0 := TaskRow(0, Running, 0)],
       map[0 := AttemptRow(0, 1, AttemptRunning, 0), 1 := AttemptRow(0, 2, AttemptRunning, 1)],
       map[0 := Reservation(0, Some(0), 6.0, Reserved, FromCaller(0), TaskAttempt)],
       map[], map[], map[], map[], map[], map[], map[], map[])
  }

  /** The live attempt stays, and yet its task is returned to the lead and its money released. */
  lemma {:induction false} LiveAttemptIsNotEnough()
    ensures var after := Recover(TwoAttempts(), 0, {0});
      && Active(after, 0, 0) && after.attempts[0].task == 0
      && 0 in after.tasks && after.tasks[0].status == ReturnedToLead
      && 0 in after.reservations && after.reservations[0].status.Released?
  {
    var db := TwoAttempts();
    assert Active(db, 1, 0) && 1 in Dead(db, 0, {0}) && 0 !in Dead(db, 0, {0});
    assert 0 in TasksOf(db, Dead(db, 0, {0}));
    assert !AwaitsAnswer(db, 0, 0);
    ReleasesExactlyTheOrphans(db, 0, {0}, Recover(db, 0, {0}), 0);
    hide Releasable, Dead, ReleasedFor;
    RecoverAnatomy(db, 0, {0}, Recover(db, 0, {0}));
  }

  // ----- The warning state is not refreshed -----

  predicate AtThreshold(db: Db, percent: real, run: Id, committed: real) {
    LimitOf(db, run).Some? && Reaches(committed, LimitOf(db, run).value, percent)
  }

  /** Recovery leaves the warning rows alone. They stay current exactly when every run at its
      threshold still reaches it without what recovery will release. */
  lemma {:induction false} WarningsAfterRecovery(db: Db, percent: real, session: Id, live: set<Id>, after: Db)
    requires WarningsCurrent(db, percent) && after == Recover(db, session, live)
    ensures WarningsCurrent(after, percent) <==>
            forall run :: run in db.runs && AtThreshold(db, percent, run, Committed(db, run)) ==>
              AtThreshold(db, percent, run, Committed(db, run) - Freed(db, session, live, run))
  {
    hide WarningDue, Recover, Freed, Releasable, AtThreshold;
    WarningRowsStay(db, session, live, after);
    forall run | run in db.runs
      ensures WarningDue(db, percent, run) <==> AtThreshold(db, percent, run, Committed(db, run))
      ensures WarningDue(after, percent, run) <==>
              AtThreshold(db, percent, run, Committed(db, run) - Freed(db, session, live, run))
      ensures WarningDue(after, percent, run) ==> WarningDue(db, percent, run)
      ensures Warned(after, run) == WarningDue(db, percent, run)
    {
      RecoveryFreesMoney(db, session, live, after, run);
      DueAtThreshold(db, percent, run);
      DueAtThreshold(after, percent, run);
      SameLimit(db, after, percent, run, Committed(after, run));
      ThresholdFalls(db, percent, run, Committed(after, run), Committed(db, run));
      assert Warned(db, run) == WarningDue(db, percent, run);
    }
  }

  lemma {:induction false} DueAtThreshold(db: Db, percent: real, run: Id)
    ensures WarningDue(db, percent, run) <==> AtThreshold(db, percent, run, Committed(db, run))
  {
    AvailableIsUncommitted(db, run);
  }

  lemma {:induction false} SameLimit(db: Db, after: Db, percent: real, run: Id, committed: real)
    requires LimitOf(db, run) == LimitOf(after, run)
    ensures AtThreshold(db, percent, run, committed) == AtThreshold(after, percent, run, committed)
  {
  }

  lemma {:induction false} ThresholdFalls(db: Db, percent: real, run: Id, less: real, more: real)
    requires less <= more
    ensures AtThreshold(db, percent, run, less) ==> AtThreshold(db, percent, run, more)
  {
  }

  lemma {:induction false} WarningRowsStay(db: Db, session: Id, live: set<Id>, after: Db)
    requires after == Recover(db, session, live)
    ensures after.warnings == db.warnings && after.runs == db.runs
  {
  }

  /** One run with a limit of 10, whose only task is running without an attempt and holds 9. */
  function StrandedRun(): Db {
    Db(map[0 := RunRow(0, Some(10.0))], map[0 := TaskRow(0, Running, 0)], map[],
       map[0 := Reservation(0, Some(0), 9.0, Reserved, FromCaller(0), TaskAttempt)], map[], map[0 := true],
       map[], map[], map[], map[], map[], map[])
  }

  /** Recovering that run frees its money and leaves its warning up. */
  lemma {:induction false} WarningCanStayUp()
    ensures WarningsCurrent(StrandedRun(), 0.8)
    ensures !WarningsCurrent(Recover(StrandedRun(), 0, {}), 0.8)
  {
    hide Orphans, Dead, Releasable;
    var db, after := StrandedRun(), Recover(StrandedRun(), 0, {});
    RecoverAnatomy(db, 0, {}, after);
    StrandedIsReleased(after);
    OneReservation(db, 9.0);
    OneReservation(after, 0.0);
    AvailableIsUncommitted(db, 0);
    AvailableIsUncommitted(after, 0);
    assert Warned(db, 0) && WarningDue(db, 0.8, 0);
    assert Warned(after, 0) && !WarningDue(after, 0.8, 0);
  }

  lemma {:induction false} StrandedIsReleased(after: Db)
    requires after == Recover(StrandedRun(), 0, {})
    ensures after.reservations == map[0 := Reservation(0, Some(0), 9.0, Released, FromCaller(0), TaskAttempt)]
  {
    var db := StrandedRun();
    assert 0 in RunningTasks(db, 0) && TasksOf(db, Live(db, 0, {})) == {};
    assert 0 in Orphans(db, 0, {}) && !AwaitsAnswer(db, 0, 0);
    ReleasesExactlyTheOrphans(db, 0, {}, after, 0);
    RecoverAnatomy(db, 0, {}, after);
  }

  lemma {:induction false} OneReservation(db: Db, held: real)
    requires db.usage == map[] && db.reservations.Keys == {0} && HeldIn(0)(db.reservations[0]) == held
    ensures Committed(db, 0) == held
  {
    SumWithout(db.reservations, HeldIn(0), 0);
    assert (db.reservations - {0}).Keys == {};
    assert db.usage.Keys == {};
  }

  // ----- The service -----

  datatype Report = Report(attempts: set<Id>, tasks: set<Id>, released: set<Id>, ambiguous: set<Id>)

  function HeldReservations(db: Db, tasks: set<Id>): set<Id> {
    set r | r in db.reservations && HeldByOneOf(db.reservations[r], tasks)
  }

  /** The lists that the caller gets, as sets: interrupted attempts, running tasks interrupted without
      one, released reservations, and calls without a known outcome. */
  function ReportOf(db: Db, session: Id, live: set<Id>): Report {
    var dead := Dead(db, session, live);
    Report(dead, Unprotected(db, session, live) - TasksOf(db, dead),
           HeldReservations(db, Releasable(db, session, live)), UnresolvedCalls(db, session))
  }

  class SessionRecovery {
    const journal: Journal

    constructor (journal: Journal)
      ensures this.journal == journal
    {
      this.journal := journal;
    }

    /** The loop over the attempts that were assigned or running. */
    method InterruptAttempts(session: Id, live: set<Id>) returns (interrupted: set<Id>, shielded: set<Id>, orphans: set<Id>)
      modifies journal
      ensures var db := old(journal.db);
        && interrupted == Dead(db, session, live) && shielded == TasksOf(db, Live(db, session, live))
        && orphans == TasksOf(db, interrupted) && journal.db == Returned(Interrupted(db, interrupted), orphans)
    {
      hide Interrupted, Returned;
      var db := journal.db;
      var rows := set t | t in db.attempts && Active(db, t, session);
      var todo := rows;
      interrupted, shielded, orphans := {}, {}, {};
      NothingChanged(db);
      while todo != {}
        invariant todo <= rows
        invariant interrupted == set t | t in rows - todo && db.attempts[t].key !in live
        invariant shielded == set t | t in rows - todo && db.attempts[t].key in live :: db.attempts[t].task
        invariant orphans == set t | t in interrupted :: db.attempts[t].task
        invariant journal.db == Returned(Interrupted(db, interrupted), orphans)
        decreases todo
      {
        var t :| t in todo;
        var task := db.attempts[t].task;
        if db.attempts[t].key in live {
          shielded := shielded + {task};
        } else {
          OneMoreInterrupted(db, interrupted, orphans, t, task);
          interrupted := interrupted + {t};
          orphans := orphans + {task};
          journal.db := Returned(Interrupted(journal.db, {t}), {task});
        }
        todo := todo - {t};
      }
    }

    /** The loop over the tasks that are still running. */
    method ReturnTasks(session: Id, shielded: set<Id>, orphans: set<Id>) returns (interrupted: set<Id>)
      modifies journal
      ensures var stranded := RunningTasks(old(journal.db), session) - shielded;
        interrupted == stranded - orphans && journal.db == Returned(old(journal.db), stranded)
    {
      hide Returned;
      var db := journal.db;
      var rows := RunningTasks(db, session);
      var todo := rows;
      interrupted := {};
      NothingChanged(db);
      assert (rows - todo) - shielded == {};
      while todo != {}
        invariant todo <= rows
        invariant interrupted == (rows - todo) - shielded - orphans
        invariant journal.db == Returned(db, (rows - todo) - shielded)
        decreases todo
      {
        var task :| task in todo;
        if task !in shielded {
          if task !in orphans {
            interrupted := interrupted + {task};
          }
          OneMoreReturned(db, (rows - todo) - shielded, task);
          assert (rows - todo) - shielded + {task} == (rows - (todo - {task})) - shielded;
          journal.db := Returned(journal.db, {task});
        } else {
          assert (rows - todo) - shielded == (rows - (todo - {task})) - shielded;
        }
        todo := todo - {task};
      }
      assert (rows - todo) - shielded == rows - shielded;
    }

    /** The loop over the orphaned tasks. */
    method ReleaseOrphans(orphans: set<Id>, ambiguous: set<Id>) returns (released: set<Id>)
      modifies journal
      ensures released == HeldReservations(old(journal.db), orphans - ambiguous)
      ensures journal.db == ReleasedFor(old(journal.db), orphans - ambiguous)
    {
      hide ReleasedFor;
      var db := journal.db;
      var todo := orphans;
      released := {};
      NothingChanged(db);
      assert (orphans - todo) - ambiguous == {};
      while todo != {}
        invariant todo <= orphans
        invariant released == HeldReservations(db, (orphans - todo) - ambiguous)
        invariant journal.db == ReleasedFor(db, (orphans - todo) - ambiguous)
        decreases todo
      {
        var task :| task in todo;
        if task !in ambiguous {
          OneMoreReleased(db, (orphans - todo) - ambiguous, task);
          assert (orphans - todo) - ambiguous + {task} == (orphans - (todo - {task})) - ambiguous;
          released := released + HeldReservations(journal.db, {task});
          journal.db := ReleasedFor(journal.db, {task});
        } else {
          assert (orphans - todo) - ambiguous == (orphans - (todo - {task})) - ambiguous;
        }
        todo := todo - {task};
      }
      assert (orphans - todo) - ambiguous == orphans - ambiguous;
    }

    method RecoverSession(session: Id, live: set<Id>) returns (report: Report)
      modifies journal
      ensures journal.db == Recover(old(journal.db), session, live)
      ensures report == ReportOf(old(journal.db), session, live)
    {
      hide Interrupted, Returned, ReleasedFor;
      var db := journal.db;
      var calls := UnresolvedCalls(db, session);
      var ambiguous := set t | t in db.tasks && AwaitsAnswer(db, t, session);
      var attempts, shielded, orphans := InterruptAttempts(session, live);
      RunningAfterwards(db, session, attempts, orphans);
      var tasks := ReturnTasks(session, shielded, orphans);
      var stranded := RunningTasks(db, session) - orphans - shielded;
      ReturnedTogether(Interrupted(db, attempts), orphans, stranded);
      assert orphans + stranded == Orphans(db, session, live);
      assert tasks == Unprotected(db, session, live) - TasksOf(db, attempts);
      OrphansReleased(db, session, live, attempts, orphans + stranded, ambiguous);
      var released := ReleaseOrphans(orphans + stranded, ambiguous);
      report := Report(attempts, tasks, released, calls);
    }
  }

  lemma {:induction false} NothingChanged(db: Db)
    ensures Returned(Interrupted(db, {}), {}) == db && Returned(db, {}) == db && ReleasedFor(db, {}) == db
    ensures HeldReservations(db, {}) == {}
  {
  }

  lemma {:induction false} OneMoreInterrupted(db: Db, attempts: set<Id>, tasks: set<Id>, t: Id, task: Id)
    ensures Returned(Interrupted(Returned(Interrupted(db, attempts), tasks), {t}), {task}) ==
            Returned(Interrupted(db, attempts + {t}), tasks + {task})
  {
  }

  lemma {:induction false} OneMoreReturned(db: Db, tasks: set<Id>, task: Id)
    ensures Returned(Returned(db, tasks), {task}) == Returned(db, tasks + {task})
  {
  }

  lemma {:induction false} ReturnedTogether(db: Db, xs: set<Id>, ys: set<Id>)
    ensures Returned(Returned(db, xs), ys) == Returned(db, xs + ys)
  {
  }

  lemma {:induction false} OneMoreReleased(db: Db, tasks: set<Id>, task: Id)
    requires task !in tasks
    ensures ReleasedFor(ReleasedFor(db, tasks), {task}) == ReleasedFor(db, tasks + {task})
    ensures HeldReservations(db, tasks) + HeldReservations(ReleasedFor(db, tasks), {task}) == HeldReservations(db, tasks + {task})
  {
  }

  lemma {:induction false} RunningAfterwards(db: Db, session: Id, attempts: set<Id>, orphans: set<Id>)
    ensures RunningTasks(Returned(Interrupted(db, attempts), orphans), session) == RunningTasks(db, session) - orphans
  {
  }

  lemma {:induction false} OrphansReleased(db: Db, session: Id, live: set<Id>, attempts: set<Id>, orphans: set<Id>, ambiguous: set<Id>)
    requires orphans == Orphans(db, session, live) && ambiguous == set t | t in db.tasks && AwaitsAnswer(db, t, session)
    ensures orphans - ambiguous == Releasable(db, session, live)
    ensures HeldReservations(Returned(Interrupted(db, attempts), orphans), orphans - ambiguous) == HeldReservations(db, orphans - ambiguous)
  {
  }
}
