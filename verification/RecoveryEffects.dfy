/** What a recovery writes, row by row (sessions/recovery.py). */
module RecoveryEffects {
  import opened Prelude
  import opened Tasks
  import opened Journals
  import C = Calls
  import opened Recoveries

  // ----- What it goes by -----

  ghost predicate TaskOfSession(db: Db, task: Id, session: Id) {
    task in db.tasks && db.tasks[task].run in db.runs && db.runs[db.tasks[task].run].session == session
  }

  /** An attempt of the session that had not ended when the process did. */
  ghost predicate Unfinished(db: Db, t: Id, session: Id) {
    && t in db.attempts && TaskOfSession(db, db.attempts[t].task, session)
    && db.attempts[t].status in {AttemptAssigned, AttemptRunning}
  }

  /** The checkpoint knows the key of such an attempt, or it does not. */
  ghost predicate Survives(db: Db, t: Id, session: Id, live: set<Id>) {
    Unfinished(db, t, session) && db.attempts[t].key in live
  }

  ghost predicate Lost(db: Db, t: Id, session: Id, live: set<Id>) {
    Unfinished(db, t, session) && db.attempts[t].key !in live
  }

  ghost predicate LostAnAttempt(db: Db, task: Id, session: Id, live: set<Id>) {
    exists t :: Lost(db, t, session, live) && db.attempts[t].task == task
  }

  /** It is running without an attempt that survives. */
  ghost predicate Stranded(db: Db, task: Id, session: Id, live: set<Id>) {
    && TaskOfSession(db, task, session) && db.tasks[task].status == Running
    && forall t :: Survives(db, t, session, live) ==> db.attempts[t].task != task
  }

  ghost predicate Orphaned(db: Db, task: Id, session: Id, live: set<Id>) {
    LostAnAttempt(db, task, session, live) || Stranded(db, task, session, live)
  }

  /** A call of the session whose outcome is not known. */
  ghost predicate InDoubt(db: Db, c: Id, session: Id) {
    && c in db.calls && db.calls[c].status in {Started, Ambiguous} && db.calls[c].assignment in db.assignments
    && db.assignments[db.calls[c].assignment].attempt in db.attempts
    && TaskOfSession(db, TaskOfCall(db, c), session)
  }

  ghost function TaskOfCall(db: Db, c: Id): Id
    requires c in db.calls && db.calls[c].assignment in db.assignments
    requires db.assignments[db.calls[c].assignment].attempt in db.attempts
  {
    db.attempts[db.assignments[db.calls[c].assignment].attempt].task
  }

  ghost predicate Waits(db: Db, task: Id, session: Id) {
    exists c :: InDoubt(db, c, session) && TaskOfCall(db, c) == task
  }

  // ----- The same, as recovery computes it -----

  lemma {:induction false} LostExactly(db: Db, session: Id, live: set<Id>, t: Id)
    ensures t in Dead(db, session, live) <==> Lost(db, t, session, live)
    ensures t in Live(db, session, live) <==> Survives(db, t, session, live)
    ensures Lost(db, t, session, live) || Survives(db, t, session, live) ==> t in db.attempts
  {
  }

  lemma {:induction false} OrphanedExactly(db: Db, session: Id, live: set<Id>, task: Id)
    ensures task in Orphans(db, session, live) <==> Orphaned(db, task, session, live)
  {
    hide Dead, Live, Lost, Survives;
    forall t
      ensures t in Dead(db, session, live) <==> Lost(db, t, session, live)
      ensures t in Live(db, session, live) <==> Survives(db, t, session, live)
      ensures Lost(db, t, session, live) || Survives(db, t, session, live) ==> t in db.attempts
    {
      LostExactly(db, session, live, t);
    }
    assert task in TasksOf(db, Dead(db, session, live)) <==> LostAnAttempt(db, task, session, live) by {
      if LostAnAttempt(db, task, session, live) {
        var t :| Lost(db, t, session, live) && db.attempts[t].task == task;
        assert t in db.attempts && t in Dead(db, session, live);
      }
    }
    assert task in RunningTasks(db, session) <==> TaskOfSession(db, task, session) && db.tasks[task].status == Running;
    assert task in TasksOf(db, Live(db, session, live)) <==> exists t :: Survives(db, t, session, live) && db.attempts[t].task == task by {
      if t :| Survives(db, t, session, live) && db.attempts[t].task == task {
        assert t in db.attempts && t in Live(db, session, live);
      }
    }
  }

  lemma {:induction false} WaitsExactly(db: Db, task: Id, session: Id)
    ensures AwaitsAnswer(db, task, session) <==> Waits(db, task, session)
  {
    forall c ensures C.CallInSession(db, c, session) && db.calls[c].status in {Started, Ambiguous} <==> InDoubt(db, c, session) { }
    if AwaitsAnswer(db, task, session) {
      var c :| c in db.calls && Unresolved(db, c, session) && CallForTask(db, c, task);
      assert InDoubt(db, c, session) && TaskOfCall(db, c) == task;
    }
    if Waits(db, task, session) {
      var c :| InDoubt(db, c, session) && TaskOfCall(db, c) == task;
      assert c in db.calls && Unresolved(db, c, session) && CallForTask(db, c, task);
    }
  }

  // ----- What it writes -----

  /** An attempt is interrupted when it is lost, and a running task is returned to the lead when it is
      orphaned. No other attempt and no other task changes. */
  lemma {:induction false} RecoveredStatuses(db: Db, session: Id, live: set<Id>, after: Db)
    requires after == Recover(db, session, live)
    ensures after.attempts.Keys == db.attempts.Keys && after.tasks.Keys == db.tasks.Keys
    ensures forall t :: t in db.attempts ==>
      var row := db.attempts[t];
      after.attempts[t] == if Lost(db, t, session, live) then row.(status := AttemptInterrupted) else row
    ensures forall task :: task in db.tasks ==>
      var row := db.tasks[task];
      after.tasks[task] == if Orphaned(db, task, session, live) && row.status == Running then row.(status := ReturnedToLead) else row
  {
    RecoverAnatomy(db, session, live, after);
    hide Recover, Dead, Orphans, Lost, Orphaned;
    forall t ensures t in Dead(db, session, live) <==> Lost(db, t, session, live) {
      LostExactly(db, session, live, t);
    }
    forall task ensures task in Orphans(db, session, live) <==> Orphaned(db, task, session, live) {
      OrphanedExactly(db, session, live, task);
    }
  }

  /** A reservation is released when it is open and its task is orphaned and waits for no call; nothing
      else of the journal changes. */
  lemma {:induction false} RecoveredMoney(db: Db, session: Id, live: set<Id>, after: Db)
    requires after == Recover(db, session, live)
    ensures after.reservations.Keys == db.reservations.Keys
    ensures forall r :: r in db.reservations ==>
      var row := db.reservations[r];
      after.reservations[r] ==
        if row.status.Reserved? && row.task.Some? && Orphaned(db, row.task.value, session, live) && !Waits(db, row.task.value, session)
        then row.(status := Released) else row
    ensures after == db.(attempts := after.attempts, tasks := after.tasks, reservations := after.reservations)
  {
    RecoverAnatomy(db, session, live, after);
    hide Orphans, Orphaned, AwaitsAnswer, Waits, Recover;
    forall r | r in db.reservations
      ensures r in after.reservations
      ensures var row := db.reservations[r];
        after.reservations[r] ==
          if row.status.Reserved? && row.task.Some? && Orphaned(db, row.task.value, session, live) && !Waits(db, row.task.value, session)
          then row.(status := Released) else row
    {
      ReleasesExactlyTheOrphans(db, session, live, after, r);
      if db.reservations[r].task.Some? {
        OrphanedExactly(db, session, live, db.reservations[r].task.value);
        WaitsExactly(db, db.reservations[r].task.value, session);
      }
    }
  }

  /** What the caller is told: the lost attempts, the stranded tasks that lost none, the reservations
      that are released, and the calls in doubt. */
  lemma {:induction false} ReportSays(db: Db, session: Id, live: set<Id>)
    ensures var report := ReportOf(db, session, live);
      && (forall t :: t in report.attempts <==> Lost(db, t, session, live))
      && (forall task :: task in report.tasks <==> Stranded(db, task, session, live) && !LostAnAttempt(db, task, session, live))
      && (forall r :: r in report.released <==>
            r in db.reservations && r in Recover(db, session, live).reservations
            && db.reservations[r].status.Reserved? && Recover(db, session, live).reservations[r].status.Released?)
      && (forall c :: c in report.ambiguous <==> InDoubt(db, c, session))
  {
    hide Dead, Live, Lost, Survives, Releasable, Recover, LostAnAttempt;
    var report := ReportOf(db, session, live);
    forall t
      ensures t in Dead(db, session, live) <==> Lost(db, t, session, live)
      ensures t in Live(db, session, live) <==> Survives(db, t, session, live)
      ensures Lost(db, t, session, live) || Survives(db, t, session, live) ==> t in db.attempts
    {
      LostExactly(db, session, live, t);
    }
    forall task ensures task in report.tasks <==> Stranded(db, task, session, live) && !LostAnAttempt(db, task, session, live) {
      ReportedTask(db, session, live, task);
    }
    forall r
      ensures r in report.released <==>
        r in db.reservations && r in Recover(db, session, live).reservations
        && db.reservations[r].status.Reserved? && Recover(db, session, live).reservations[r].status.Released?
    {
      if r in db.reservations {
        ReleasedReservation(db, session, live, r);
      }
    }
  }

  lemma {:induction false} ReportedTask(db: Db, session: Id, live: set<Id>, task: Id)
    ensures task in ReportOf(db, session, live).tasks <==> Stranded(db, task, session, live) && !LostAnAttempt(db, task, session, live)
  {
    hide Dead, Live, Lost, Survives, Releasable, HeldReservations, UnresolvedCalls;
    forall t
      ensures t in Dead(db, session, live) <==> Lost(db, t, session, live)
      ensures t in Live(db, session, live) <==> Survives(db, t, session, live)
      ensures Lost(db, t, session, live) || Survives(db, t, session, live) ==> t in db.attempts
    {
      LostExactly(db, session, live, t);
    }
    if t :| Survives(db, t, session, live) && db.attempts[t].task == task {
      assert t in db.attempts && t in Live(db, session, live);
    }
    if t :| Lost(db, t, session, live) && db.attempts[t].task == task {
      assert t in db.attempts && t in Dead(db, session, live);
    }
  }

  lemma {:induction false} ReleasedReservation(db: Db, session: Id, live: set<Id>, r: Id)
    requires r in db.reservations
    ensures r in Recover(db, session, live).reservations
    ensures r in ReportOf(db, session, live).released <==>
      db.reservations[r].status.Reserved? && Recover(db, session, live).reservations[r].status.Released?
  {
    ReleasesExactlyTheOrphans(db, session, live, Recover(db, session, live), r);
    hide Recover, Orphans, AwaitsAnswer, Dead, UnresolvedCalls;
  }
}
