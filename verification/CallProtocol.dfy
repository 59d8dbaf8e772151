/** The protocol that provider calls follow: what every accounting step keeps. */
module CallProtocol {
  import opened Prelude
  import opened Journals
  import opened Ledgers
  import opened Chains
  import opened Calls

  ghost predicate CallRow(db: Db, c: Id, call: Call) {
    && call.assignment in db.assignments
    && (call.status.Ambiguous? <==> c in db.failures)
    && (call.amount.Some? ==> call.status.Completed?)
  }

  /** A call is ambiguous exactly when it has a failure record. */
  ghost predicate CallsSound(db: Db) {
    && (forall c {:trigger db.calls[c]} :: c in db.calls ==> CallRow(db, c, db.calls[c]))
    && (forall c {:trigger db.failures[c]} :: c in db.failures ==> c in db.calls)
  }

  /** A call with recorded usage is completed; an ambiguous or rejected call never has any. */
  ghost predicate UsageSound(db: Db) {
    forall a, c {:trigger c in UsageOf(db, a)} :: c in UsageOf(db, a) && c in db.calls ==> db.calls[c].status.Completed?
  }

  /** Each execution key of an assignment begins at most one call. */
  ghost predicate BegunOnce(calls: map<Id, Call>) {
    forall c, d {:trigger calls[c].executionKey, calls[d].executionKey} ::
      c in calls && d in calls && calls[c].assignment == calls[d].assignment && calls[c].executionKey == calls[d].executionKey ==>
        c == d
  }

  ghost predicate CallsInv(db: Db) {
    CallsSound(db) && UsageSound(db) && BegunOnce(db.calls)
  }

  ghost predicate CallEvolves(before: Call, after: Call) {
    && after == before.(status := after.status, amount := after.amount)
    && (before.status.Started? || after.status == before.status)
  }

  /** Completed, rejected and ambiguous are final; failures are at most marked as estimated; recorded
      usage is never changed. */
  ghost predicate CallsEvolve(before: Db, after: Db) {
    && (forall c {:trigger after.calls[c]} {:trigger before.calls[c]} :: c in before.calls ==>
          c in after.calls && CallEvolves(before.calls[c], after.calls[c]))
    && (forall c {:trigger after.failures[c]} {:trigger before.failures[c]} :: c in before.failures ==>
          c in after.failures && (before.failures[c].Estimated? ==> after.failures[c].Estimated?))
    && (forall a, c {:trigger c in UsageOf(before, a)} {:trigger c in UsageOf(after, a)} :: c in UsageOf(before, a) ==>
          c in UsageOf(after, a) && UsageOf(after, a)[c] == UsageOf(before, a)[c])
  }

  lemma {:induction false} CallsEvolveTransitive(a: Db, b: Db, c: Db)
    requires CallsEvolve(a, b) && CallsEvolve(b, c)
    ensures CallsEvolve(a, c)
  {
    forall k | k in a.calls ensures k in c.calls && CallEvolves(a.calls[k], c.calls[k]) {
      assert k in b.calls && CallEvolves(a.calls[k], b.calls[k]);
    }
    forall k | k in a.failures ensures k in c.failures && (a.failures[k].Estimated? ==> c.failures[k].Estimated?) {
      assert k in b.failures && (a.failures[k].Estimated? ==> b.failures[k].Estimated?);
    }
    forall x, k | k in UsageOf(a, x) ensures k in UsageOf(c, x) && UsageOf(c, x)[k] == UsageOf(a, x)[k] {
      assert k in UsageOf(b, x);
    }
  }

  /** Steps of the ledger and of assignments leave the calls alone. */
  lemma {:induction false} CallsUntouched(db: Db, after: Db)
    requires CallsInv(db)
    requires after.calls == db.calls && after.failures == db.failures && after.callUsage == db.callUsage
    requires forall a :: a in db.assignments ==> a in after.assignments
    ensures CallsInv(after) && CallsEvolve(db, after)
  {
    forall c | c in after.calls ensures CallRow(after, c, after.calls[c]) {
      assert CallRow(db, c, db.calls[c]);
    }
    assert forall a :: UsageOf(after, a) == UsageOf(db, a);
  }

  lemma {:induction false} FailuresNameCalls(db: Db)
    requires CallsSound(db)
    ensures forall c :: c in db.failures ==> c in db.calls
  {
    forall c | c in db.failures ensures c in db.calls {
      var _ := db.failures[c];
    }
  }

  // ----- Each step -----

  predicate FreshCall(db: Db, c: Id) {
    c !in db.calls && forall a :: a in db.callUsage ==> c !in db.callUsage[a]
  }

  /** A call begins only when nothing in its run waits to be reconciled, the observed cost has not
      reached the limit, its reservation is open, and its key has not been used. */
  lemma {:induction false} BeginNeeds(db: Db, a: Id, key: Id, call: Id, after: Db)
    requires BeginCall(db, a, key, call) == Ok(after)
    ensures a in db.assignments && IsOpen(db, db.assignments[a].reservation)
    ensures forall run :: AssignmentInRun(db, a, run) ==>
      && !Uncertain(db, run)
      && (LimitOf(db, run).Some? ==> Observed(db, run) < LimitOf(db, run).value)
    ensures forall c :: CallOf(db, c, a) ==> db.calls[c].executionKey != key && db.calls[c].ordinal < after.calls[call].ordinal
    ensures call !in db.calls
    ensures after == db.(calls := db.calls[call := Call(a, key, NextOrdinal(db, a), Started, None)])
  {
  }

  /** When a call begins, every ambiguous call of its run has been reconciled to an estimate, and no
      settlement in the run has failed. */
  lemma {:induction false} BeginIsCertain(db: Db, a: Id, key: Id, call: Id, after: Db, run: Id)
    requires CallsSound(db) && BeginCall(db, a, key, call) == Ok(after) && AssignmentInRun(db, a, run)
    ensures forall c :: c in db.calls && AssignmentInRun(db, db.calls[c].assignment, run) && db.calls[c].status.Ambiguous? ==>
      c in db.failures && db.failures[c].Estimated?
    ensures forall b :: AssignmentInRun(db, b, run) ==> UnsettledCount(db, b) == 0
  {
    BeginNeeds(db, a, key, call, after);
    hide BeginCall;
    forall c | c in db.calls && AssignmentInRun(db, db.calls[c].assignment, run) && db.calls[c].status.Ambiguous?
      ensures c in db.failures && db.failures[c].Estimated?
    {
      assert CallRow(db, c, db.calls[c]);
    }
  }

  lemma {:induction false} BeginKeeps(db: Db, a: Id, key: Id, call: Id, after: Db)
    requires CallsInv(db) && FreshCall(db, call) && BeginCall(db, a, key, call) == Ok(after)
    ensures CallsInv(after) && CallsEvolve(db, after)
  {
    hide *;
    BeginNeeds(db, a, key, call, after);
    KeyNotUsed(db, a, key);
    AddedCallKeeps(db, a, key, call, Call(a, key, NextOrdinal(db, a), Started, None), after);
  }

  lemma {:induction false} AddedCallKeeps(db: Db, a: Id, key: Id, call: Id, row: Call, after: Db)
    requires CallsInv(db) && FreshCall(db, call) && a in db.assignments && !KeyUsed(db, a, key)
    requires row == Call(a, key, row.ordinal, Started, None) && after == db.(calls := db.calls[call := row])
    ensures CallsInv(after) && CallsEvolve(db, after)
  {
    FailuresNameCalls(db);
    assert forall x :: UsageOf(after, x) == UsageOf(db, x);
    forall c | c in after.calls ensures CallRow(after, c, after.calls[c]) {
      if c != call {
        assert CallRow(db, c, db.calls[c]);
      }
    }
    BegunOnceGrows(db, a, key, call, row);
  }

  lemma {:induction false} KeyNotUsed(db: Db, a: Id, key: Id)
    requires forall c :: CallOf(db, c, a) ==> db.calls[c].executionKey != key
    ensures !KeyUsed(db, a, key)
  {
    forall c | c in db.calls && db.calls[c].assignment == a ensures db.calls[c].executionKey != key {
      assert CallOf(db, c, a);
    }
  }

  lemma {:induction false} BegunOnceGrows(db: Db, a: Id, key: Id, call: Id, row: Call)
    requires BegunOnce(db.calls) && !KeyUsed(db, a, key) && row.assignment == a && row.executionKey == key && call !in db.calls
    ensures BegunOnce(db.calls[call := row])
  {
    forall c | c in db.calls ensures !(db.calls[c].assignment == a && db.calls[c].executionKey == key) {
    }
  }

  /** Changing the status of one call. */
  lemma {:induction false} StatusKeeps(db: Db, c: Id, row: Call, failures: map<Id, FailureStatus>, after: Db)
    requires CallsInv(db) && c in db.calls && CallEvolves(db.calls[c], row) && (row.amount.Some? ==> row.status.Completed?)
    requires after == db.(calls := db.calls[c := row], failures := failures)
    requires failures == (if row.status.Ambiguous? then WithFailure(db.failures, c) else db.failures)
    requires forall a :: c in UsageOf(db, a) ==> row.status.Completed?
    ensures CallsInv(after) && CallsEvolve(db, after)
  {
    assert forall x :: UsageOf(after, x) == UsageOf(db, x);
    assert CallRow(db, c, db.calls[c]);
    forall d | d in after.calls ensures CallRow(after, d, after.calls[d]) {
      assert CallRow(db, d, db.calls[d]);
    }
    forall d, e | d in after.calls && e in after.calls
                  && after.calls[d].assignment == after.calls[e].assignment && after.calls[d].executionKey == after.calls[e].executionKey
      ensures d == e
    {
      assert db.calls[d].executionKey == after.calls[d].executionKey && db.calls[e].executionKey == after.calls[e].executionKey;
    }
    FailuresNameCalls(db);
  }

  lemma {:induction false} NoUsageUnlessCompleted(db: Db, c: Id)
    requires CallsInv(db) && c in db.calls
    ensures forall a :: c in UsageOf(db, a) ==> db.calls[c].status.Completed?
  {
  }

  lemma {:induction false} SucceededKeeps(db: Db, c: Id, after: Db)
    requires CallsInv(db) && MarkSucceeded(db, c) == Ok(after)
    ensures CallsInv(after) && CallsEvolve(db, after)
  {
    hide CallsInv, CallsEvolve, WithFailure, CallsOnly;
    if db.calls[c].status.Completed? {
      CallsUntouched(db, db);
    } else {
      NoUsageUnlessCompleted(db, c);
      StatusKeeps(db, c, after.calls[c], after.failures, after);
    }
  }

  lemma {:induction false} NoAmountUnlessCompleted(db: Db, c: Id)
    requires CallsInv(db) && c in db.calls
    ensures db.calls[c].amount.Some? ==> db.calls[c].status.Completed?
  {
    assert CallRow(db, c, db.calls[c]);
  }

  lemma {:induction false} AmbiguousKeeps(db: Db, c: Id, after: Db)
    requires CallsInv(db) && MarkAmbiguous(db, c) == Ok(after)
    ensures CallsInv(after) && CallsEvolve(db, after)
  {
    hide CallsInv, CallsEvolve, CallsOnly;
    if db.calls[c].status.Completed? || db.calls[c].status.Rejected? {
      CallsUntouched(db, db);
    } else {
      NoUsageUnlessCompleted(db, c);
      NoAmountUnlessCompleted(db, c);
      StatusKeeps(db, c, after.calls[c], after.failures, after);
    }
  }

  lemma {:induction false} RejectedKeeps(db: Db, c: Id, requestRejected: bool, after: Db)
    requires CallsInv(db) && MarkRejected(db, c, requestRejected) == Ok(after)
    ensures CallsInv(after) && CallsEvolve(db, after)
  {
    hide CallsInv, CallsEvolve, CallsOnly;
    if db.calls[c].status.Rejected? {
      CallsUntouched(db, db);
    } else {
      NoUsageUnlessCompleted(db, c);
      NoAmountUnlessCompleted(db, c);
      StatusKeeps(db, c, after.calls[c], after.failures, after);
    }
  }

  lemma {:induction false} UnreturnedKeeps(db: Db, a: Id, after: Db)
    requires CallsInv(db) && after == MarkUnreturned(db, a)
    ensures CallsInv(after) && CallsEvolve(db, after)
  {
    assert forall x :: UsageOf(after, x) == UsageOf(db, x);
    FailuresNameCalls(db);
    forall c | c in after.calls
      ensures CallRow(after, c, after.calls[c]) && CallEvolves(db.calls[c], after.calls[c])
      ensures forall x :: c in UsageOf(after, x) ==> after.calls[c].status.Completed?
    {
      assert CallRow(db, c, db.calls[c]);
    }
    forall d, e | d in after.calls && e in after.calls
                  && after.calls[d].assignment == after.calls[e].assignment && after.calls[d].executionKey == after.calls[e].executionKey
      ensures d == e
    {
      assert db.calls[d].executionKey == after.calls[d].executionKey && db.calls[e].executionKey == after.calls[e].executionKey;
    }
  }

  /** A recorded response: the row is new, and the call, if it is known, was not final. */
  lemma {:induction false} RecordAnatomy(db: Db, a: Id, c: Id, tokens: Option<Tokens>, after: Db) returns (stored: Db)
    requires RecordCall(db, a, c, tokens) == Ok(after) && after != db
    ensures a in db.assignments && c !in UsageOf(db, a)
    ensures stored == db.(callUsage := db.callUsage[a := UsageOf(db, a)[c := UsageRow(tokens, db.assignments[a].pricing)]])
    ensures c !in db.calls ==> after == stored
    ensures c in db.calls ==>
      && (db.calls[c].status.Started? || db.calls[c].status.Completed?)
      && c in after.calls && after.calls[c] == db.calls[c].(status := Completed, amount := after.calls[c].amount)
      && after == stored.(calls := db.calls[c := after.calls[c]])
  {
    stored := db.(callUsage := db.callUsage[a := UsageOf(db, a)[c := UsageRow(tokens, db.assignments[a].pricing)]]);
  }

  lemma {:induction false} RecordKeeps(db: Db, a: Id, c: Id, tokens: Option<Tokens>, after: Db)
    requires CallsInv(db) && RecordCall(db, a, c, tokens) == Ok(after)
    ensures CallsInv(after) && CallsEvolve(db, after)
  {
    hide CallsInv, CallsEvolve, RecordCall, UsageRow, WithFailure;
    CallsUntouched(db, db);
    if after != db {
      var stored := RecordAnatomy(db, a, c, tokens, after);
      var mid := db;
      if c in db.calls {
        mid := db.(calls := db.calls[c := after.calls[c]]);
        StatusKeeps(db, c, after.calls[c], db.failures, mid);
      }
      StoreKeeps(mid, a, c, UsageRow(tokens, db.assignments[a].pricing), after);
      CallsEvolveTransitive(db, mid, after);
    }
  }

  lemma {:induction false} StoreKeeps(db: Db, a: Id, c: Id, row: CallUsage, after: Db)
    requires CallsInv(db) && c !in UsageOf(db, a) && (c in db.calls ==> db.calls[c].status.Completed?)
    requires after == db.(callUsage := db.callUsage[a := UsageOf(db, a)[c := row]])
    ensures CallsInv(after) && CallsEvolve(db, after)
  {
    forall d | d in after.calls ensures CallRow(after, d, after.calls[d]) {
      assert CallRow(db, d, db.calls[d]);
    }
    FailuresNameCalls(db);
    forall x, d | d in UsageOf(db, x) ensures d in UsageOf(after, x) && UsageOf(after, x)[d] == UsageOf(db, x)[d] {
    }
    forall x, d | d in UsageOf(after, x) && d in after.calls ensures after.calls[d].status.Completed? {
      assert (x == a && d == c) || d in UsageOf(db, x);
    }
  }

  lemma {:induction false} EstimateKeeps(db: Db, c: Id, after: Db)
    requires CallsInv(db) && c in db.failures && after == Estimate(db, c)
    ensures CallsInv(after) && CallsEvolve(db, after)
  {
    assert forall x :: UsageOf(after, x) == UsageOf(db, x);
    FailuresNameCalls(db);
    forall d | d in after.calls ensures CallRow(after, d, after.calls[d]) {
      assert CallRow(db, d, db.calls[d]);
    }
  }
}
