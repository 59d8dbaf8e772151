/** Priority and dependency scheduling of child tasks (runtime/scheduler.py). */
module Scheduler {
  import opened Prelude

  datatype Child = Child(priority: int, creationOrder: nat, dependsOn: seq<Id>, awaitingApproval: bool)

  datatype Reason = DependencyUnsuccessful | DependencyCancelled

  /** The outcome an operation has if it is run: what it returns or raises, and whether the
      scheduler counts that as a success. */
  datatype Outcome = Outcome(value: Id, success: bool)

  type Operations = map<Id, Outcome>

  datatype Verdict = Ran(outcome: Outcome) | DependencyBlocked(reason: Reason)

  /** The value of a scheduler's collections. */
  datatype Snapshot = Snapshot(
    children: Children,
    completed: set<Id>,
    failed: set<Id>,
    blocked: map<Id, Reason>)

  /** Submission order: dependencies are always submitted first. */
  ghost predicate Ordered(c: map<Id, Child>) {
    && (forall t {:trigger c[t].creationOrder} :: t in c ==> c[t].creationOrder < |c|)
    && (forall a, b {:trigger c[a].creationOrder, c[b].creationOrder} ::
          a in c && b in c && c[a].creationOrder == c[b].creationOrder ==> a == b)
    && (forall t, d {:trigger d in c[t].dependsOn} ::
          t in c && d in c[t].dependsOn ==> d in c && c[d].creationOrder < c[t].creationOrder)
  }

  /** The submitted tasks. */
  type Children = c: map<Id, Child> | Ordered(c) witness map[]

  function Order(c: Children, t: Id): nat {
    if t in c then c[t].creationOrder else 0
  }

  /** `x` depends on `t`, directly or through other tasks. */
  ghost predicate DependsOn(c: Children, x: Id, t: Id)
    decreases Order(c, x)
  {
    x in c && (t in c[x].dependsOn || exists d :: d in c[x].dependsOn && DependsOn(c, d, t))
  }

  /** `x` depends on `t` through one of the direct dependents in `via`. */
  ghost predicate DependsThrough(c: Children, x: Id, t: Id, via: set<Id>)
  {
    exists k :: k in via && k in c && t in c[k].dependsOn && (x == k || DependsOn(c, x, k))
  }

  lemma {:induction false} DependsOnFirstStep(c: Children, x: Id, t: Id)
    ensures DependsOn(c, x, t) <==> DependsThrough(c, x, t, c.Keys)
    decreases Order(c, x)
  {
    if x in c {
      forall d | d in c[x].dependsOn
        ensures DependsOn(c, d, t) <==> DependsThrough(c, d, t, c.Keys)
      {
        DependsOnFirstStep(c, d, t);
      }
      if DependsThrough(c, x, t, c.Keys) {
        var k :| k in c && t in c[k].dependsOn && (x == k || DependsOn(c, x, k));
        if x != k && k !in c[x].dependsOn {
          var d :| d in c[x].dependsOn && DependsOn(c, d, k);
          assert DependsThrough(c, d, t, c.Keys);
        } else if x != k {
          assert DependsThrough(c, k, t, c.Keys);
        }
      }
    }
  }

  ghost function DependentsOf(c: Children, t: Id): set<Id>
  {
    set x | x in c && DependsOn(c, x, t)
  }

  ghost function DependentsThrough(c: Children, t: Id, via: set<Id>): set<Id>
  {
    set x | x in c && DependsThrough(c, x, t, via)
  }

  lemma {:induction false} ThroughAll(c: Children, t: Id)
    ensures DependentsThrough(c, t, c.Keys) == DependentsOf(c, t)
  {
    forall x { DependsOnFirstStep(c, x, t); }
  }

  lemma {:induction false} ThroughOneMore(c: Children, t: Id, via: set<Id>, k: Id)
    requires k in c
    ensures DependentsThrough(c, t, via + {k}) ==
            DependentsThrough(c, t, via) + if t in c[k].dependsOn then {k} + DependentsOf(c, k) else {}
  {
  }

  function Marked(before: map<Id, Reason>, tasks: set<Id>, reason: Reason): map<Id, Reason> {
    before + map x | x in tasks :: reason
  }

  lemma {:induction false} MarkedAgain(before: map<Id, Reason>, first: set<Id>, second: set<Id>, reason: Reason)
    ensures Marked(Marked(before, first, reason), second, reason) == Marked(before, first + second, reason)
  {
  }

  lemma {:induction false} MarkedTwice(before: map<Id, Reason>, first: set<Id>, k: Id, second: set<Id>, reason: Reason)
    ensures Marked(Marked(before, first, reason)[k := reason], second, reason) ==
            Marked(before, first + ({k} + second), reason)
  {
  }

  /** What `_block_dependents` leaves: exactly the tasks that depend on `t` carry the reason. */
  ghost function Blocking(c: Children, before: map<Id, Reason>, t: Id, reason: Reason): map<Id, Reason>
  {
    Marked(before, DependentsOf(c, t), reason)
  }

  ghost function BlockingThrough(c: Children, before: map<Id, Reason>, t: Id, via: set<Id>, reason: Reason)
    : map<Id, Reason>
  {
    Marked(before, DependentsThrough(c, t, via), reason)
  }

  lemma {:induction false} BlockNothing(c: Children, before: map<Id, Reason>, t: Id, reason: Reason)
    ensures BlockingThrough(c, before, t, {}, reason) == before
  {
    assert DependentsThrough(c, t, {}) == {};
  }

  lemma {:induction false} BlockOneMore(c: Children, before: map<Id, Reason>, t: Id, via: set<Id>, k: Id, reason: Reason)
    requires k in c
    ensures var soFar := BlockingThrough(c, before, t, via, reason);
      BlockingThrough(c, before, t, via + {k}, reason) ==
      if t in c[k].dependsOn then Blocking(c, soFar[k := reason], k, reason) else soFar
  {
    ThroughOneMore(c, t, via, k);
    var first := DependentsThrough(c, t, via);
    if t in c[k].dependsOn {
      MarkedTwice(before, first, k, DependentsOf(c, k), reason);
    } else {
      assert DependentsThrough(c, t, via + {k}) == first;
    }
  }

  // ----- The calls that change a scheduler -----

  datatype Call =
    | Submitted(t: Id, priority: int, dependsOn: seq<Id>, awaitingApproval: bool)
    | Finished(t: Id, succeeded: bool)
    | Cancelled(t: Id)
    | Approved(t: Id)
    | Retried(t: Id)

  lemma {:induction false} OrderedAfterSubmit(c: Children, t: Id, child: Child)
    requires t !in c && child.creationOrder == |c|
    requires forall d :: d in child.dependsOn ==> d in c
    ensures Ordered(c[t := child])
  {
    assert |c[t := child]| == |c| + 1;
  }

  lemma {:induction false} OrderedAfterApprove(c: Children, t: Id)
    requires t in c
    ensures Ordered(c[t := c[t].(awaitingApproval := false)])
    ensures c[t := c[t].(awaitingApproval := false)].Keys == c.Keys
  {
    var after := c[t := c[t].(awaitingApproval := false)];
    assert after.Keys == c.Keys;
  }

  /** A new task is last in submission order. */
  function WithChild(c: Children, t: Id, child: Child): Children
    requires t !in c && child.creationOrder == |c|
    requires forall d :: d in child.dependsOn ==> d in c
  {
    OrderedAfterSubmit(c, t, child);
    c[t := child]
  }

  function WithApproval(c: Children, t: Id): Children
    requires t in c
  {
    OrderedAfterApprove(c, t);
    c[t := c[t].(awaitingApproval := false)]
  }

  /** A call about an unknown task, or a submission that is refused, changes nothing. */
  ghost function Apply(s: Snapshot, call: Call): Snapshot {
    match call
    case Submitted(t, priority, dependsOn, awaiting) =>
      if t in s.children || exists d :: d in dependsOn && d !in s.children then s
      else s.(children := WithChild(s.children, t, Child(priority, |s.children|, dependsOn, awaiting)))
    case Finished(t, succeeded) =>
      if t !in s.children then s
      else if succeeded then s.(completed := s.completed + {t})
      else s.(failed := s.failed + {t}, blocked := Blocking(s.children, s.blocked, t, DependencyUnsuccessful))
    case Cancelled(t) =>
      if t !in s.children then s
      else s.(failed := s.failed + {t}, blocked := Blocking(s.children, s.blocked, t, DependencyCancelled))
    case Approved(t) =>
      if t !in s.children then s else s.(children := WithApproval(s.children, t))
    case Retried(t) =>
      if t !in s.children then s else s.(failed := s.failed - {t})
  }

  ghost function ApplyAll(s: Snapshot, calls: seq<Call>): Snapshot
    decreases |calls|
  {
    if calls == [] then s else ApplyAll(Apply(s, calls[0]), calls[1..])
  }

  /** The call records that a task which `x` depends on was unsuccessful. */
  ghost predicate Bars(s: Snapshot, call: Call, x: Id) {
    && (call.Cancelled? || (call.Finished? && !call.succeeded))
    && call.t in s.children && DependsOn(s.children, x, call.t)
  }

  ghost predicate Barred(s: Snapshot, calls: seq<Call>, x: Id)
    decreases |calls|
  {
    calls != [] && (Bars(s, calls[0], x) || Barred(Apply(s, calls[0]), calls[1..], x))
  }

  /** The dependencies of a submitted task never change. */
  ghost predicate Extends(before: Children, after: Children) {
    forall t :: t in before ==>
      && t in after && after[t].dependsOn == before[t].dependsOn
      && after[t].priority == before[t].priority && after[t].creationOrder == before[t].creationOrder
      && (after[t].awaitingApproval ==> before[t].awaitingApproval)
  }

  lemma {:induction false} DependsOnStays(before: Children, after: Children, x: Id, t: Id)
    requires Extends(before, after) && x in before
    ensures DependsOn(after, x, t) <==> DependsOn(before, x, t)
    decreases Order(before, x)
  {
    forall d | d in before[x].dependsOn ensures DependsOn(after, d, t) <==> DependsOn(before, d, t) {
      DependsOnStays(before, after, d, t);
    }
  }

  lemma {:induction false} ApplyExtends(s: Snapshot, call: Call)
    ensures Extends(s.children, Apply(s, call).children)
    ensures s.completed <= Apply(s, call).completed
    ensures forall x :: x in Apply(s, call).blocked <==> x in s.blocked || Bars(s, call, x)
  {
    hide DependsOn, Ordered;
    if call.Finished? || call.Cancelled? {
      forall x ensures x in DependentsOf(s.children, call.t) <==> DependsOn(s.children, x, call.t) {
        DependentsAreSubmitted(s.children, x, call.t);
      }
    }
  }

  lemma {:induction false} DependentsAreSubmitted(c: Children, x: Id, t: Id)
    ensures DependsOn(c, x, t) ==> x in c
  {
  }

  /** The blocked tasks are, after any calls, exactly those blocked before and those that some
      recorded failure or cancellation barred: no call ever unblocks a task. */
  lemma {:induction false} BlockedExactly(s: Snapshot, calls: seq<Call>)
    ensures forall x :: x in ApplyAll(s, calls).blocked <==> x in s.blocked || Barred(s, calls, x)
    ensures Extends(s.children, ApplyAll(s, calls).children) && s.completed <= ApplyAll(s, calls).completed
    decreases |calls|
  {
    if calls != [] {
      ApplyExtends(s, calls[0]);
      BlockedExactly(Apply(s, calls[0]), calls[1..]);
    }
  }

  // ----- The verdicts of a run -----

  /** An operation runs when nothing bars it from the start and each of its dependencies has
      completed already or runs and succeeds. */
  ghost predicate Runs(s: Snapshot, ops: Operations, t: Id)
    decreases Order(s.children, t)
  {
    && t in ops && t in s.children && !s.children[t].awaitingApproval
    && t !in s.completed && t !in s.failed && t !in s.blocked
    && forall d :: d in s.children[t].dependsOn ==> d in s.completed || (Runs(s, ops, d) && ops[d].success)
  }

  function Unrun(blocked: map<Id, Reason>, t: Id): Verdict {
    DependencyBlocked(if t in blocked then blocked[t] else DependencyUnsuccessful)
  }

  ghost function VerdictOf(s: Snapshot, ops: Operations, t: Id): Verdict
    requires t in ops
  {
    if Runs(s, ops, t) then Ran(ops[t])
    else Unrun(s.blocked, t)
  }

  /** An operation that does not run is reported as cancelled with a dependency exactly when it was blocked
      for that reason to begin with, and otherwise as having an unsuccessful one. */
  lemma {:induction false} WhyNotRun(s: Snapshot, ops: Operations, t: Id)
    requires t in ops
    ensures Runs(s, ops, t) ==> VerdictOf(s, ops, t) == Ran(ops[t])
    ensures !Runs(s, ops, t) ==> VerdictOf(s, ops, t).DependencyBlocked?
    ensures !Runs(s, ops, t) ==>
      (VerdictOf(s, ops, t).reason == DependencyCancelled <==> t in s.blocked && s.blocked[t] == DependencyCancelled)
  {
    hide Runs;
  }

  /** A completed task rests only on completed tasks. */
  ghost predicate CompletedClosed(s: Snapshot) {
    forall t, d :: t in s.completed && t in s.children && d in s.children[t].dependsOn ==> d in s.completed
  }

  /** Nothing that depends on an unsuccessful task can run. */
  lemma {:induction false} DependentsOfUnsuccessful(s: Snapshot, ops: Operations, x: Id, f: Id)
    requires CompletedClosed(s)
    requires f !in s.completed && !(Runs(s, ops, f) && ops[f].success)
    requires DependsOn(s.children, x, f)
    ensures !Runs(s, ops, x) && x !in s.completed
    decreases Order(s.children, x)
  {
    if f !in s.children[x].dependsOn {
      var d :| d in s.children[x].dependsOn && DependsOn(s.children, d, f);
      DependentsOfUnsuccessful(s, ops, d, f);
    }
  }

  /** A fresh scheduler in which every operation was submitted and none awaits approval. */
  predicate Fresh(s: Snapshot, ops: Operations) {
    && s.completed == {} && s.failed == {} && s.blocked == map[]
    && s.children.Keys == ops.Keys
    && forall t :: t in s.children ==> !s.children[t].awaitingApproval
  }

  /** On a fresh scheduler an operation keeps its own outcome exactly when all tasks it depends
      on, directly or not, are successful operations. */
  lemma {:induction false} RunsIffDependenciesSucceed(s: Snapshot, ops: Operations, t: Id)
    requires Fresh(s, ops) && t in ops
    ensures Runs(s, ops, t) <==> forall d :: DependsOn(s.children, t, d) ==> d in ops && ops[d].success
    decreases Order(s.children, t)
  {
    var deps := s.children[t].dependsOn;
    forall d | d in deps
      ensures Runs(s, ops, d) <==> forall e :: DependsOn(s.children, d, e) ==> e in ops && ops[e].success
    {
      RunsIffDependenciesSucceed(s, ops, d);
    }
    if Runs(s, ops, t) {
      forall e | DependsOn(s.children, t, e) ensures e in ops && ops[e].success {
        if e !in deps {
          var d :| d in deps && DependsOn(s.children, d, e);
        }
      }
    } else {
      var d :| d in deps && !(Runs(s, ops, d) && ops[d].success);
      assert DependsOn(s.children, t, d);
      if ops[d].success {
        var e :| DependsOn(s.children, d, e) && !(e in ops && ops[e].success);
        assert DependsOn(s.children, t, e);
      }
    }
  }

  predicate ReadyNow(now: Snapshot, running: set<Id>, t: Id) {
    && t in now.children && !now.children[t].awaitingApproval
    && t !in now.completed && t !in now.failed && t !in running && t !in now.blocked
    && forall d :: d in now.children[t].dependsOn ==> d in now.completed
  }

  /** A task can be started after some calls only if none of them recorded a failure or a
      cancellation of a task that it depends on. */
  lemma {:induction false} FailureBarsForGood(s: Snapshot, failure: Call, calls: seq<Call>, running: set<Id>, x: Id)
    requires Bars(s, failure, x)
    ensures !ReadyNow(ApplyAll(Apply(s, failure), calls), running, x)
  {
    ApplyExtends(s, failure);
    BlockedExactly(Apply(s, failure), calls);
  }

  /** A failure of `t`, a retry and then a success make no other task ready: a task is ready
      afterwards exactly when it was ready before and does not depend on `t`. */
  lemma {:induction false} RetryHelpsNoDependent(s: Snapshot, t: Id, running: set<Id>, x: Id)
    requires t in s.children
    ensures var after := ApplyAll(s, [Finished(t, false), Retried(t), Finished(t, true)]);
      ReadyNow(after, running, x) <==> x != t && ReadyNow(s, running, x) && !DependsOn(s.children, x, t)
  {
    var failed := Apply(s, Finished(t, false));
    var retried := Apply(failed, Retried(t));
    ThreeCalls(s, Finished(t, false), Retried(t), Finished(t, true));
  }

  lemma {:induction false} ThreeCalls(s: Snapshot, a: Call, b: Call, c: Call)
    ensures ApplyAll(s, [a, b, c]) == Apply(Apply(Apply(s, a), b), c)
  {
    hide Apply;
    assert [a, b, c][1..] == [b, c] && [b, c][1..] == [c] && [c][1..] == [];
    assert ApplyAll(Apply(Apply(Apply(s, a), b), c), []) == Apply(Apply(Apply(s, a), b), c);
    assert ApplyAll(Apply(Apply(s, a), b), [c]) == Apply(Apply(Apply(s, a), b), c);
    assert ApplyAll(Apply(s, a), [b, c]) == Apply(Apply(Apply(s, a), b), c);
  }

  /** A task and a second one that depends on it. */
  function Pair(): Snapshot {
    Snapshot(WithChild(WithChild(map[], 0, Child(0, 0, [], false)), 1, Child(0, 1, [0], false)), {}, {}, map[])
  }

  lemma {:induction false} PairDepends()
    ensures Pair().completed == {} && Pair().failed == {} && Pair().blocked == map[]
    ensures Pair().children.Keys == {0, 1}
    ensures Pair().children[0] == Child(0, 0, [], false) && Pair().children[1] == Child(0, 1, [0], false)
    ensures DependsOn(Pair().children, 1, 0) && !DependsOn(Pair().children, 0, 0)
  {
  }

  /** Had the first task succeeded, the second would be ready. Once the first failed, was retried
      and succeeded, it is completed and the second is still not ready; but a dependent that is
      submitted only then is. */
  lemma {:induction false} RetriedTooLate()
    ensures ReadyNow(Apply(Pair(), Finished(0, true)), {}, 1)
    ensures var after := ApplyAll(Pair(), [Finished(0, false), Retried(0), Finished(0, true)]);
      && 0 in after.completed && 1 in after.blocked && !ReadyNow(after, {}, 1)
      && ReadyNow(Apply(after, Submitted(2, 0, [0], false)), {}, 2)
  {
    hide Pair, Ordered, DependsOn, ApplyAll;
    PairDepends();
    ThreeCalls(Pair(), Finished(0, false), Retried(0), Finished(0, true));
    var failed := Apply(Pair(), Finished(0, false));
    assert 1 in failed.blocked && 2 !in failed.blocked;
    var after := Apply(Apply(failed, Retried(0)), Finished(0, true));
    assert after.children == Pair().children && after.blocked == failed.blocked;
    assert forall d :: d in [0] ==> d in after.children;
  }

  /** An approval or a retry of `t` leaves every other task as ready as it was. `t` itself is ready
      afterwards exactly when nothing but the approval, or nothing but its failure, stood in the
      way. Of the operations given to a run, none is lost, and only `t` and what depends on it
      are gained. */
  lemma {:induction false} FreesOnlyOne(s: Snapshot, call: Call, ops: Operations, running: set<Id>, x: Id)
    requires call.Approved? || call.Retried?
    ensures x != call.t ==> (ReadyNow(Apply(s, call), running, x) <==> ReadyNow(s, running, x))
    ensures x == call.t ==> (ReadyNow(Apply(s, call), running, x) <==>
              && x in s.children && x !in s.completed && x !in running && x !in s.blocked
              && (forall d :: d in s.children[x].dependsOn ==> d in s.completed)
              && (if call.Approved? then x !in s.failed else !s.children[x].awaitingApproval))
    ensures Runs(s, ops, x) ==> Runs(Apply(s, call), ops, x)
    ensures Runs(Apply(s, call), ops, x) ==> Runs(s, ops, x) || x == call.t || DependsOn(s.children, x, call.t)
    decreases Order(s.children, x)
  {
    if x in s.children {
      forall d | d in s.children[x].dependsOn
        ensures Runs(s, ops, d) ==> Runs(Apply(s, call), ops, d)
        ensures Runs(Apply(s, call), ops, d) ==> Runs(s, ops, d) || d == call.t || DependsOn(s.children, d, call.t)
      {
        FreesOnlyOne(s, call, ops, running, d);
      }
    }
  }

  // ----- Priority order -----

  predicate Precedes(c: Children, a: Id, b: Id)
    requires a in c && b in c
  {
    c[a].priority > c[b].priority
    || (c[a].priority == c[b].priority && c[a].creationOrder < c[b].creationOrder)
  }

  predicate IsFirst(c: Children, s: set<Id>, t: Id)
    requires s <= c.Keys
  {
    t in s && forall u :: u in s && u != t ==> Precedes(c, t, u)
  }

  lemma {:induction false} FirstExists(c: Children, s: set<Id>)
    requires s <= c.Keys && s != {}
    ensures exists t :: IsFirst(c, s, t)
  {
    var k :| k in s;
    if s == {k} {
      assert IsFirst(c, s, k);
    } else {
      FirstExists(c, s - {k});
      var m :| IsFirst(c, s - {k}, m);
      assert forall u :: u in s ==> u == k || u in s - {k};
      assert IsFirst(c, s, if Precedes(c, k, m) then k else m);
    }
  }

  /** Each listed task precedes all that are listed after it. */
  ghost predicate InPriorityOrder(c: Children, list: seq<Id>) {
    list != [] ==>
      && list[0] in c && (forall u :: u in list[1..] ==> u in c && Precedes(c, list[0], u))
      && InPriorityOrder(c, list[1..])
  }

  /** `sorted(..., key=(-priority, creation_order))`. */
  function ByPriority(c: Children, s: set<Id>): (list: seq<Id>)
    requires s <= c.Keys
    ensures forall t :: t in list <==> t in s
    ensures InPriorityOrder(c, list)
    decreases s
  {
    if s == {} then [] else
      FirstExists(c, s);
      var t :| IsFirst(c, s, t);
      [t] + ByPriority(c, s - {t})
  }

  // ----- Schedules -----

  /** Where a run stands: what the scheduler holds, what is running, and what was not started. */
  datatype Moment = Moment(now: Snapshot, running: set<Id>, unstarted: set<Id>)

  /** What a run has done so far: it starts one operation, or waits until some have finished. */
  datatype Schedule = Begin | Start(before: Schedule, t: Id) | Wait(before: Schedule, done: set<Id>)

  ghost function Successes(ops: Operations, done: set<Id>): set<Id> {
    set t | t in done && t in ops && ops[t].success
  }

  ghost function Failures(ops: Operations, done: set<Id>): set<Id> {
    set t | t in done && t in ops && !ops[t].success
  }

  ghost function DependentsOfAny(c: Children, tasks: set<Id>): set<Id> {
    set x, t | t in tasks && x in c && DependsOn(c, x, t) :: x
  }

  /** The scheduler once the operations in `done` have been recorded, in whatever order. */
  ghost function Recorded(s: Snapshot, ops: Operations, done: set<Id>): Snapshot {
    s.(completed := s.completed + Successes(ops, done),
       failed := s.failed + Failures(ops, done),
       blocked := Marked(s.blocked, DependentsOfAny(s.children, Failures(ops, done)), DependencyUnsuccessful))
  }

  ghost function Reached(s: Snapshot, ops: Operations, schedule: Schedule): Moment {
    match schedule
    case Begin => Moment(s, {}, ops.Keys)
    case Start(before, t) =>
      var m := Reached(s, ops, before);
      Moment(m.now, m.running + {t}, m.unstarted - {t})
    case Wait(before, done) =>
      var m := Reached(s, ops, before);
      Moment(Recorded(m.now, ops, done), m.running - done, m.unstarted)
  }

  ghost function Startable(m: Moment): (tasks: set<Id>)
    ensures tasks <= m.now.children.Keys
  {
    set t | t in m.unstarted && ReadyNow(m.now, m.running, t)
  }

  ghost predicate Saturated(m: Moment, cap: nat) {
    |m.running| >= cap || Startable(m) == {}
  }

  /** Every start takes the first operation that could start then, by priority, and only while a
      slot is free; and the run waits only once nothing more can be started. */
  ghost predicate Follows(s: Snapshot, ops: Operations, cap: nat, schedule: Schedule) {
    match schedule
    case Begin => true
    case Start(before, t) =>
      var m := Reached(s, ops, before);
      Follows(s, ops, cap, before) && |m.running| < cap && IsFirst(m.now.children, Startable(m), t)
    case Wait(before, done) =>
      var m := Reached(s, ops, before);
      Follows(s, ops, cap, before) && {} < done <= m.running && Saturated(m, cap)
  }

  /** The operation can start: it has not yet, it waits for no approval, nothing blocks it, and all that
      it depends on is completed. */
  ghost predicate CanStart(m: Moment, t: Id) {
    && t in m.unstarted && t !in m.running && t in m.now.children && !m.now.children[t].awaitingApproval
    && t !in m.now.completed && t !in m.now.failed && t !in m.now.blocked
    && forall d :: d in m.now.children[t].dependsOn ==> d in m.now.completed
  }

  /** What a run starts can start, and of all that can it has the highest priority, and among those the
      earliest creation. */
  lemma {:induction false} StartsTheHighest(s: Snapshot, ops: Operations, cap: nat, before: Schedule, t: Id)
    requires Follows(s, ops, cap, Start(before, t))
    ensures var m := Reached(s, ops, before);
      && CanStart(m, t) && |m.running| < cap
      && forall u :: CanStart(m, u) && u != t ==>
           m.now.children[u].priority < m.now.children[t].priority
           || (m.now.children[u].priority == m.now.children[t].priority
               && m.now.children[u].creationOrder > m.now.children[t].creationOrder)
  {
    hide Reached, Ordered;
    var m := Reached(s, ops, before);
    forall u ensures CanStart(m, u) <==> u in Startable(m) { }
  }

  /** Nothing is running and nothing can be started any more. */
  ghost predicate Complete(s: Snapshot, ops: Operations, schedule: Schedule) {
    Reached(s, ops, schedule).running == {} && Startable(Reached(s, ops, schedule)) == {}
  }

  ghost predicate OnlyStarts(from: Schedule, to: Schedule) {
    from == to || (to.Start? && OnlyStarts(from, to.before))
  }

  ghost function Starts(schedule: Schedule, t: Id): nat {
    match schedule
    case Begin => 0
    case Start(before, u) => Starts(before, t) + if u == t then 1 else 0
    case Wait(before, _) => Starts(before, t)
  }

  ghost function Runners(s: Snapshot, ops: Operations): set<Id> {
    set t | t in ops && Runs(s, ops, t)
  }

  /** What has been started and is no longer running. */
  ghost function Ended(ops: Operations, m: Moment): set<Id> {
    ops.Keys - m.unstarted - m.running
  }

  lemma {:induction false} RecordedNothing(s: Snapshot, ops: Operations)
    ensures Recorded(s, ops, {}) == s
  {
    assert DependentsOfAny(s.children, Failures(ops, {})) == {};
  }

  lemma {:induction false} RecordedTwice(s: Snapshot, ops: Operations, first: set<Id>, second: set<Id>)
    ensures Recorded(Recorded(s, ops, first), ops, second) == Recorded(s, ops, first + second)
  {
    hide DependsOn, Marked, Ordered;
    var one, two := Failures(ops, first), Failures(ops, second);
    assert Failures(ops, first + second) == one + two;
    assert Successes(ops, first + second) == Successes(ops, first) + Successes(ops, second);
    assert DependentsOfAny(s.children, one + two) == DependentsOfAny(s.children, one) + DependentsOfAny(s.children, two);
    MarkedAgain(s.blocked, DependentsOfAny(s.children, one), DependentsOfAny(s.children, two), DependencyUnsuccessful);
  }

  lemma {:induction false} RecordedOne(s: Snapshot, ops: Operations, t: Id)
    requires t in ops && t in s.children
    ensures Recorded(s, ops, {t}) == Apply(s, Finished(t, ops[t].success))
  {
    hide DependsOn, Ordered;
    var failures := Failures(ops, {t});
    if ops[t].success {
      assert failures == {} && Successes(ops, {t}) == {t};
      assert DependentsOfAny(s.children, {}) == {};
    } else {
      assert failures == {t} && Successes(ops, {t}) == {};
      assert DependentsOfAny(s.children, {t}) == DependentsOf(s.children, t);
    }
  }

  /** Finishing one more operation. */
  lemma {:induction false} RecordedOneMore(s: Snapshot, ops: Operations, done: set<Id>, t: Id)
    requires t in ops && t in s.children
    ensures Apply(Recorded(s, ops, done), Finished(t, ops[t].success)) == Recorded(s, ops, done + {t})
  {
    hide Apply;
    RecordedTwice(s, ops, done, {t});
    RecordedOne(Recorded(s, ops, done), ops, t);
  }

  /** An operation that is ready once runners have ended is one that runs. */
  lemma {:induction false} ReadyRuns(s: Snapshot, ops: Operations, done: set<Id>, running: set<Id>, t: Id)
    requires done <= Runners(s, ops) && t in ops && ReadyNow(Recorded(s, ops, done), running, t)
    ensures Runs(s, ops, t)
  {
  }

  /** Along every schedule only operations that run are started, each at most once, at most `cap`
      are running, and the scheduler holds what the ended operations determine. */
  lemma {:induction false} AlongASchedule(s: Snapshot, ops: Operations, cap: nat, schedule: Schedule)
    requires Follows(s, ops, cap, schedule)
    ensures var m := Reached(s, ops, schedule);
      && m.now == Recorded(s, ops, Ended(ops, m))
      && m.unstarted <= ops.Keys && m.running <= ops.Keys && m.running !! m.unstarted
      && |m.running| <= cap
    ensures ops.Keys - Reached(s, ops, schedule).unstarted <= Runners(s, ops)
    ensures forall t :: Starts(schedule, t) ==
              if t in ops && t !in Reached(s, ops, schedule).unstarted then 1 else 0
  {
    hide Runs, Recorded, ReadyNow, Ordered, DependsOn;
    match schedule
    case Begin =>
      assert Ended(ops, Reached(s, ops, schedule)) == {};
      RecordedNothing(s, ops);
    case Start(before, t) =>
      AlongASchedule(s, ops, cap, before);
      var m := Reached(s, ops, before);
      ReadyRuns(s, ops, Ended(ops, m), m.running, t);
      assert Ended(ops, Reached(s, ops, schedule)) == Ended(ops, m);
    case Wait(before, done) =>
      AlongASchedule(s, ops, cap, before);
      var m := Reached(s, ops, before);
      RecordedTwice(s, ops, Ended(ops, m), done);
      assert Ended(ops, Reached(s, ops, schedule)) == Ended(ops, m) + done;
  }

  /** While an operation that runs has not been started, something is running or can start. */
  lemma {:induction false} NoneLeftBehind(s: Snapshot, ops: Operations, m: Moment, t: Id)
    requires CompletedClosed(s) && m.now == Recorded(s, ops, Ended(ops, m))
    requires m.running == {} && Ended(ops, m) <= Runners(s, ops)
    requires t in Runners(s, ops)
    ensures t in m.unstarted ==> Startable(m) != {}
    decreases Order(s.children, t)
  {
    var done := Ended(ops, m);
    if d :| d in s.children[t].dependsOn && d in m.unstarted && d in Runners(s, ops) {
      NoneLeftBehind(s, ops, m, d);
    } else if t in m.unstarted {
      forall d | d in s.children[t].dependsOn && d !in s.completed ensures d in Successes(ops, done) {
        assert Runs(s, ops, d) && ops[d].success;
      }
      forall f | f in Failures(ops, done) ensures !DependsOn(s.children, t, f) {
        assert Runs(s, ops, f) && f !in s.completed;
        if DependsOn(s.children, t, f) {
          DependentsOfUnsuccessful(s, ops, t, f);
        }
      }
      assert t in Startable(m);
    }
  }

  /** All complete schedules run the same operations, each once, and leave the scheduler in the
      same state. */
  lemma {:induction false} SchedulesAgree(s: Snapshot, ops: Operations, cap: nat, schedule: Schedule)
    requires CompletedClosed(s) && Follows(s, ops, cap, schedule) && Complete(s, ops, schedule)
    ensures ops.Keys - Reached(s, ops, schedule).unstarted == Runners(s, ops)
    ensures Reached(s, ops, schedule).now == Recorded(s, ops, Runners(s, ops))
    ensures forall t :: Starts(schedule, t) == if t in Runners(s, ops) then 1 else 0
  {
    hide Runs, Recorded, Follows, Reached, Startable, CompletedClosed, Starts;
    AlongASchedule(s, ops, cap, schedule);
    var m := Reached(s, ops, schedule);
    assert Ended(ops, m) == ops.Keys - m.unstarted;
    forall t | t in Runners(s, ops) ensures t in ops && t !in m.unstarted {
      NoneLeftBehind(s, ops, m, t);
    }
    assert Ended(ops, m) == Runners(s, ops);
  }

  // ----- The state of a run between two steps -----

  /** A run that has followed `schedule`: the scheduler holds `now`, and `pending` is neither
      started nor reported. What was reported without being started is blocked. */
  ghost predicate InRun(s: Snapshot, ops: Operations, cap: nat, schedule: Schedule,
                        now: Snapshot, running: set<Id>, pending: set<Id>) {
    var m := Reached(s, ops, schedule);
    && Follows(s, ops, cap, schedule)
    && m.now == now && m.running == running && pending <= m.unstarted
    && forall t :: t in m.unstarted ==> t in pending || t in now.blocked
  }

  /** What has been reported in a run, each report final. */
  ghost predicate Accounts(s: Snapshot, ops: Operations, m: Moment, pending: set<Id>, results: map<Id, Verdict>) {
    && results.Keys == ops.Keys - pending - m.running
    && (forall t :: t in results ==> results[t] == if t in m.unstarted then Unrun(s.blocked, t) else Ran(ops[t]))
    && (pending !! s.blocked.Keys || m.now == s)
  }

  function RanAll(ops: Operations, done: set<Id>): map<Id, Verdict> {
    map t | t in done && t in ops :: Ran(ops[t])
  }

  function UnrunAll(blocked: map<Id, Reason>, tasks: set<Id>): map<Id, Verdict> {
    map t | t in tasks :: Unrun(blocked, t)
  }

  lemma {:induction false} RanOneMore(ops: Operations, done: set<Id>, t: Id, results: map<Id, Verdict>)
    requires t in ops
    ensures (results + RanAll(ops, done))[t := Ran(ops[t])] == results + RanAll(ops, done + {t})
  {
  }

  /** All operations that could start are on the list. */
  ghost predicate Lists(s: Snapshot, ops: Operations, schedule: Schedule, list: seq<Id>) {
    forall t :: t in Startable(Reached(s, ops, schedule)) ==> t in list
  }

  lemma {:induction false} RunBegins(s: Snapshot, ops: Operations, cap: nat)
    ensures InRun(s, ops, cap, Begin, s, {}, ops.Keys)
    ensures Accounts(s, ops, Reached(s, ops, Begin), ops.Keys, map[])
  {
  }

  lemma {:induction false} PendingIsIdle(s: Snapshot, ops: Operations, cap: nat, schedule: Schedule,
                                         now: Snapshot, running: set<Id>, pending: set<Id>)
    requires InRun(s, ops, cap, schedule, now, running, pending)
    ensures pending !! running && pending <= ops.Keys && running <= ops.Keys
    ensures Reached(s, ops, schedule).unstarted !! running
    ensures s.blocked.Keys <= now.blocked.Keys && now.children == s.children
  {
    hide Follows, Reached, DependsOn, Runners, Starts;
    AlongASchedule(s, ops, cap, schedule);
  }

  /** The ready tasks that are listed at the start of a turn are all that could start in it. */
  lemma {:induction false} ListsReady(s: Snapshot, ops: Operations, cap: nat, schedule: Schedule,
                                      now: Snapshot, running: set<Id>, pending: set<Id>, list: seq<Id>)
    requires InRun(s, ops, cap, schedule, now, running, pending)
    requires forall t :: ReadyNow(now, running, t) ==> t in list
    ensures Lists(s, ops, schedule, list)
  {
  }

  lemma {:induction false} HeadIsFirst(m: Moment, list: seq<Id>)
    requires list != [] && InPriorityOrder(m.now.children, list) && list[0] in Startable(m)
    requires forall t :: t in Startable(m) ==> t in list
    ensures IsFirst(m.now.children, Startable(m), list[0])
  {
    hide ReadyNow, Precedes, Ordered;
    forall u | u in Startable(m) && u != list[0] ensures Precedes(m.now.children, list[0], u) {
      assert u in list[1..];
    }
  }

  lemma {:induction false} StartsOne(m: Moment, t: Id)
    ensures Startable(Moment(m.now, m.running + {t}, m.unstarted - {t})) == Startable(m) - {t}
  {
    hide Ordered;
  }

  /** Starting the first listed operation, when the list is in priority order. */
  lemma {:induction false} StartFirst(s: Snapshot, ops: Operations, cap: nat, schedule: Schedule, now: Snapshot,
                                      before: set<Id>, running: set<Id>, pending: set<Id>, list: seq<Id>)
    requires InRun(s, ops, cap, schedule, now, running, pending) && |running| < cap
    requires list != [] && InPriorityOrder(now.children, list) && Lists(s, ops, schedule, list)
    requires list[0] in pending && list[0] !in running && ReadyNow(now, before, list[0])
    ensures var later := Start(schedule, list[0]);
      && InRun(s, ops, cap, later, now, running + {list[0]}, pending - {list[0]})
      && Reached(s, ops, later).unstarted == Reached(s, ops, schedule).unstarted - {list[0]}
      && Lists(s, ops, later, list[1..])
  {
    hide InPriorityOrder, IsFirst, Ordered;
    var m := Reached(s, ops, schedule);
    assert list[0] in Startable(m);
    HeadIsFirst(m, list);
    StartsOne(m, list[0]);
    hide Startable, ReadyNow;
    assert forall u :: u in list && u != list[0] ==> u in list[1..];
  }

  lemma {:induction false} SkipFirst(s: Snapshot, ops: Operations, cap: nat, schedule: Schedule,
                                     now: Snapshot, running: set<Id>, pending: set<Id>, list: seq<Id>)
    requires InRun(s, ops, cap, schedule, now, running, pending)
    requires list != [] && list[0] !in pending && Lists(s, ops, schedule, list)
    ensures Lists(s, ops, schedule, list[1..])
  {
    var m := Reached(s, ops, schedule);
    forall u | u in Startable(m) ensures u in list[1..] {
      assert u in list;
    }
  }

  lemma {:induction false} NothingListed(s: Snapshot, ops: Operations, cap: nat, schedule: Schedule)
    requires Lists(s, ops, schedule, []) || |Reached(s, ops, schedule).running| >= cap
    ensures Saturated(Reached(s, ops, schedule), cap)
  {
  }

  lemma {:induction false} SameReason(s: Snapshot, ops: Operations, done: set<Id>, t: Id)
    requires t !in s.blocked || Recorded(s, ops, done) == s
    ensures Unrun(Recorded(s, ops, done).blocked, t) == Unrun(s.blocked, t)
  {
    hide DependsOn, Ordered;
  }

  /** The reason that a pending operation is reported with is the one it had when the run began. */
  lemma {:induction false} ReportsAreFinal(s: Snapshot, ops: Operations, cap: nat, schedule: Schedule, now: Snapshot,
                                           running: set<Id>, pending: set<Id>, which: set<Id>, results: map<Id, Verdict>)
    requires InRun(s, ops, cap, schedule, now, running, pending) && which <= pending
    requires Accounts(s, ops, Reached(s, ops, schedule), pending, results)
    ensures Accounts(s, ops, Reached(s, ops, schedule), pending - which, results + UnrunAll(now.blocked, which))
    ensures which <= now.blocked.Keys ==> InRun(s, ops, cap, schedule, now, running, pending - which)
  {
    hide Follows, Reached, Recorded, Unrun, Runners, Starts, Ordered;
    AlongASchedule(s, ops, cap, schedule);
    forall t | t in which ensures Unrun(now.blocked, t) == Unrun(s.blocked, t) {
      SameReason(s, ops, Ended(ops, Reached(s, ops, schedule)), t);
    }
  }

  lemma {:induction false} StartsKeepAccounts(s: Snapshot, ops: Operations, m: Moment, after: Moment,
                                              pending: set<Id>, left: set<Id>, results: map<Id, Verdict>)
    requires Accounts(s, ops, m, pending, results) && pending <= m.unstarted
    requires after.now == m.now && after.unstarted == m.unstarted - (after.running - m.running)
    requires left == pending - after.running && m.running <= after.running <= m.running + pending
    requires m.unstarted !! m.running
    ensures Accounts(s, ops, after, left, results)
  {
  }

  lemma {:induction false} ReportsRan(s: Snapshot, ops: Operations, m: Moment, after: Moment, pending: set<Id>,
                                      done: set<Id>, results: map<Id, Verdict>)
    requires Accounts(s, ops, m, pending, results) && pending !! s.blocked.Keys
    requires done <= m.running <= ops.Keys && m.running !! m.unstarted && pending <= m.unstarted
    requires after.running == m.running - done && after.unstarted == m.unstarted
    ensures Accounts(s, ops, after, pending, results + RanAll(ops, done))
  {
  }

  lemma {:induction false} StaysBlocked(now: Snapshot, ops: Operations, done: set<Id>)
    ensures now.blocked.Keys <= Recorded(now, ops, done).blocked.Keys
  {
    hide DependsOn, Ordered;
  }

  /** Some of what is running has finished. */
  lemma {:induction false} AfterAWait(s: Snapshot, ops: Operations, cap: nat, schedule: Schedule, now: Snapshot,
                                      running: set<Id>, pending: set<Id>, done: set<Id>, results: map<Id, Verdict>)
    requires InRun(s, ops, cap, schedule, now, running, pending) && Saturated(Reached(s, ops, schedule), cap)
    requires Accounts(s, ops, Reached(s, ops, schedule), pending, results)
    requires {} < done <= running && pending !! now.blocked.Keys
    ensures InRun(s, ops, cap, Wait(schedule, done), Recorded(now, ops, done), running - done, pending)
    ensures Accounts(s, ops, Reached(s, ops, Wait(schedule, done)), pending, results + RanAll(ops, done))
  {
    hide Recorded, RanAll, Accounts, Startable, Ordered;
    PendingIsIdle(s, ops, cap, schedule, now, running, pending);
    StaysBlocked(now, ops, done);
    ReportsRan(s, ops, Reached(s, ops, schedule), Reached(s, ops, Wait(schedule, done)), pending, done, results);
  }

  /** When nothing is running and all is reported, the reports and the scheduler are what the
      operations determine. */
  lemma {:induction false} RunEnds(s: Snapshot, ops: Operations, cap: nat, schedule: Schedule, now: Snapshot,
                                   pending: set<Id>, results: map<Id, Verdict>)
    requires CompletedClosed(s) && cap >= 1 && InRun(s, ops, cap, schedule, now, {}, pending)
    requires pending == {} || Saturated(Reached(s, ops, schedule), cap)
    requires Accounts(s, ops, Reached(s, ops, schedule), {}, results)
    ensures results.Keys == ops.Keys
    ensures forall t :: t in ops ==> results[t] == VerdictOf(s, ops, t)
    ensures now == Recorded(s, ops, Runners(s, ops)) && now == Reached(s, ops, schedule).now
    ensures Follows(s, ops, cap, schedule) && Complete(s, ops, schedule)
    ensures forall t :: Starts(schedule, t) == if t in Runners(s, ops) then 1 else 0
  {
    hide Follows, Reached, Recorded, DependsOn, Runs, Starts;
    assert Startable(Reached(s, ops, schedule)) == {};
    SchedulesAgree(s, ops, cap, schedule);
    forall t | t in ops ensures results[t] == VerdictOf(s, ops, t) {
      assert t in Runners(s, ops) <==> Runs(s, ops, t);
    }
  }

  lemma {:induction false} MoveOne(all: set<Id>, from: set<Id>, to: set<Id>, t: Id)
    requires t in from
    ensures (to + {t}) + (from - {t}) == to + from
    ensures (all - to) - {t} == all - (to + {t})
  {
  }

  lemma {:induction false} RanNothing(ops: Operations, results: map<Id, Verdict>)
    ensures results + RanAll(ops, {}) == results
  {
  }

  lemma {:induction false} PriorityRest(c: Children, list: seq<Id>)
    requires InPriorityOrder(c, list) && list != []
    ensures InPriorityOrder(c, list[1..]) && list[0] in c
  {
  }

  lemma {:induction false} RunningIs(s: Snapshot, ops: Operations, cap: nat, schedule: Schedule,
                                     now: Snapshot, running: set<Id>, pending: set<Id>)
    requires InRun(s, ops, cap, schedule, now, running, pending)
    ensures Reached(s, ops, schedule).running == running && Reached(s, ops, schedule).now == now
    ensures pending <= Reached(s, ops, schedule).unstarted
  {
  }

  /** The starts of one turn change no report. */
  lemma {:induction false} Resumes(s: Snapshot, ops: Operations, cap: nat, schedule: Schedule, later: Schedule, now: Snapshot,
                                   before: set<Id>, running: set<Id>, pending: set<Id>, left: set<Id>, results: map<Id, Verdict>)
    requires InRun(s, ops, cap, schedule, now, before, pending) && InRun(s, ops, cap, later, now, running, left)
    requires left == pending - running && before <= running <= before + pending
    requires Reached(s, ops, later).unstarted == Reached(s, ops, schedule).unstarted - (running - before)
    requires Accounts(s, ops, Reached(s, ops, schedule), pending, results)
    ensures Accounts(s, ops, Reached(s, ops, later), left, results)
    ensures left !! running && running <= ops.Keys
  {
    hide InRun, Accounts, Reached;
    RunningIs(s, ops, cap, schedule, now, before, pending);
    RunningIs(s, ops, cap, later, now, running, left);
    PendingIsIdle(s, ops, cap, schedule, now, before, pending);
    PendingIsIdle(s, ops, cap, later, now, running, left);
    StartsKeepAccounts(s, ops, Reached(s, ops, schedule), Reached(s, ops, later), pending, left, results);
  }

  /** Every turn of the loop with a finished operation leaves fewer operations open. */
  lemma {:induction false} TurnShrinks(before: set<Id>, waiting: set<Id>, active: set<Id>, done: set<Id>)
    requires waiting + active <= before && waiting !! active
    requires done <= active && done != {}
    ensures waiting + (active - done) < before
  {
    var t :| t in done;
    assert t in before && t !in waiting + (active - done);
  }

  // ----- The scheduler -----

  datatype Admission = Unknown | Waiting | Refused(reason: Reason) | Started

  /** How an operation under `execute` ended: a task result with its status, any other value, or
      an exception. */
  datatype Ending = ResultSucceeded | ResultFailed | ResultOther | PlainValue | Raised

  class ChildScheduler {
    const maxChildren: nat
    var children: Children
    var completed: set<Id>
    var failed: set<Id>
    var running: set<Id>
    var blocked: map<Id, Reason>

    ghost predicate Valid()
      reads this
    {
      1 <= maxChildren <= 3 && running <= children.Keys && |running| <= maxChildren
    }

    function State(): Snapshot
      reads this
    {
      Snapshot(children, completed, failed, blocked)
    }

    constructor (limit: nat)
      requires 1 <= limit <= 3
      ensures Valid() && maxChildren == limit && running == {}
      ensures State() == Snapshot(map[], {}, {}, map[])
    {
      maxChildren := limit;
      children, completed, failed, running, blocked := map[], {}, {}, {}, map[];
    }

    /** A new task is added last; a known id or an unknown dependency changes nothing. */
    method Submit(t: Id, priority: int, dependsOn: seq<Id>, awaitingApproval: bool) returns (accepted: bool)
      requires Valid()
      modifies this
      ensures Valid() && running == old(running)
      ensures accepted <==> t !in old(children) && forall d :: d in dependsOn ==> d in old(children)
      ensures State() == Apply(old(State()), Submitted(t, priority, dependsOn, awaitingApproval))
    {
      if t in children || exists d :: d in dependsOn && d !in children {
        return false;
      }
      children := WithChild(children, t, Child(priority, |children|, dependsOn, awaitingApproval));
      return true;
    }

    method BlockDependents(t: Id, reason: Reason)
      requires Valid() && t in children
      modifies this`blocked
      ensures Valid() && blocked == Blocking(children, old(blocked), t, reason)
      decreases |children| - Order(children, t)
    {
      var done: set<Id> := {};
      ghost var before := blocked;
      BlockNothing(children, before, t, reason);
      while children.Keys - done != {}
        invariant done <= children.Keys
        invariant blocked == BlockingThrough(children, before, t, done, reason)
        decreases children.Keys - done
      {
        var k :| k in children.Keys - done;
        BlockOneMore(children, before, t, done, k, reason);
        if t in children[k].dependsOn {
          blocked := blocked[k := reason];
          BlockDependents(k, reason);
        }
        done := done + {k};
      }
      assert children.Keys == done + (children.Keys - done);
      ThroughAll(children, t);
    }

    method Finish(t: Id, succeeded: bool) returns (known: bool)
      requires Valid()
      modifies this`completed, this`failed, this`blocked
      ensures Valid() && known == (t in children)
      ensures State() == Apply(old(State()), Finished(t, succeeded))
    {
      if t !in children {
        return false;
      }
      if succeeded {
        completed := completed + {t};
        return true;
      }
      failed := failed + {t};
      BlockDependents(t, DependencyUnsuccessful);
      return true;
    }

    method Cancel(t: Id) returns (known: bool)
      requires Valid()
      modifies this`failed, this`blocked
      ensures Valid() && known == (t in children)
      ensures State() == Apply(old(State()), Cancelled(t))
    {
      if t !in children {
        return false;
      }
      failed := failed + {t};
      BlockDependents(t, DependencyCancelled);
      return true;
    }

    method Approve(t: Id) returns (known: bool)
      requires Valid()
      modifies this`children
      ensures Valid() && known == (t in old(children))
      ensures State() == Apply(old(State()), Approved(t))
    {
      if t !in children {
        return false;
      }
      children := WithApproval(children, t);
      return true;
    }

    /** Forgets the failure of `t`. What it blocked stays blocked. */
    method Retry(t: Id) returns (known: bool)
      requires Valid()
      modifies this`failed
      ensures Valid() && known == (t in children)
      ensures State() == Apply(old(State()), Retried(t))
    {
      if t !in children {
        return false;
      }
      failed := failed - {t};
      return true;
    }

    predicate IsReady(t: Id)
      reads this
    {
      ReadyNow(State(), running, t)
    }

    function Ready(): (list: seq<Id>)
      requires Valid()
      reads this
      ensures forall t :: t in list <==> IsReady(t)
      ensures InPriorityOrder(children, list)
    {
      ByPriority(children, set t | t in children && IsReady(t))
    }

    /** The task is ready and near enough to the front for the free slots. A task that may start
        rests only on completed tasks. */
    predicate MayStart(t: Id)
      requires Valid()
      reads this
      ensures MayStart(t) ==> IsReady(t) && |running| < maxChildren
    {
      t in Ready() && IndexOf(Ready(), t) < maxChildren - |running|
    }

    /** The turn of `run` that starts ready operations while there is capacity: `later` continues
        the schedule with the starts of this turn and nothing else. */
    method StartReady(ghost s: Snapshot, ghost ops: Operations, ghost schedule: Schedule, pending: set<Id>)
      returns (left: set<Id>, ghost later: Schedule)
      requires Valid() && InRun(s, ops, maxChildren, schedule, State(), running, pending)
      modifies this`running
      ensures Valid() && InRun(s, ops, maxChildren, later, State(), running, left)
      ensures OnlyStarts(schedule, later) && Saturated(Reached(s, ops, later), maxChildren)
      ensures left == pending - running && old(running) <= running <= old(running) + pending
      ensures Reached(s, ops, later).unstarted == Reached(s, ops, schedule).unstarted - (running - old(running))
    {
      hide InRun, Lists, Reached, Ordered, InPriorityOrder, Saturated;
      ghost var now, before := State(), running;
      PendingIsIdle(s, ops, maxChildren, schedule, now, running, pending);
      left, later := pending, schedule;
      var waiting := Ready();
      ListsReady(s, ops, maxChildren, schedule, now, running, pending, waiting);
      var capacity := maxChildren - |running|;
      while waiting != [] && capacity != 0
        invariant capacity == maxChildren - |running| >= 0 && running <= children.Keys
        invariant InRun(s, ops, maxChildren, later, now, running, left) && OnlyStarts(schedule, later)
        invariant left == pending - running && before <= running <= before + pending
        invariant Reached(s, ops, later).unstarted == Reached(s, ops, schedule).unstarted - (running - before)
        invariant InPriorityOrder(children, waiting) && Lists(s, ops, later, waiting)
        invariant forall t :: t in waiting ==> ReadyNow(now, before, t)
        decreases waiting
      {
        var t := waiting[0];
        PriorityRest(children, waiting);
        if t in left {
          StartFirst(s, ops, maxChildren, later, now, before, running, left, waiting);
          later := Start(later, t);
          running, left, capacity := running + {t}, left - {t}, capacity - 1;
        } else {
          SkipFirst(s, ops, maxChildren, later, now, running, left, waiting);
        }
        waiting := waiting[1..];
      }
      RunningIs(s, ops, maxChildren, later, now, running, left);
      NothingListed(s, ops, maxChildren, later);
    }

    /** Takes one finished operation out of the running ones and records what it returned or
        raised. */
    method RecordOne(ops: Operations, t: Id, results: map<Id, Verdict>) returns (recorded: map<Id, Verdict>)
      requires Valid() && t in ops && t in running
      modifies this`completed, this`failed, this`blocked, this`running
      ensures Valid() && running == old(running) - {t}
      ensures State() == Apply(old(State()), Finished(t, ops[t].success))
      ensures recorded == results[t := Ran(ops[t])]
    {
      running := running - {t};
      recorded := results[t := Ran(ops[t])];
      var _ := Finish(t, ops[t].success);
    }

    /** The turn of `run` that records the operations that finished together, in any order. */
    method RecordDone(ops: Operations, finished: set<Id>, results: map<Id, Verdict>)
      returns (recorded: map<Id, Verdict>)
      requires Valid() && finished <= running && finished <= ops.Keys
      modifies this`completed, this`failed, this`blocked, this`running
      ensures Valid() && running == old(running) - finished
      ensures State() == Recorded(old(State()), ops, finished)
      ensures recorded == results + RanAll(ops, finished)
    {
      hide Recorded, RanAll, Apply, Ordered;
      ghost var now := State();
      recorded := results;
      var done := finished;
      ghost var past: set<Id> := {};
      RecordedNothing(now, ops);
      RanNothing(ops, results);
      while done != {}
        invariant Valid() && done <= running && running == old(running) - past
        invariant past + done == finished
        invariant State() == Recorded(now, ops, past)
        invariant recorded == results + RanAll(ops, past)
        decreases done
      {
        var t :| t in done;
        RecordedOneMore(now, ops, past, t);
        RanOneMore(ops, past, t, results);
        MoveOne(old(running), done, past, t);
        recorded := RecordOne(ops, t, recorded);
        done, past := done - {t}, past + {t};
      }
      assert past == finished;
    }

    /** Reports operations that are not run, each with the reason it is blocked for. */
    method ReportBlocked(which: set<Id>, results: map<Id, Verdict>) returns (reported: map<Id, Verdict>)
      ensures reported == results + UnrunAll(blocked, which)
    {
      reported := results + UnrunAll(blocked, which);
    }

    /** The part of a turn of `run` before it waits: report what is blocked and start what is
        ready. */
    method ReportAndStart(ghost s: Snapshot, ghost ops: Operations, ghost schedule: Schedule,
                          pending: set<Id>, results: map<Id, Verdict>)
      returns (left: set<Id>, reported: map<Id, Verdict>, ghost later: Schedule)
      requires Valid() && InRun(s, ops, maxChildren, schedule, State(), running, pending)
      requires Accounts(s, ops, Reached(s, ops, schedule), pending, results)
      modifies this`running
      ensures Valid() && InRun(s, ops, maxChildren, later, State(), running, left)
      ensures Accounts(s, ops, Reached(s, ops, later), left, reported)
      ensures OnlyStarts(schedule, later) && Saturated(Reached(s, ops, later), maxChildren)
      ensures left + running <= pending + old(running) && left !! running && running <= ops.Keys
      ensures left !! blocked.Keys
    {
      hide InRun, Accounts, Reached, OnlyStarts, Saturated, UnrunAll, Ordered;
      ghost var now, before := State(), running;
      var idle := pending * blocked.Keys;
      ReportsAreFinal(s, ops, maxChildren, schedule, now, running, pending, idle, results);
      reported := ReportBlocked(idle, results);
      left, later := StartReady(s, ops, schedule, pending - idle);
      Resumes(s, ops, maxChildren, schedule, later, now, before, running, pending - idle, left, reported);
    }

    /** Runs every operation that can run, at most `maxChildren` at a time. The reports and the
        final state are the same for every schedule. */
    method Run(ops: Operations) returns (results: map<Id, Verdict>, ghost schedule: Schedule)
      requires Valid() && running == {} && CompletedClosed(State())
      modifies this`completed, this`failed, this`blocked, this`running
      ensures Valid() && running == {}
      ensures results.Keys == ops.Keys
      ensures forall t :: t in ops ==> results[t] == VerdictOf(old(State()), ops, t)
      ensures State() == Recorded(old(State()), ops, Runners(old(State()), ops))
      ensures Follows(old(State()), ops, maxChildren, schedule) && Complete(old(State()), ops, schedule)
      ensures State() == Reached(old(State()), ops, schedule).now
      ensures forall t :: Starts(schedule, t) == if t in Runners(old(State()), ops) then 1 else 0
    {
      hide InRun, Accounts, Follows, Reached, Recorded, Complete, Starts, Runs, Runners, VerdictOf;
      hide UnrunAll, RanAll, Saturated, CompletedClosed, Ordered;
      ghost var s := State();
      var pending: set<Id> := ops.Keys;
      results, schedule := map[], Begin;
      RunBegins(s, ops, maxChildren);
      while pending + running != {}
        invariant Valid() && InRun(s, ops, maxChildren, schedule, State(), running, pending)
        invariant Accounts(s, ops, Reached(s, ops, schedule), pending, results)
        decreases pending + running
      {
        ghost var before := pending + running;
        pending, results, schedule := ReportAndStart(s, ops, schedule, pending, results);
        if running == {} {
          ghost var last := pending;
          ReportsAreFinal(s, ops, maxChildren, schedule, State(), running, pending, pending, results);
          results := ReportBlocked(pending, results);
          RunEnds(s, ops, maxChildren, schedule, State(), last, results);
          return;
        }
        var done :| done <= running && done != {};
        TurnShrinks(before, pending, running, done);
        AfterAWait(s, ops, maxChildren, schedule, State(), running, pending, done, results);
        results := RecordDone(ops, done, results);
        schedule := Wait(schedule, done);
      }
      RunEnds(s, ops, maxChildren, schedule, State(), {}, results);
    }

    /** One evaluation of the condition `execute` waits for, and what it then does. Started tasks
        rest on completed tasks, and the cap holds. */
    method TryStart(t: Id) returns (r: Admission)
      requires Valid()
      modifies this`running
      ensures Valid() && State() == old(State())
      ensures running == if r.Started? then old(running) + {t} else old(running)
      ensures r == Unknown <==> t !in children
      ensures r.Refused? <==> t in children && t in blocked
      ensures r.Refused? ==> r.reason == blocked[t]
      ensures r == Started <==> old(MayStart(t))
    {
      if t !in children {
        return Unknown;
      }
      if t in blocked {
        return Refused(blocked[t]);
      }
      if !MayStart(t) {
        return Waiting;
      }
      running := running + {t};
      return Started;
    }

    /** What follows the operation. A failed result that is not final is not reported, so the task
        becomes ready again. */
    method EndExecution(t: Id, ending: Ending, finalFailure: bool)
      requires Valid() && t in children
      modifies this`completed, this`failed, this`blocked, this`running
      ensures Valid() && running == old(running) - {t}
      ensures State() ==
                if ending == ResultSucceeded || ending == PlainValue
                then old(State()).(completed := old(completed) + {t})
                else if ending == ResultFailed && !finalFailure then old(State())
                else old(State()).(failed := old(failed) + {t},
                                   blocked := Blocking(children, old(blocked), t, DependencyUnsuccessful))
    {
      if ending == Raised {
        var _ := Finish(t, false);
      } else if ending == ResultSucceeded || ending == PlainValue {
        var _ := Finish(t, true);
      } else if finalFailure || ending != ResultFailed {
        var _ := Finish(t, false);
      }
      running := running - {t};
    }
  }

  /** The position of `t`, or the length of the list when it is absent. */
  function IndexOf(list: seq<Id>, t: Id): (i: nat)
    ensures i <= |list| && (t in list <==> i < |list|) && (i < |list| ==> list[i] == t)
  {
    if list == [] || list[0] == t then 0 else 1 + IndexOf(list[1..], t)
  }
}
