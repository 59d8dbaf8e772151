/** Applying a captured changeset to the canonical workspace (runtime/changeset_integration.py), one
    effect at a time, so that it can be interrupted before any of them. The journal's status changes
    are compare-and-set (sessions/journal.py, transition_changeset_status). */
module Integrations {
  import opened Prelude
  import opened Paths
  import opened ChangeSets
  import opened Captures

  datatype Status = Captured | Applying | InDoubt | Integrated | Blocked

  /** `applied` are the file operations that are marked as done. */
  datatype Record = Record(changeset: ChangeSet, status: Status, applied: set<Path>)

  type Records = map<Id, Record>

  datatype JournalError = TransitionInvalid | UnknownChangeset | TransitionConflict

  // ----- Status transitions -----

  function Allowed(expected: Status): set<Status> {
    match expected
    case Captured => {Applying, Blocked}
    case Applying => {InDoubt, Integrated, Blocked}
    case InDoubt => {Integrated, Blocked}
    case _ => {}
  }

  function Transition(records: Records, id: Id, expected: Status, target: Status): Result<Records, JournalError> {
    if target !in Allowed(expected) then Err(TransitionInvalid)
    else if id !in records then Err(UnknownChangeset)
    else if records[id].status != expected then Err(TransitionConflict)
    else Ok(records[id := records[id].(status := target)])
  }

  datatype Change = Change(id: Id, expected: Status, target: Status)

  function After(records: Records, change: Change): Records {
    var r := Transition(records, change.id, change.expected, change.target);
    if r.Ok? then r.value else records
  }

  function Starts(records: Records, change: Change, id: Id): nat {
    if change.id == id && change.target.Applying? && Transition(records, change.id, change.expected, change.target).Ok? then 1 else 0
  }

  /** How often a changeset starts applying in a history of attempted transitions. */
  function TimesStarted(records: Records, history: seq<Change>, id: Id): nat
    decreases |history|
  {
    if history == [] then 0
    else Starts(records, history[0], id) + TimesStarted(After(records, history[0]), history[1..], id)
  }

  function RecordsAfter(records: Records, history: seq<Change>): Records
    decreases |history|
  {
    if history == [] then records else RecordsAfter(After(records, history[0]), history[1..])
  }

  /** Integrated and blocked are final over any history of transitions. A changeset in doubt can only
      become one of these, and one that is being applied never goes back to captured. */
  lemma {:induction false} EndsForGood(records: Records, history: seq<Change>, id: Id)
    requires id in records
    ensures id in RecordsAfter(records, history)
    ensures var before, after := records[id].status, RecordsAfter(records, history)[id].status;
      && (before == Integrated || before == Blocked ==> after == before)
      && (before == InDoubt ==> after in {InDoubt, Integrated, Blocked})
      && (before == Applying ==> after in {Applying, InDoubt, Integrated, Blocked})
    decreases |history|
  {
    if history != [] {
      EndsForGood(After(records, history[0]), history[1..], id);
    }
  }

  /** Each transition that the integrator may ask for is accepted from the status it names. */
  lemma {:induction false} TransitionsExactly(records: Records, id: Id, expected: Status, target: Status)
    ensures Transition(records, id, expected, target).Ok? <==>
      && id in records && records[id].status == expected
      && match target
         case Captured => false
         case Applying => expected == Captured
         case InDoubt => expected == Applying
         case Integrated => expected == Applying || expected == InDoubt
         case Blocked => expected == Captured || expected == Applying || expected == InDoubt
    ensures Transition(records, id, expected, target).Ok? ==>
      Transition(records, id, expected, target).value == records[id := records[id].(status := target)]
  {
  }

  /** Whatever transitions are attempted, by whomever and in any order, a changeset starts applying at
      most once, and not at all once it has left its captured state. */
  lemma {:induction false} StartsOnce(records: Records, history: seq<Change>, id: Id)
    ensures TimesStarted(records, history, id) <= if id in records && records[id].status.Captured? then 1 else 0
    decreases |history|
  {
    if history != [] {
      StartsOnce(After(records, history[0]), history[1..], id);
    }
  }

  // ----- Images on disk -----

  predicate HasImage(files: Files, p: Path, image: Option<Image>) {
    if image.None? then p !in files
    else p in files && |files[p]| == image.value.size && Sha256(files[p]) == image.value.digest
  }

  /** An image is in place exactly when the file has its digest and its size, or no file is meant and none
      is there. */
  lemma {:induction false} ImageInPlace(files: Files, p: Path, image: Option<Image>)
    ensures HasImage(files, p, image) <==>
      if p in files then image.Some? && image.value.digest == Sha256(files[p]) && image.value.size == |files[p]| else image.None?
  {
  }

  predicate BaseValid(files: Files, changes: seq<PathChange>) {
    forall c :: c in changes ==> HasImage(files, c.path, c.before)
  }

  predicate AfterValid(files: Files, changes: seq<PathChange>) {
    forall c :: c in changes ==> HasImage(files, c.path, c.after)
  }

  /** A changeset as its contract demands it: every file once, with the images of its effect. */
  predicate Wellformed(changes: seq<PathChange>) {
    Distinct(PathsOf(changes)) && forall c :: c in changes ==> c.EffectMatches()
  }

  lemma {:induction false} WellformedByContract(c: ChangeSet, fold: Path -> Path)
    requires ContractViolation(c, fold).None? && forall change :: change in c.paths ==> change.EffectMatches()
    ensures Wellformed(c.paths)
  {
    FoldedDistinct(c.paths, fold);
    var paths := PathsOf(c.paths);
    forall i, j | 0 <= i < j < |paths| ensures paths[i] != paths[j] {
      assert fold(c.paths[i].path) != fold(c.paths[j].path);
    }
  }

  /** Between two effects each path of the changeset has its before or its after image. */
  lemma {:induction false} PrefixImages(files: Files, changes: seq<PathChange>, done: nat, now: Files, i: nat)
    requires Distinct(PathsOf(changes)) && BaseValid(files, changes) && done <= |changes| && i < |changes|
    requires Lookup(now, changes[i].path) == Lookup(Patch(files, changes[..done]), changes[i].path)
    ensures i < done ==> Lookup(now, changes[i].path) == ContentOf(changes[i].after)
    ensures i >= done ==> HasImage(now, changes[i].path, changes[i].before)
  {
    var prefix := changes[..done];
    assert PathsOf(prefix) == PathsOf(changes)[..done];
    if i < done {
      assert prefix[i] == changes[i];
      PatchReaches(files, prefix, i);
    } else {
      assert changes[i].path == PathsOf(changes)[i] && changes[i] in changes;
      PatchLeaves(files, prefix, changes[i].path);
      assert Lookup(now, changes[i].path) == Lookup(files, changes[i].path);
    }
  }

  // ----- The integrator -----

  datatype Outcome =
    | Refused
    | Returned(status: Status)
    | Interrupted

  datatype Progress = Going | Failed | Stopped

  /** Whether an image can be written from the store. */
  predicate Writable(blobs: Blobs, c: PathChange) {
    c.after.Some? ==> ReadImage(blobs, c.after.value).Ok?
  }

  /** `budget` is the number of effects before the process stops, `faulty` the paths whose file
      operation raises an error, and `temporary` gives the name of the file that is written first. */
  class ChangeSetIntegrator {
    const artifacts: ImmutableArtifactStore
    var records: Records
    var files: Files

    constructor (artifacts: ImmutableArtifactStore, records: Records, files: Files)
      ensures this.artifacts == artifacts && this.records == records && this.files == files
    {
      this.artifacts := artifacts;
      this.records := records;
      this.files := files;
    }

    method CheckImages(changes: seq<PathChange>, after: bool) returns (valid: bool)
      ensures valid == if after then AfterValid(files, changes) else BaseValid(files, changes)
    {
      for i := 0 to |changes|
        invariant forall c :: c in changes[..i] ==> HasImage(files, c.path, if after then c.after else c.before)
      {
        var image := if after then changes[i].after else changes[i].before;
        if !HasImage(files, changes[i].path, image) {
          assert changes[i] in changes;
          return false;
        }
      }
      assert changes[..|changes|] == changes;
      valid := true;
    }

    /** Unlinks a file, or writes it under a temporary name and moves it into place. */
    method ApplyOne(c: PathChange, temporary: Path, faulty: bool, budget: nat)
      returns (progress: Progress, left: nat, stray: Option<Path>)
      requires c.after.None? ==> c.path in files
      requires temporary !in files && temporary != c.path
      modifies this`files
      ensures left <= budget
      ensures progress.Going? ==> files == Put(old(files), c.path, c.after) && stray.None?
      ensures !progress.Going? && stray.None? ==> files == old(files)
      ensures stray.Some? ==>
        && progress.Stopped? && stray.value == temporary
        && forall p :: p != temporary ==> Lookup(files, p) == Lookup(old(files), p)
      ensures progress.Failed? ==> faulty || !Writable(artifacts.blobs, c)
      ensures progress.Stopped? ==> budget < 2
      ensures progress.Going? ==> left + 2 >= budget
    {
      left, stray := budget, None;
      if c.after.None? {
        if faulty {
          return Failed, left, None;
        }
        if left == 0 {
          return Stopped, left, None;
        }
        files, left := files - {c.path}, left - 1;
      } else {
        var content := artifacts.Read(c.after.value);
        if content.Err? || faulty {
          return Failed, left, None;
        }
        if left == 0 {
          return Stopped, left, None;
        }
        files, left := files[temporary := content.value], left - 1;
        if left == 0 {
          return Stopped, left, Some(temporary);
        }
        ghost var start := old(files);
        files, left := (files - {temporary})[c.path := content.value], left - 1;
        assert start[temporary := content.value] - {temporary} == start;
        assert content.value == c.after.value.digest.content;
      }
      progress := Going;
    }

    /** The loop over the changes, with a mark in the journal after each. */
    method ApplyEach(id: Id, changes: seq<PathChange>, temporary: Path -> Path, faulty: set<Path>, budget: nat)
      returns (progress: Progress, left: nat, done: nat, stray: Option<Path>)
      requires id in records && records[id].applied == {}
      requires Wellformed(changes) && BaseValid(files, changes)
      requires forall p :: p in PathsOf(changes) ==> temporary(p) !in files && temporary(p) !in PathsOf(changes)
      modifies this`files, this`records
      ensures left <= budget && done <= |changes|
      ensures forall p :: Some(p) != stray ==> Lookup(files, p) == Lookup(Patch(old(files), changes[..done]), p)
      ensures stray.Some? ==> progress.Stopped? && done < |changes| && stray.value == temporary(changes[done].path)
      ensures exists marked: nat :: marked <= done && done <= marked + 1 && (progress.Going? ==> marked == done)
                && records == old(records)[id := old(records)[id].(applied := Named(changes, marked))]
      ensures progress.Going? ==> done == |changes| && files == Patch(old(files), changes) && left + 3 * |changes| >= budget
      ensures progress.Failed? ==> exists c :: c in changes && (c.path in faulty || !Writable(artifacts.blobs, c))
      ensures progress.Stopped? ==> budget < 3 * |changes|
    {
      progress, left, done, stray := Going, budget, 0, None;
      ghost var start := files;
      NothingNamed(changes);
      assert old(records)[id := old(records)[id].(applied := {})] == old(records);
      while done < |changes|
        invariant done <= |changes| && left <= budget && progress.Going? && stray.None?
        invariant files == Patch(start, changes[..done])
        invariant records == old(records)[id := old(records)[id].(applied := Named(changes, done))]
        invariant left + 3 * done >= budget
      {
        var c := changes[done];
        assert c in changes;
        StillBefore(start, changes, done, temporary(c.path));
        progress, left, stray := ApplyOne(c, temporary(c.path), c.path in faulty, left);
        if !progress.Going? {
          return;
        }
        PatchStep(start, changes, done);
        if left == 0 {
          progress, done := Stopped, done + 1;
          return;
        }
        OneMoreNamed(changes, done);
        records := records[id := records[id].(applied := records[id].applied + {c.path})];
        left, done := left - 1, done + 1;
      }
      assert changes[..|changes|] == changes;
    }

    method Move(id: Id, target: Status)
      requires id in records && target in Allowed(records[id].status)
      modifies this`records
      ensures Transition(old(records), id, old(records)[id].status, target) == Ok(records)
      ensures records == old(records)[id := old(records)[id].(status := target)]
    {
      records := records[id := records[id].(status := target)];
    }

    /** Integrates a captured changeset, or stops before the effect for which the budget does not
        suffice. `done` changes have been made, and `stray` is a temporary file that is left behind. */
    method Integrate(id: Id, temporary: Path -> Path, faulty: set<Path>, budget: nat)
      returns (outcome: Outcome, done: nat, stray: Option<Path>)
      requires id in records ==>
        && Wellformed(records[id].changeset.paths) && (records[id].status.Captured? ==> records[id].applied == {})
        && forall p :: p in PathsOf(records[id].changeset.paths) ==>
             temporary(p) !in files && temporary(p) !in PathsOf(records[id].changeset.paths)
      modifies this`files, this`records
      ensures outcome.Refused? <==> !(id in old(records) && old(records)[id].status.Captured?)
      ensures outcome.Refused? ==> files == old(files) && records == old(records)
      ensures !outcome.Refused? ==>
        var start := old(records)[id];
        var changes := start.changeset.paths;
        && done <= |changes|
        // The first `done` changes have been made, and nothing else but the temporary file.
        && (forall p :: Some(p) != stray ==> Lookup(files, p) == Lookup(Patch(old(files), changes[..done]), p))
        && (stray.Some? ==> outcome.Interrupted? && done < |changes| && stray.value == temporary(changes[done].path))
        // Only this record changed: its status, and the marks of all changes but perhaps the last.
        && (exists marked: nat :: marked <= done && done <= marked + 1 && id in records
              && records == old(records)[id := start.(status := records[id].status, applied := Named(changes, marked))])
        && var status := records[id].status;
           && (outcome.Returned? ==> outcome.status == status && status in {Blocked, InDoubt, Integrated})
           && (outcome.Interrupted? ==> status in {Captured, Applying})
           && (status in {Captured, Blocked} ==> done == 0 && files == old(files))
           && (status.Blocked? <==> !BaseValid(old(files), changes) && budget > 0)
           && (status.Integrated? ==> done == |changes| && AfterValid(files, changes) && files == Patch(old(files), changes))
           // Nothing but an error, an unreadable artifact or a stop keeps it from being integrated.
           && ((&& BaseValid(old(files), changes) && budget >= 3 * |changes| + 2
                && forall c :: c in changes ==> c.path !in faulty && Writable(artifacts.blobs, c)) ==>
               status.Integrated?)
    {
      outcome, done, stray := Refused, 0, None;
      if id !in records || !records[id].status.Captured? {
        return;
      }
      var changes := records[id].changeset.paths;
      ghost var start := records[id];
      NothingNamed(changes);
      assert changes[..0] == [] && start.(status := Captured, applied := Named(changes, 0)) == start;
      if budget == 0 {
        return Interrupted, 0, None;
      }
      var valid := CheckImages(changes, false);
      if !valid {
        Move(id, Blocked);
        return Returned(Blocked), 0, None;
      }
      Move(id, Applying);
      var progress, left;
      progress, left, done, stray := ApplyEach(id, changes, temporary, faulty, budget - 1);
      if progress.Stopped? || left == 0 {
        return Interrupted, done, stray;
      }
      if progress.Going? {
        PatchedIsValid(artifacts.blobs, old(files), changes);
        var complete := CheckImages(changes, true);
        if complete {
          Move(id, Integrated);
          return Returned(Integrated), done, None;
        }
      }
      Move(id, InDoubt);
      outcome := Returned(InDoubt);
    }

    /** After a restart, an application that was interrupted is in doubt. */
    method Recover(id: Id) returns (status: Option<Status>)
      modifies this`records
      ensures status.None? <==> id !in old(records)
      ensures status.Some? ==>
        && status.value == (if old(records)[id].status.Applying? then InDoubt else old(records)[id].status)
        && records == old(records)[id := old(records)[id].(status := status.value)]
      ensures status.None? ==> records == old(records)
    {
      if id !in records {
        return None;
      }
      if records[id].status.Applying? {
        Move(id, InDoubt);
        return Some(InDoubt);
      }
      assert records[id := records[id]] == records;
      status := Some(records[id].status);
    }
  }

  /** The after images that can be read are the ones that are then found in place. */
  lemma {:induction false} PatchedIsValid(blobs: Blobs, files: Files, changes: seq<PathChange>)
    requires Distinct(PathsOf(changes))
    ensures (forall c :: c in changes ==> Writable(blobs, c)) ==> AfterValid(Patch(files, changes), changes)
  {
    if forall c :: c in changes ==> Writable(blobs, c) {
      forall c | c in changes ensures HasImage(Patch(files, changes), c.path, c.after) {
        var i :| 0 <= i < |changes| && changes[i] == c;
        PatchReaches(files, changes, i);
      }
    }
  }

  /** The paths of the first `n` changes. */
  function Named(changes: seq<PathChange>, n: nat): set<Path>
    requires n <= |changes|
  {
    set i | 0 <= i < n :: changes[i].path
  }

  lemma {:induction false} NothingNamed(changes: seq<PathChange>)
    ensures Named(changes, 0) == {}
  {
  }

  lemma {:induction false} OneMoreNamed(changes: seq<PathChange>, n: nat)
    requires n < |changes|
    ensures Named(changes, n + 1) == Named(changes, n) + {changes[n].path}
  {
  }

  lemma {:induction false} PatchStep(files: Files, changes: seq<PathChange>, n: nat)
    requires n < |changes|
    ensures Patch(files, changes[..n + 1]) == Put(Patch(files, changes[..n]), changes[n].path, changes[n].after)
  {
    assert changes[..n + 1] == changes[..n] + [changes[n]];
    PatchAppend(files, changes[..n], changes[n]);
  }

  lemma {:induction false} PatchAppend(files: Files, changes: seq<PathChange>, last: PathChange)
    ensures Patch(files, changes + [last]) == Put(Patch(files, changes), last.path, last.after)
    decreases |changes|
  {
    if changes != [] {
      assert (changes + [last])[1..] == changes[1..] + [last];
      PatchAppend(Put(files, changes[0].path, changes[0].after), changes[1..], last);
    } else {
      assert changes + [last] == [last] && [last][1..] == [];
    }
  }

  /** A change that has not been made yet still finds its before image and a free temporary name. */
  lemma {:induction false} StillBefore(files: Files, changes: seq<PathChange>, n: nat, temporary: Path)
    requires Distinct(PathsOf(changes)) && BaseValid(files, changes) && n < |changes|
    requires temporary !in files && temporary !in PathsOf(changes)
    ensures HasImage(Patch(files, changes[..n]), changes[n].path, changes[n].before)
    ensures temporary !in Patch(files, changes[..n]) && temporary != changes[n].path
  {
    PrefixImages(files, changes, n, Patch(files, changes[..n]), n);
    assert PathsOf(changes)[n] == changes[n].path;
    assert PathsOf(changes[..n]) == PathsOf(changes)[..n];
    PatchLeaves(files, changes[..n], temporary);
    assert Lookup(Patch(files, changes[..n]), temporary) == None;
  }
}
