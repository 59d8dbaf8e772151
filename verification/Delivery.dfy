/** From capture to integration: what a changeset that was captured from a worktree does to the canonical
    workspace. */
module Deliveries {
  import opened Prelude
  import opened Paths
  import opened ChangeSets
  import opened Captures
  import opened Integrations

  /** The workspace still has the snapshot's content at every captured path. */
  ghost predicate Agrees(files: Files, s: Snapshot, c: ChangeSet) {
    forall p :: p in PathsOf(c.paths) ==> Lookup(files, p) == Lookup(OriginalFiles(s), p)
  }

  lemma {:induction false} ImageIsContent(files: Files, p: Path, content: Option<Bytes>)
    ensures HasImage(files, p, ImageOf(content)) <==> Lookup(files, p) == content
  {
  }

  /** A captured changeset is well-formed. */
  lemma {:induction false} CapturedIsWellformed(t: Task, s: Snapshot, work: Files, blobs: Blobs, fold: Path -> Path, c: ChangeSet, after: Blobs)
    requires Capture(t, Some(s), work, blobs, fold) == Ok((c, after))
    ensures Wellformed(c.paths)
  {
    hide Capture, ContractViolation, Wellformed, PathChange.EffectMatches;
    CaptureIsTheDifference(t, s, work, blobs, fold, c, after);
    WellformedByContract(c, fold);
  }

  /** Its before images are on disk exactly when the workspace agrees with the snapshot. */
  lemma {:induction false} BaseMeansAgreement(t: Task, s: Snapshot, work: Files, blobs: Blobs, fold: Path -> Path, c: ChangeSet, after: Blobs, files: Files)
    requires Capture(t, Some(s), work, blobs, fold) == Ok((c, after))
    ensures BaseValid(files, c.paths) <==> Agrees(files, s, c)
  {
    hide Capture, ContractViolation, OriginalFiles, Readable, ValidRelative, HasImage, ImageOf, Lookup, Patch, Ascending;
    CaptureIsTheDifference(t, s, work, blobs, fold, c, after);
    var paths := PathsOf(c.paths);
    forall change | change in c.paths
      ensures change.path in paths
      ensures HasImage(files, change.path, change.before) <==> Lookup(files, change.path) == Lookup(OriginalFiles(s), change.path)
    {
      var i :| 0 <= i < |c.paths| && c.paths[i] == change;
      assert paths[i] == change.path;
      ImageIsContent(files, change.path, Lookup(OriginalFiles(s), change.path));
    }
    forall p | p in paths ensures exists change :: change in c.paths && change.path == p {
      var i :| 0 <= i < |paths| && paths[i] == p;
      assert c.paths[i] in c.paths;
    }
  }

  /** Any prefix of it takes the workspace, at the prefix's paths, to the worktree, and changes nothing
      else. */
  lemma {:induction false} PrefixDelivers(t: Task, s: Snapshot, work: Files, blobs: Blobs, fold: Path -> Path, c: ChangeSet, after: Blobs,
                                          files: Files, n: nat, p: Path)
    requires Capture(t, Some(s), work, blobs, fold) == Ok((c, after)) && n <= |c.paths|
    ensures Lookup(Patch(files, c.paths[..n]), p) == if p in PathsOf(c.paths)[..n] then Lookup(work, p) else Lookup(files, p)
  {
    hide Capture, ContractViolation, OriginalFiles, Readable, ValidRelative, Patch, Ascending, Distinct;
    CaptureIsTheDifference(t, s, work, blobs, fold, c, after);
    CapturedIsWellformed(t, s, work, blobs, fold, c, after);
    var prefix := c.paths[..n];
    assert PathsOf(prefix) == PathsOf(c.paths)[..n];
    DistinctPrefix(PathsOf(c.paths), n);
    if p in PathsOf(prefix) {
      var i :| 0 <= i < n && PathsOf(prefix)[i] == p;
      PatchReaches(files, prefix, i);
      assert prefix[i] == c.paths[i] && c.paths[i] in c.paths;
    } else {
      PatchLeaves(files, prefix, p);
    }
  }

  lemma {:induction false} DistinctPrefix(paths: seq<Path>, n: nat)
    requires Distinct(paths) && n <= |paths|
    ensures Distinct(paths[..n])
  {
  }

  /** Its contents can be written as long as the store keeps what the capture published. */
  lemma {:induction false} CapturedIsWritable(t: Task, s: Snapshot, work: Files, blobs: Blobs, fold: Path -> Path, c: ChangeSet, after: Blobs, later: Blobs)
    requires Capture(t, Some(s), work, blobs, fold) == Ok((c, after)) && Keeps(after, later)
    ensures forall change :: change in c.paths ==> Writable(later, change)
  {
    hide Capture, ContractViolation, OriginalFiles, ValidRelative, Patch, Ascending, PathsOf, ImageOf, Lookup;
    CaptureIsTheDifference(t, s, work, blobs, fold, c, after);
    forall change | change in c.paths ensures Writable(later, change) {
      assert Readable(change, after);
    }
  }

  /** The workspace holds the worktree's content at the first `n` captured paths and its own everywhere
      else, but for a temporary file. */
  ghost predicate Delivered(before: Files, now: Files, work: Files, c: ChangeSet, n: nat, stray: Option<Path>) {
    && n <= |c.paths|
    && forall p :: Some(p) != stray ==> Lookup(now, p) == if p in PathsOf(c.paths)[..n] then Lookup(work, p) else Lookup(before, p)
  }

  /** Integrating a changeset that was captured from the worktree `work` against the snapshot `s`.
      It is blocked exactly when the workspace no longer agrees with the snapshot. Whenever it stops,
      the worktree's content is in place for a prefix of the captured paths, and nothing else has
      changed; and it completes when nothing fails. */
  method Deliver(integrator: ChangeSetIntegrator, id: Id, ghost t: Task, ghost s: Snapshot, ghost work: Files, ghost blobs: Blobs,
                 ghost fold: Path -> Path, ghost captured: Blobs, temporary: Path -> Path, faulty: set<Path>, budget: nat)
    returns (outcome: Outcome, done: nat, stray: Option<Path>)
    requires id in integrator.records && integrator.records[id].status.Captured? && integrator.records[id].applied == {}
    requires Capture(t, Some(s), work, blobs, fold) == Ok((integrator.records[id].changeset, captured))
    requires Keeps(captured, integrator.artifacts.blobs)
    requires forall p :: p in PathsOf(integrator.records[id].changeset.paths) ==>
      temporary(p) !in integrator.files && temporary(p) !in PathsOf(integrator.records[id].changeset.paths)
    modifies integrator`files, integrator`records
    ensures id in integrator.records && integrator.records[id].changeset == old(integrator.records)[id].changeset
    ensures var c, status := integrator.records[id].changeset, integrator.records[id].status;
      && Delivered(old(integrator.files), integrator.files, work, c, done, stray)
      && (status.Blocked? <==> !Agrees(old(integrator.files), s, c) && budget > 0)
      && (status.Blocked? ==> integrator.files == old(integrator.files))
      && (status.Integrated? ==> stray.None? && done == |c.paths|)
      && (status.Integrated? && old(integrator.files) == OriginalFiles(s) ==> integrator.files == work)
      && (Agrees(old(integrator.files), s, c) && budget >= 3 * |c.paths| + 2 && (forall p :: p in PathsOf(c.paths) ==> p !in faulty) ==>
            status.Integrated?)
  {
    hide Capture, ContractViolation, OriginalFiles, Wellformed, Writable, Keeps, BaseValid, AfterValid, Agrees, Patch, Lookup;
    ghost var c, before := integrator.records[id].changeset, integrator.files;
    CapturedIsWellformed(t, s, work, blobs, fold, c, captured);
    BaseMeansAgreement(t, s, work, blobs, fold, c, captured, before);
    CapturedIsWritable(t, s, work, blobs, fold, c, captured, integrator.artifacts.blobs);
    PathsInChanges(c.paths, faulty);
    outcome, done, stray := integrator.Integrate(id, temporary, faulty, budget);
    forall p | Some(p) != stray
      ensures Lookup(integrator.files, p) == if p in PathsOf(c.paths)[..done] then Lookup(work, p) else Lookup(before, p)
    {
      PrefixDelivers(t, s, work, blobs, fold, c, captured, before, done, p);
    }
    if before == OriginalFiles(s) {
      CaptureIsTheDifference(t, s, work, blobs, fold, c, captured);
    }
  }

  lemma {:induction false} PathsInChanges(changes: seq<PathChange>, faulty: set<Path>)
    ensures (forall p :: p in PathsOf(changes) ==> p !in faulty) ==> forall c :: c in changes ==> c.path !in faulty
  {
    forall c | c in changes ensures c.path in PathsOf(changes) {
      var i :| 0 <= i < |changes| && changes[i] == c;
      assert PathsOf(changes)[i] == c.path;
    }
  }
}
