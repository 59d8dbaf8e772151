/** Capturing what changed between a snapshot and a worktree (runtime/workspace_capture.py,
    capture_changeset), and the patch that undoes the distance. */
module Captures {
  import opened Prelude
  import opened Paths
  import opened ChangeSets

  /** What the manifest says about a path: nothing, something that is not a record, a deleted file,
      or a file. */
  datatype Entry = NullEntry | NotARecord | Tombstone | FileEntry(digest: Option<Digest>, size: int)

  datatype Snapshot = Snapshot(id: Id, head: Id, files: map<Path, Entry>, contents: map<Path, Bytes>)

  datatype CaptureError = SnapshotInvalid | Corrupt | PathInvalid | NoChanges | Contract(violation: ContractError)

  type Files = map<Path, Bytes>

  function Lookup(files: Files, p: Path): Option<Bytes> {
    if p in files then Some(files[p]) else None
  }

  // ----- The transaction, file by file -----

  /** The content a path had in the snapshot, if its evidence is consistent. */
  function Original(s: Snapshot, p: Path): Result<Option<Bytes>, CaptureError> {
    if p !in s.files then Ok(None)
    else match s.files[p]
      case NullEntry => Ok(None)
      case NotARecord => Err(SnapshotInvalid)
      case Tombstone => Ok(None)
      case FileEntry(digest, size) =>
        if p !in s.contents then Err(SnapshotInvalid)
        else if digest != Some(Sha256(s.contents[p])) || size != |s.contents[p]| then Err(SnapshotInvalid)
        else Ok(Some(s.contents[p]))
  }

  function ImageOf(content: Option<Bytes>): Option<Image> {
    if content.None? then None
    else Some(Image(Sha256(content.value), |content.value|, Some(Sha256(content.value))))
  }

  function ChangeOf(p: Path, before: Option<Bytes>, after: Option<Bytes>): PathChange {
    PathChange(p, if before.None? then Added else if after.None? then Deleted else Modified, ImageOf(before), ImageOf(after))
  }

  function PublishOption(blobs: Blobs, content: Option<Bytes>): Result<Blobs, CaptureError> {
    if content.None? then Ok(blobs)
    else if Conflicts(blobs, content.value) then Err(Corrupt)
    else Ok(Published(blobs, content.value))
  }

  function PublishEach(ps: seq<Path>, work: Files, blobs: Blobs): Result<Blobs, CaptureError> {
    if ps == [] then Ok(blobs)
    else
      var next :- PublishOption(blobs, Lookup(work, ps[0]));
      PublishEach(ps[1..], work, next)
  }

  datatype Diff = Diff(changes: seq<PathChange>, blobs: Blobs)

  function DiffEach(s: Snapshot, work: Files, ps: seq<Path>, blobs: Blobs): Result<Diff, CaptureError> {
    if ps == [] then Ok(Diff([], blobs))
    else
      var before :- Original(s, ps[0]);
      var after := Lookup(work, ps[0]);
      var next :- PublishOption(blobs, before);
      if before != after && !ValidRelative(ps[0]) then Err(PathInvalid)
      else
        var rest :- DiffEach(s, work, ps[1..], next);
        Ok(if before == after then rest else rest.(changes := [ChangeOf(ps[0], before, after)] + rest.changes))
  }

  datatype Task = Task(id: Id, attempt: Id, snapshot: Id, head: Id, scope: seq<Path>)

  function Capture(t: Task, manifest: Option<Snapshot>, work: Files, blobs: Blobs, fold: Path -> Path): Result<(ChangeSet, Blobs), CaptureError> {
    if manifest.None? || manifest.value.id != t.snapshot || manifest.value.head != t.head then Err(SnapshotInvalid)
    else
      var s := manifest.value;
      var scanned :- PublishEach(SortedPaths(work.Keys), work, blobs);
      var diff :- DiffEach(s, work, SortedPaths(s.files.Keys + work.Keys), scanned);
      if diff.changes == [] then Err(NoChanges)
      else
        var c := ChangeSet(t.id, t.attempt, t.snapshot, t.head, t.scope, diff.changes);
        var violation := ContractViolation(c, fold);
        if violation.Some? then Err(Contract(violation.value)) else Ok((c, diff.blobs))
  }

  // ----- The difference of two trees -----

  /** The files that the snapshot stands for. */
  function OriginalFiles(s: Snapshot): Files {
    map p | p in s.files && Original(s, p).Ok? && Original(s, p).value.Some? :: Original(s, p).value.value
  }

  /** The differences between two trees, in order. */
  function Difference(from: Files, to: Files, ps: seq<Path>): seq<PathChange> {
    if ps == [] then []
    else
      var rest := Difference(from, to, ps[1..]);
      if Lookup(from, ps[0]) == Lookup(to, ps[0]) then rest
      else [ChangeOf(ps[0], Lookup(from, ps[0]), Lookup(to, ps[0]))] + rest
  }

  lemma {:induction false} DiffIsDifference(s: Snapshot, work: Files, ps: seq<Path>, blobs: Blobs, diff: Diff)
    requires DiffEach(s, work, ps, blobs) == Ok(diff)
    ensures diff.changes == Difference(OriginalFiles(s), work, ps)
    ensures forall c :: c in diff.changes ==> ValidRelative(c.path)
  {
    if ps != [] {
      var next := PublishOption(blobs, Original(s, ps[0]).value).value;
      var rest := DiffEach(s, work, ps[1..], next).value;
      DiffIsDifference(s, work, ps[1..], next, rest);
      assert Original(s, ps[0]).value == Lookup(OriginalFiles(s), ps[0]);
    }
  }

  /** The differing paths, each once and in ascending order. */
  lemma {:induction false} DifferencePaths(from: Files, to: Files, ps: seq<Path>)
    requires Ascending(ps)
    ensures var paths := PathsOf(Difference(from, to, ps));
      Ascending(paths) && forall p :: p in paths <==> p in ps && Lookup(from, p) != Lookup(to, p)
  {
    hide ChangeOf, Lookup;
    if ps != [] {
      DifferencePaths(from, to, ps[1..]);
      var rest := Difference(from, to, ps[1..]);
      if Lookup(from, ps[0]) != Lookup(to, ps[0]) {
        ChangeNamesItsPath(ps[0], Lookup(from, ps[0]), Lookup(to, ps[0]));
        assert PathsOf(Difference(from, to, ps)) == [ps[0]] + PathsOf(rest);
        assert ([ps[0]] + PathsOf(rest))[1..] == PathsOf(rest);
      }
      assert forall p :: p in ps <==> p == ps[0] || p in ps[1..];
    }
  }

  lemma {:induction false} ChangeNamesItsPath(p: Path, before: Option<Bytes>, after: Option<Bytes>)
    ensures ChangeOf(p, before, after).path == p
    ensures before != after ==> ChangeOf(p, before, after).EffectMatches()
  {
  }

  /** Each change has the images and the effect that belong to the two contents. */
  lemma {:induction false} DifferenceChanges(from: Files, to: Files, ps: seq<Path>, c: PathChange)
    requires c in Difference(from, to, ps)
    ensures c.EffectMatches()
    ensures c.before == ImageOf(Lookup(from, c.path)) && c.after == ImageOf(Lookup(to, c.path))
  {
    if ps != [] {
      if c in Difference(from, to, ps[1..]) {
        DifferenceChanges(from, to, ps[1..], c);
      } else {
        ChangeNamesItsPath(ps[0], Lookup(from, ps[0]), Lookup(to, ps[0]));
      }
    }
  }

  lemma {:induction false} DifferenceIsExact(from: Files, to: Files, ps: seq<Path>)
    requires Ascending(ps)
    ensures var changes := Difference(from, to, ps);
      && Ascending(PathsOf(changes))
      && (forall p :: p in PathsOf(changes) <==> p in ps && Lookup(from, p) != Lookup(to, p))
      && (forall c :: c in changes ==>
            c.EffectMatches() && c.before == ImageOf(Lookup(from, c.path)) && c.after == ImageOf(Lookup(to, c.path)))
  {
    hide Lookup, ImageOf, PathsOf, Ascending, Difference;
    var changes := Difference(from, to, ps);
    DifferencePaths(from, to, ps);
    forall c | c in changes
      ensures c.EffectMatches() && c.before == ImageOf(Lookup(from, c.path)) && c.after == ImageOf(Lookup(to, c.path))
    {
      DifferenceChanges(from, to, ps, c);
    }
  }

  // ----- The patch -----

  /** Giving a path the content of an image, or removing it. */
  function Put(files: Files, p: Path, image: Option<Image>): Files {
    if image.None? then files - {p} else files[p := image.value.digest.content]
  }

  function Patch(files: Files, changes: seq<PathChange>): Files
    decreases |changes|
  {
    if changes == [] then files else Patch(Put(files, changes[0].path, changes[0].after), changes[1..])
  }

  function ContentOf(image: Option<Image>): Option<Bytes> {
    if image.None? then None else Some(image.value.digest.content)
  }

  /** A patch leaves every path alone that it does not name. */
  lemma {:induction false} PatchLeaves(files: Files, changes: seq<PathChange>, p: Path)
    requires p !in PathsOf(changes)
    ensures Lookup(Patch(files, changes), p) == Lookup(files, p)
    decreases |changes|
  {
    if changes != [] {
      assert PathsOf(changes) == [changes[0].path] + PathsOf(changes[1..]);
      PatchLeaves(Put(files, changes[0].path, changes[0].after), changes[1..], p);
    }
  }

  lemma {:induction false} DistinctRest(changes: seq<PathChange>)
    requires changes != [] && Distinct(PathsOf(changes))
    ensures Distinct(PathsOf(changes[1..])) && changes[0].path !in PathsOf(changes[1..])
  {
    var paths, rest := PathsOf(changes), PathsOf(changes[1..]);
    forall i | 0 <= i < |rest| ensures rest[i] == paths[i + 1] && rest[i] != paths[0] {
    }
    forall i, j | 0 <= i < j < |rest| ensures rest[i] != rest[j] {
      assert rest[i] == paths[i + 1] && rest[j] == paths[j + 1];
    }
  }

  /** After a patch every path that it names has its after image. */
  lemma {:induction false} PatchReaches(files: Files, changes: seq<PathChange>, i: nat)
    requires Distinct(PathsOf(changes)) && i < |changes|
    ensures Lookup(Patch(files, changes), changes[i].path) == ContentOf(changes[i].after)
    decreases |changes|
  {
    var next := Put(files, changes[0].path, changes[0].after);
    DistinctRest(changes);
    if i == 0 {
      PatchLeaves(next, changes[1..], changes[0].path);
    } else {
      PatchReaches(next, changes[1..], i - 1);
    }
  }

  lemma {:induction false} AscendingDistinct(paths: seq<Path>)
    requires Ascending(paths)
    ensures Distinct(paths)
    decreases |paths|
  {
    if paths != [] {
      AscendingDistinct(paths[1..]);
      forall i, j | 0 <= i < j < |paths| ensures paths[i] != paths[j] {
        if i == 0 {
          assert paths[j] in paths[1..];
          PrecedesIrreflexive(paths[0]);
        } else {
          assert paths[1..][i - 1] == paths[i] && paths[1..][j - 1] == paths[j];
        }
      }
    }
  }

  /** The paths of a scan cover every difference between two trees. */
  ghost predicate Covers(ps: seq<Path>, from: Files, to: Files) {
    Ascending(ps) && forall p :: Lookup(from, p) != Lookup(to, p) ==> p in ps
  }

  /** Diff and patch are inverse: on any tree that agrees with the snapshot where it differs from the
      worktree, the patch gives the worktree's content there and leaves every other path alone. */
  lemma {:induction false} PatchInvertsDifference(from: Files, to: Files, ps: seq<Path>, files: Files, p: Path)
    requires Covers(ps, from, to)
    requires forall q :: Lookup(from, q) != Lookup(to, q) ==> Lookup(files, q) == Lookup(from, q)
    ensures Lookup(Patch(files, Difference(from, to, ps)), p) ==
            if Lookup(from, p) != Lookup(to, p) then Lookup(to, p) else Lookup(files, p)
  {
    var changes := Difference(from, to, ps);
    DifferenceIsExact(from, to, ps);
    AscendingDistinct(PathsOf(changes));
    if p in PathsOf(changes) {
      var i :| 0 <= i < |changes| && PathsOf(changes)[i] == p;
      PatchReaches(files, changes, i);
      assert changes[i] in changes;
    } else {
      PatchLeaves(files, changes, p);
    }
  }

  /** Applied to the snapshot itself, the patch gives exactly the worktree. */
  lemma {:induction false} PatchRebuildsTheWorktree(from: Files, to: Files, ps: seq<Path>)
    requires Covers(ps, from, to)
    ensures Patch(from, Difference(from, to, ps)) == to
  {
    var patched := Patch(from, Difference(from, to, ps));
    forall p ensures Lookup(patched, p) == Lookup(to, p) {
      PatchInvertsDifference(from, to, ps, from, p);
    }
    SameLookups(patched, to);
  }

  lemma {:induction false} SameLookups(a: Files, b: Files)
    requires forall p :: Lookup(a, p) == Lookup(b, p)
    ensures a == b
  {
    forall p ensures p in a <==> p in b {
      assert Lookup(a, p) == Lookup(b, p);
    }
    forall p | p in a ensures a[p] == b[p] {
      assert Lookup(a, p) == Lookup(b, p);
    }
  }

  // ----- What a capture promises -----

  /** Every image of a change can be read back from the store. */
  ghost predicate Readable(c: PathChange, blobs: Blobs) {
    && (c.before.Some? ==> ReadImage(blobs, c.before.value) == Ok(c.before.value.digest.content))
    && (c.after.Some? ==> ReadImage(blobs, c.after.value) == Ok(c.after.value.digest.content))
  }

  /** Publishing keeps what is stored. */
  ghost predicate Keeps(before: Blobs, after: Blobs) {
    forall d {:trigger d in after} {:trigger after[d]} :: d in before ==> d in after && after[d] == before[d]
  }

  ghost predicate Holds(blobs: Blobs, content: Option<Bytes>) {
    content.Some? ==> Sha256(content.value) in blobs && blobs[Sha256(content.value)] == content.value
  }

  lemma {:induction false} PublishHolds(blobs: Blobs, content: Option<Bytes>, after: Blobs)
    requires PublishOption(blobs, content) == Ok(after)
    ensures Keeps(blobs, after) && Holds(after, content)
  {
  }

  lemma {:induction false} ScanHolds(ps: seq<Path>, work: Files, blobs: Blobs, after: Blobs)
    requires PublishEach(ps, work, blobs) == Ok(after)
    ensures Keeps(blobs, after) && forall p :: p in ps ==> Holds(after, Lookup(work, p))
  {
    if ps != [] {
      var next := PublishOption(blobs, Lookup(work, ps[0])).value;
      PublishHolds(blobs, Lookup(work, ps[0]), next);
      ScanHolds(ps[1..], work, next, after);
    }
  }

  lemma {:induction false} DiffHolds(s: Snapshot, work: Files, ps: seq<Path>, blobs: Blobs, diff: Diff)
    requires DiffEach(s, work, ps, blobs) == Ok(diff)
    requires forall p :: p in work ==> Holds(blobs, Lookup(work, p))
    ensures Keeps(blobs, diff.blobs) && forall c :: c in diff.changes ==> Readable(c, diff.blobs)
  {
    if ps != [] {
      var before := Original(s, ps[0]).value;
      var next := PublishOption(blobs, before).value;
      var rest := DiffEach(s, work, ps[1..], next).value;
      PublishHolds(blobs, before, next);
      forall p | p in work ensures Holds(next, Lookup(work, p)) {
        assert Holds(blobs, Lookup(work, p));
      }
      DiffHolds(s, work, ps[1..], next, rest);
      ChangeReadable(ps[0], before, Lookup(work, ps[0]), next, rest.blobs);
    }
  }

  lemma {:induction false} ChangeReadable(p: Path, before: Option<Bytes>, after: Option<Bytes>, blobs: Blobs, later: Blobs)
    requires Holds(blobs, before) && Holds(blobs, after) && Keeps(blobs, later)
    ensures Readable(ChangeOf(p, before, after), later)
  {
  }

  /** A capture that succeeds went over all paths and found their differences. */
  lemma {:induction false} CaptureAnatomy(t: Task, s: Snapshot, work: Files, blobs: Blobs, fold: Path -> Path, c: ChangeSet, after: Blobs)
    returns (ps: seq<Path>)
    requires Capture(t, Some(s), work, blobs, fold) == Ok((c, after))
    ensures Covers(ps, OriginalFiles(s), work) && c.paths == Difference(OriginalFiles(s), work, ps)
    ensures forall change :: change in c.paths ==> ValidRelative(change.path) && Readable(change, after)
    ensures ContractViolation(c, fold).None?
  {
    hide ContractViolation, DiffEach, PublishEach, Difference, Readable, Holds, ValidRelative;
    ps := SortedPaths(s.files.Keys + work.Keys);
    var scanned := PublishEach(SortedPaths(work.Keys), work, blobs).value;
    var diff := DiffEach(s, work, ps, scanned).value;
    ScanHolds(SortedPaths(work.Keys), work, blobs, scanned);
    DiffHolds(s, work, ps, scanned, diff);
    DiffIsDifference(s, work, ps, scanned, diff);
  }

  /** The record and the content of a path agree. */
  predicate Attested(s: Snapshot, p: Path) {
    && p in s.files && s.files[p].FileEntry? && p in s.contents
    && s.files[p].digest == Some(Sha256(s.contents[p])) && s.files[p].size == |s.contents[p]|
  }

  /** The snapshot's files are the contents that their records attest; a path without such a record is
      absent, or else spoils the snapshot. */
  lemma {:induction false} SnapshotFiles(s: Snapshot, p: Path)
    ensures p in OriginalFiles(s) <==> Attested(s, p)
    ensures Attested(s, p) ==> OriginalFiles(s)[p] == s.contents[p]
    ensures Original(s, p).Err? <==> p in s.files && (s.files[p].NotARecord? || (s.files[p].FileEntry? && !Attested(s, p)))
  {
  }

  /** A captured changeset lists exactly the differing paths, once each and in order, inside the
      declared scope, with readable images; and its patch takes the snapshot to the worktree. */
  lemma {:induction false} CaptureIsTheDifference(t: Task, s: Snapshot, work: Files, blobs: Blobs, fold: Path -> Path, c: ChangeSet, after: Blobs)
    requires Capture(t, Some(s), work, blobs, fold) == Ok((c, after))
    ensures Ascending(PathsOf(c.paths))
    ensures forall p :: p in PathsOf(c.paths) <==> Lookup(OriginalFiles(s), p) != Lookup(work, p)
    ensures forall change :: change in c.paths ==>
      && change.EffectMatches() && ValidRelative(change.path) && Readable(change, after)
      && change.before == ImageOf(Lookup(OriginalFiles(s), change.path)) && change.after == ImageOf(Lookup(work, change.path))
    ensures Patch(OriginalFiles(s), c.paths) == work
    ensures ContractViolation(c, fold).None?
  {
    hide Capture, ContractViolation, Difference, OriginalFiles, Readable, ValidRelative, PathsOf, ImageOf, Lookup;
    var ps := CaptureAnatomy(t, s, work, blobs, fold, c, after);
    DifferenceIsExact(OriginalFiles(s), work, ps);
    PatchRebuildsTheWorktree(OriginalFiles(s), work, ps);
  }

  /** On any other tree that agrees with the snapshot on the captured paths, the patch changes just
      those. */
  lemma {:induction false} CaptureAppliesElsewhere(t: Task, s: Snapshot, work: Files, blobs: Blobs, fold: Path -> Path, c: ChangeSet, after: Blobs,
                                files: Files, p: Path)
    requires Capture(t, Some(s), work, blobs, fold) == Ok((c, after))
    requires forall q :: q in PathsOf(c.paths) ==> Lookup(files, q) == Lookup(OriginalFiles(s), q)
    ensures Lookup(Patch(files, c.paths), p) == if p in PathsOf(c.paths) then Lookup(work, p) else Lookup(files, p)
  {
    hide Capture, ContractViolation, Difference, OriginalFiles, Readable, ValidRelative, PathsOf, ImageOf, Lookup, Patch;
    var ps := CaptureAnatomy(t, s, work, blobs, fold, c, after);
    DifferenceIsExact(OriginalFiles(s), work, ps);
    PatchInvertsDifference(OriginalFiles(s), work, ps, files, p);
  }

  // ----- When a capture succeeds -----

  /** A store whose artifacts are all complete. */
  ghost predicate Sound(blobs: Blobs) {
    forall d {:trigger blobs[d]} :: d in blobs ==> d == Sha256(blobs[d])
  }

  lemma {:induction false} SoundScan(ps: seq<Path>, work: Files, blobs: Blobs)
    requires Sound(blobs)
    ensures PublishEach(ps, work, blobs).Ok? && Sound(PublishEach(ps, work, blobs).value)
  {
    if ps != [] {
      SoundScan(ps[1..], work, PublishOption(blobs, Lookup(work, ps[0])).value);
    }
  }

  ghost predicate Comparable(s: Snapshot, work: Files, p: Path) {
    Original(s, p).Ok? && (Original(s, p).value != Lookup(work, p) ==> ValidRelative(p))
  }

  lemma {:induction false} SoundDiff(s: Snapshot, work: Files, ps: seq<Path>, blobs: Blobs)
    requires Sound(blobs)
    ensures DiffEach(s, work, ps, blobs).Ok? <==> forall p :: p in ps ==> Comparable(s, work, p)
  {
    hide ValidRelative, ChangeOf;
    if ps != [] {
      assert forall p :: p in ps <==> p == ps[0] || p in ps[1..];
      if Comparable(s, work, ps[0]) {
        var next := PublishOption(blobs, Original(s, ps[0]).value).value;
        SoundDiff(s, work, ps[1..], next);
        assert (forall p :: p in ps ==> Comparable(s, work, p)) <==> (forall p :: p in ps[1..] ==> Comparable(s, work, p));
      } else {
        assert ps[0] in ps;
      }
    }
  }

  /** Over complete artifacts, a capture succeeds exactly when the manifest is the expected one with
      consistent evidence, something differs, and the differences meet the contract of a changeset. */
  lemma {:induction false} CaptureSucceeds(t: Task, s: Snapshot, work: Files, blobs: Blobs, fold: Path -> Path)
    requires Sound(blobs)
    ensures var ps := SortedPaths(s.files.Keys + work.Keys);
      var changes := Difference(OriginalFiles(s), work, ps);
      Capture(t, Some(s), work, blobs, fold).Ok? <==>
      && s.id == t.snapshot && s.head == t.head
      && (forall p :: p in ps ==> Comparable(s, work, p))
      && changes != []
      && ContractViolation(ChangeSet(t.id, t.attempt, t.snapshot, t.head, t.scope, changes), fold).None?
  {
    hide ContractViolation, Comparable, DiffEach, Difference, PublishEach, Sound;
    var ps := SortedPaths(s.files.Keys + work.Keys);
    SoundScan(SortedPaths(work.Keys), work, blobs);
    var scanned := PublishEach(SortedPaths(work.Keys), work, blobs).value;
    SoundDiff(s, work, ps, scanned);
    if DiffEach(s, work, ps, scanned).Ok? {
      DiffIsDifference(s, work, ps, scanned, DiffEach(s, work, ps, scanned).value);
    }
  }

  // ----- The service -----

  /** The changes found so far, in front of what the rest of the paths comes to. */
  ghost function Onto(changes: seq<PathChange>, rest: Result<Diff, CaptureError>): Result<Diff, CaptureError> {
    if rest.Err? then rest else Ok(rest.value.(changes := changes + rest.value.changes))
  }

  lemma {:induction false} OntoNothing(rest: Result<Diff, CaptureError>)
    ensures Onto([], rest) == rest
  {
    if rest.Ok? {
      assert [] + rest.value.changes == rest.value.changes;
    }
  }

  lemma {:induction false} OntoOnto(changes: seq<PathChange>, more: seq<PathChange>, rest: Result<Diff, CaptureError>)
    ensures Onto(changes, Onto(more, rest)) == Onto(changes + more, rest)
  {
    if rest.Ok? {
      assert changes + (more + rest.value.changes) == (changes + more) + rest.value.changes;
    }
  }

  lemma {:induction false} DiffStep(s: Snapshot, work: Files, ps: seq<Path>, i: nat, blobs: Blobs)
    requires i < |ps|
    ensures var p, rest := ps[i], DiffEach(s, work, ps[i..], blobs);
      var before, after := Original(s, p), Lookup(work, p);
      if before.Err? then rest == Err(before.error)
      else if PublishOption(blobs, before.value).Err? then rest == Err(PublishOption(blobs, before.value).error)
      else if before.value != after && !ValidRelative(p) then rest == Err(PathInvalid)
      else rest == Onto(if before.value == after then [] else [ChangeOf(p, before.value, after)],
                        DiffEach(s, work, ps[i + 1..], PublishOption(blobs, before.value).value))
  {
    hide Original, Lookup, PublishOption, ChangeOf, ValidRelative;
    assert ps[i..][0] == ps[i] && ps[i..][1..] == ps[i + 1..];
    OntoNothing(DiffEach(s, work, ps[i + 1..], if Original(s, ps[i]).Ok? && PublishOption(blobs, Original(s, ps[i]).value).Ok? then PublishOption(blobs, Original(s, ps[i]).value).value else blobs));
  }

  method PublishFile(artifacts: ImmutableArtifactStore, content: Option<Bytes>) returns (r: Result<Option<Image>, CaptureError>)
    modifies artifacts
    ensures match PublishOption(old(artifacts.blobs), content)
            case Ok(after) => artifacts.blobs == after && r == Ok(ImageOf(content))
            case Err(e) => r == Err(e)
    ensures Keeps(old(artifacts.blobs), artifacts.blobs)
  {
    if content.None? {
      return Ok(None);
    }
    var digest := artifacts.Publish(content.value);
    if digest.Err? {
      return Err(Corrupt);
    }
    r := Ok(Some(Image(digest.value, |content.value|, Some(digest.value))));
  }

  /** The scan of the worktree, which publishes every file it reads. */
  method Scan(artifacts: ImmutableArtifactStore, work: Files) returns (r: Result<(), CaptureError>)
    modifies artifacts
    ensures match PublishEach(SortedPaths(work.Keys), work, old(artifacts.blobs))
            case Ok(after) => artifacts.blobs == after && r == Ok(())
            case Err(e) => r == Err(e)
    ensures Keeps(old(artifacts.blobs), artifacts.blobs)
  {
    hide PublishOption;
    var ps := SortedPaths(work.Keys);
    assert ps[0..] == ps;
    for i := 0 to |ps|
      invariant PublishEach(ps, work, old(artifacts.blobs)) == PublishEach(ps[i..], work, artifacts.blobs)
      invariant Keeps(old(artifacts.blobs), artifacts.blobs)
    {
      assert ps[i..][0] == ps[i] && ps[i..][1..] == ps[i + 1..];
      var image := PublishFile(artifacts, Lookup(work, ps[i]));
      if image.Err? {
        return Err(image.error);
      }
    }
    r := Ok(());
  }

  method Compare(artifacts: ImmutableArtifactStore, s: Snapshot, work: Files, ps: seq<Path>) returns (r: Result<seq<PathChange>, CaptureError>)
    modifies artifacts
    ensures match DiffEach(s, work, ps, old(artifacts.blobs))
            case Ok(diff) => artifacts.blobs == diff.blobs && r == Ok(diff.changes)
            case Err(e) => r == Err(e)
    ensures Keeps(old(artifacts.blobs), artifacts.blobs)
  {
    hide PublishOption, DiffEach, Original, ValidRelative;
    var changes: seq<PathChange> := [];
    assert ps[0..] == ps;
    OntoNothing(DiffEach(s, work, ps, artifacts.blobs));
    for i := 0 to |ps|
      invariant DiffEach(s, work, ps, old(artifacts.blobs)) == Onto(changes, DiffEach(s, work, ps[i..], artifacts.blobs))
      invariant Keeps(old(artifacts.blobs), artifacts.blobs)
    {
      var p := ps[i];
      DiffStep(s, work, ps, i, artifacts.blobs);
      var original := Original(s, p);
      if original.Err? {
        return Err(original.error);
      }
      var before := PublishFile(artifacts, original.value);
      if before.Err? {
        return Err(before.error);
      }
      var current := Lookup(work, p);
      if original.value != current {
        if !ValidRelative(p) {
          return Err(PathInvalid);
        }
        var effect := if original.value.None? then Added else if current.None? then Deleted else Modified;
        var change := PathChange(p, effect, before.value, ImageOf(current));
        OntoOnto(changes, [change], DiffEach(s, work, ps[i + 1..], artifacts.blobs));
        changes := changes + [change];
      } else {
        OntoNothing(DiffEach(s, work, ps[i + 1..], artifacts.blobs));
      }
    }
    DiffEnd(s, work, ps[|ps|..], artifacts.blobs, changes);
    r := Ok(changes);
  }

  lemma {:induction false} DiffEnd(s: Snapshot, work: Files, ps: seq<Path>, blobs: Blobs, changes: seq<PathChange>)
    requires ps == []
    ensures Onto(changes, DiffEach(s, work, ps, blobs)) == Ok(Diff(changes, blobs))
  {
    assert changes + [] == changes;
  }

  method CaptureChangeset(artifacts: ImmutableArtifactStore, t: Task, manifest: Option<Snapshot>, work: Files, fold: Path -> Path)
    returns (r: Result<ChangeSet, CaptureError>)
    modifies artifacts
    ensures match Capture(t, manifest, work, old(artifacts.blobs), fold)
            case Ok((c, after)) => artifacts.blobs == after && r == Ok(c)
            case Err(e) => r == Err(e)
    ensures Keeps(old(artifacts.blobs), artifacts.blobs)
  {
    hide DiffEach, PublishEach, ContractViolation;
    if manifest.None? || manifest.value.id != t.snapshot || manifest.value.head != t.head {
      return Err(SnapshotInvalid);
    }
    var s := manifest.value;
    var scanned := Scan(artifacts, work);
    if scanned.Err? {
      return Err(scanned.error);
    }
    var changes := Compare(artifacts, s, work, SortedPaths(s.files.Keys + work.Keys));
    if changes.Err? {
      return Err(changes.error);
    }
    if changes.value == [] {
      return Err(NoChanges);
    }
    var c := ChangeSet(t.id, t.attempt, t.snapshot, t.head, t.scope, changes.value);
    var violation := ContractViolation(c, fold);
    r := if violation.Some? then Err(Contract(violation.value)) else Ok(c);
  }
}
