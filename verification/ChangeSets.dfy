/** Changesets, their content images, and the artifact store that holds the contents
    (domain/changesets.py, and ImmutableArtifactStore in runtime/workspace_capture.py). */
module ChangeSets {
  import opened Prelude
  import opened Paths

  type Bytes = seq<bv8>

  /** A SHA-256 digest. The constructor is injective: no two contents share a digest. */
  datatype Digest = Sha256(content: Bytes)

  datatype Image = Image(digest: Digest, size: nat, artifact: Option<Digest>)

  datatype Effect = Added | Modified | Deleted

  datatype PathChange = PathChange(path: Path, effect: Effect, before: Option<Image>, after: Option<Image>) {
    predicate EffectMatches() {
      match effect
      case Added => before.None? && after.Some?
      case Modified => before.Some? && after.Some?
      case Deleted => before.Some? && after.None?
    }
  }

  datatype ChangeSet = ChangeSet(
    task: Id, attempt: Id, snapshot: Id, head: Id, scope: seq<Path>, paths: seq<PathChange>)

  datatype ContractError = NoScope | NoPaths | PathCollision | ScopeInvalid | OutsideScope

  function PathsOf(changes: seq<PathChange>): (paths: seq<Path>)
    ensures |paths| == |changes| && forall i :: 0 <= i < |changes| ==> paths[i] == changes[i].path
  {
    seq(|changes|, i requires 0 <= i < |changes| => changes[i].path)
  }

  /** The paths as a case-insensitive file system would see them; `fold` is that folding. */
  function Folded(changes: seq<PathChange>, fold: Path -> Path): set<Path> {
    set p | p in PathsOf(changes) :: fold(p)
  }

  function ContractViolation(c: ChangeSet, fold: Path -> Path): Option<ContractError> {
    if c.scope == [] then Some(NoScope)
    else if c.paths == [] then Some(NoPaths)
    else if |Folded(c.paths, fold)| != |c.paths| then Some(PathCollision)
    else if exists s :: s in c.scope && !ValidRelative(s) then Some(ScopeInvalid)
    else if exists p :: p in PathsOf(c.paths) && forall s :: s in c.scope ==> !InScope(p, s) then Some(OutsideScope)
    else None
  }

  /** A changeset that meets its contract names each file once, whatever the case of its name. */
  lemma {:induction false} FoldedDistinct(changes: seq<PathChange>, fold: Path -> Path)
    ensures |Folded(changes, fold)| <= |changes|
    ensures |Folded(changes, fold)| == |changes| ==>
      forall i, j :: 0 <= i < j < |changes| ==> fold(changes[i].path) != fold(changes[j].path)
  {
    if changes != [] {
      var last := changes[|changes| - 1];
      var rest := changes[..|changes| - 1];
      FoldedDistinct(rest, fold);
      FoldedSplits(changes, fold);
      if |Folded(changes, fold)| == |changes| {
        assert |Folded(rest, fold)| == |rest|;
        assert fold(last.path) !in Folded(rest, fold);
        forall i, j | 0 <= i < j < |changes| ensures fold(changes[i].path) != fold(changes[j].path) {
          if j == |changes| - 1 {
            assert PathsOf(rest)[i] == changes[i].path;
          } else {
            assert rest[i] == changes[i] && rest[j] == changes[j];
          }
        }
      }
    }
  }

  lemma {:induction false} FoldedSplits(changes: seq<PathChange>, fold: Path -> Path)
    requires changes != []
    ensures Folded(changes, fold) == Folded(changes[..|changes| - 1], fold) + {fold(changes[|changes| - 1].path)}
  {
    var rest := changes[..|changes| - 1];
    forall p | p in Folded(changes, fold) ensures p in Folded(rest, fold) + {fold(changes[|changes| - 1].path)} {
      var i :| 0 <= i < |changes| && fold(PathsOf(changes)[i]) == p;
      if i < |rest| {
        assert PathsOf(rest)[i] == PathsOf(changes)[i];
      }
    }
    forall p | p in Folded(rest, fold) ensures p in Folded(changes, fold) {
      var i :| 0 <= i < |rest| && fold(PathsOf(rest)[i]) == p;
      assert PathsOf(changes)[i] == PathsOf(rest)[i];
    }
    assert PathsOf(changes)[|changes| - 1] in PathsOf(changes);
  }

  // ----- The artifact store -----

  type Blobs = map<Digest, Bytes>

  datatype ArtifactError = ArtifactCorrupt

  predicate Conflicts(blobs: Blobs, content: Bytes) {
    Sha256(content) in blobs && blobs[Sha256(content)] != content
  }

  function Published(blobs: Blobs, content: Bytes): Blobs {
    blobs[Sha256(content) := content]
  }

  function ReadImage(blobs: Blobs, image: Image): Result<Bytes, ArtifactError> {
    if image.artifact != Some(image.digest) || image.digest !in blobs then Err(ArtifactCorrupt)
    else
      var content := blobs[image.digest];
      if |content| != image.size || Sha256(content) != image.digest then Err(ArtifactCorrupt) else Ok(content)
  }

  class ImmutableArtifactStore {
    var blobs: Blobs

    constructor ()
      ensures blobs == map[]
    {
      blobs := map[];
    }

    /** Never overwrites: what is already stored under the digest must be the content itself. */
    method Publish(content: Bytes) returns (r: Result<Digest, ArtifactError>)
      modifies this
      ensures r == if Conflicts(old(blobs), content) then Err(ArtifactCorrupt) else Ok(Sha256(content))
      ensures blobs == if r.Ok? then Published(old(blobs), content) else old(blobs)
      ensures forall d :: d in old(blobs) ==> d in blobs && blobs[d] == old(blobs)[d]
    {
      var digest := Sha256(content);
      if digest in blobs {
        if blobs[digest] != content {
          return Err(ArtifactCorrupt);
        }
      } else {
        blobs := blobs[digest := content];
      }
      r := Ok(digest);
    }

    method Read(image: Image) returns (r: Result<Bytes, ArtifactError>)
      ensures r == ReadImage(blobs, image)
      ensures r.Ok? ==> Sha256(r.value) == image.digest
    {
      if image.artifact != Some(image.digest) || image.digest !in blobs {
        return Err(ArtifactCorrupt);
      }
      var content := blobs[image.digest];
      if |content| != image.size || Sha256(content) != image.digest {
        return Err(ArtifactCorrupt);
      }
      r := Ok(content);
    }
  }
}
