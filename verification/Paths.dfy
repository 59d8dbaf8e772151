/** Relative paths as a changeset names them (domain/changesets.py). */
module Paths {
  type Path = string

  /** Comparison of strings by code point. */
  predicate Precedes(a: Path, b: Path) {
    b != "" && (a == "" || a[0] < b[0] || (a[0] == b[0] && Precedes(a[1..], b[1..])))
  }

  lemma {:induction false} PrecedesTotal(a: Path, b: Path)
    requires a != b
    ensures Precedes(a, b) != Precedes(b, a)
  {
    if a != "" && b != "" && a[0] == b[0] {
      assert a == [a[0]] + a[1..] && b == [b[0]] + b[1..];
      PrecedesTotal(a[1..], b[1..]);
    }
  }

  lemma {:induction false} PrecedesTransitive(a: Path, b: Path, c: Path)
    requires Precedes(a, b) && Precedes(b, c)
    ensures Precedes(a, c)
  {
    if a != "" && a[0] == b[0] && b[0] == c[0] {
      PrecedesTransitive(a[1..], b[1..], c[1..]);
    }
  }

  lemma {:induction false} PrecedesIrreflexive(a: Path)
    ensures !Precedes(a, a)
  {
    if a != "" {
      PrecedesIrreflexive(a[1..]);
    }
  }

  predicate IsFirst(p: Path, paths: set<Path>) {
    p in paths && forall q :: q in paths && q != p ==> Precedes(p, q)
  }

  lemma {:induction false} FirstOf(paths: set<Path>) returns (p: Path)
    requires paths != {}
    ensures IsFirst(p, paths)
  {
    p :| p in paths;
    if paths != {p} {
      var m := FirstOf(paths - {p});
      PrecedesTotal(p, m);
      forall q | q in paths && q != p && q != m ensures Precedes(m, q) && (Precedes(p, m) ==> Precedes(p, q)) {
        assert q in paths - {p};
        if Precedes(p, m) {
          PrecedesTransitive(p, m, q);
        }
      }
      p := if Precedes(p, m) then p else m;
    }
  }

  lemma {:induction false} FirstExists(paths: set<Path>)
    requires paths != {}
    ensures exists p :: IsFirst(p, paths)
  {
    var _ := FirstOf(paths);
  }

  lemma {:induction false} FirstUnique(p: Path, q: Path, paths: set<Path>)
    requires IsFirst(p, paths) && IsFirst(q, paths)
    ensures p == q
  {
    if p != q {
      PrecedesTotal(p, q);
    }
  }

  function First(paths: set<Path>): (p: Path)
    requires paths != {}
    ensures IsFirst(p, paths)
  {
    FirstExists(paths);
    assert forall p, q :: IsFirst(p, paths) && IsFirst(q, paths) ==> p == q by {
      forall p, q | IsFirst(p, paths) && IsFirst(q, paths) ensures p == q {
        FirstUnique(p, q, paths);
      }
    }
    var p :| IsFirst(p, paths);
    p
  }

  predicate Ascending(paths: seq<Path>)
    decreases |paths|
  {
    paths != [] ==> (forall q :: q in paths[1..] ==> Precedes(paths[0], q)) && Ascending(paths[1..])
  }

  /** `sorted(paths)`. */
  function SortedPaths(paths: set<Path>): (r: seq<Path>)
    ensures forall p :: p in r <==> p in paths
    ensures Ascending(r)
    decreases paths
  {
    if paths == {} then [] else
      var p := First(paths);
      [p] + SortedPaths(paths - {p})
  }

  // ----- Well-formed relative paths -----

  /** `value.split("/")`. */
  function Split(value: string): (parts: seq<string>)
    ensures parts != []
  {
    if value == "" then [""]
    else
      var rest := Split(value[1..]);
      if value[0] == '/' then [""] + rest else [[value[0]] + rest[0]] + rest[1..]
  }

  predicate ValidRelative(value: string) {
    && !("/" <= value) && '\\' !in value
    && forall part :: part in Split(value) ==> part != "" && part != "." && part != ".." && ':' !in part
  }

  predicate InScope(path: Path, scope: Path) {
    path == scope || scope + "/" <= path
  }
}
