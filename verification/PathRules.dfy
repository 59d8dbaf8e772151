/** What a path, a scope and a changeset must be, in the parts of their names (domain/changesets.py). */
module PathRules {
  import opened Prelude
  import opened Paths
  import opened ChangeSets

  // ----- The parts of a name -----

  function Join(parts: seq<string>): string
    requires parts != []
  {
    if |parts| == 1 then parts[0] else parts[0] + "/" + Join(parts[1..])
  }

  /** Splitting takes a name apart at its slashes and nowhere else. */
  lemma {:induction false} SplitJoins(value: string)
    ensures Join(Split(value)) == value && forall part :: part in Split(value) ==> '/' !in part
  {
    if value != "" {
      SplitJoins(value[1..]);
      var rest := Split(value[1..]);
      assert value == [value[0]] + value[1..];
      if value[0] == '/' {
        assert ([""] + rest)[1..] == rest;
        assert Join([""] + rest) == "" + "/" + Join(rest);
      } else {
        HeadJoins(value[0], rest);
      }
    }
  }

  lemma {:induction false} HeadJoins(c: char, rest: seq<string>)
    requires rest != []
    ensures Join([[c] + rest[0]] + rest[1..]) == [c] + Join(rest)
  {
    var parts := [[c] + rest[0]] + rest[1..];
    assert parts[1..] == rest[1..];
    if |rest| > 1 {
      assert [c] + rest[0] + "/" + Join(rest[1..]) == [c] + (rest[0] + "/" + Join(rest[1..]));
    }
  }

  lemma {:induction false} SplitAppends(a: string, b: string)
    ensures Split(a + "/" + b) == Split(a) + Split(b)
    decreases |a|
  {
    if a == "" {
      assert "" + "/" + b == "/" + b && ("/" + b)[1..] == b;
    } else {
      SplitAppends(a[1..], b);
      TailAppends(a, b);
      HeadAppends(a[0], Split(a[1..]), Split(b));
    }
  }

  lemma {:induction false} TailAppends(a: string, b: string)
    requires a != ""
    ensures (a + "/" + b)[0] == a[0] && (a + "/" + b)[1..] == a[1..] + "/" + b
  {
  }

  lemma {:induction false} HeadAppends(c: char, first: seq<string>, rest: seq<string>)
    requires first != []
    ensures [""] + (first + rest) == [""] + first + rest
    ensures [[c] + (first + rest)[0]] + (first + rest)[1..] == [[c] + first[0]] + first[1..] + rest
  {
  }

  lemma {:induction false} JoinAppends(a: seq<string>, b: seq<string>)
    requires a != [] && b != []
    ensures Join(a + b) == Join(a) + "/" + Join(b)
    decreases |a|
  {
    assert (a + b)[0] == a[0];
    if |a| == 1 {
      assert (a + b)[1..] == b;
    } else {
      JoinAppends(a[1..], b);
      assert (a + b)[1..] == a[1..] + b;
      assert a[0] + "/" + (Join(a[1..]) + "/" + Join(b)) == a[0] + "/" + Join(a[1..]) + "/" + Join(b);
    }
  }

  lemma {:induction false} InsideBegins(path: Path, scope: Path)
    requires scope + "/" <= path
    ensures Split(scope) <= Split(path)
  {
    hide Split;
    var rest := path[|scope| + 1..];
    assert path == scope + "/" + rest;
    SplitAppends(scope, rest);
  }

  lemma {:induction false} BeginningIsInside(path: Path, scope: Path)
    requires Split(scope) <= Split(path)
    ensures path == scope || scope + "/" <= path
  {
    hide Split, Join;
    SplitJoins(path);
    SplitJoins(scope);
    var rest := Split(path)[|Split(scope)|..];
    assert Split(path) == Split(scope) + rest;
    if rest == [] {
      assert Split(path) == Split(scope);
    } else {
      JoinAppends(Split(scope), rest);
      assert path == scope + "/" + Join(rest);
    }
  }

  /** A path is in a scope exactly when the parts of the scope are the first parts of the path. */
  lemma {:induction false} InScopeExactly(path: Path, scope: Path)
    ensures InScope(path, scope) <==> Split(scope) <= Split(path)
  {
    hide Split;
    if scope + "/" <= path {
      InsideBegins(path, scope);
    }
    if Split(scope) <= Split(path) {
      BeginningIsInside(path, scope);
    }
  }

  // ----- What a changeset may name -----

  /** Parts that stay below the directory they are resolved in. */
  predicate Below(part: string) {
    part != "" && part != "." && part != ".." && ':' !in part && '\\' !in part
  }

  lemma {:induction false} ValidExactly(value: string)
    ensures ValidRelative(value) <==> forall part :: part in Split(value) ==> Below(part)
  {
    SplitJoins(value);
    forall c | c == '\\' ensures c in value <==> exists part :: part in Split(value) && c in part {
      PartsHold(value, c);
    }
    if "/" <= value {
      StartsEmpty(value);
    }
  }

  lemma {:induction false} StartsEmpty(value: string)
    requires "/" <= value
    ensures "" in Split(value)
  {
    assert value[0] == '/' && Split(value)[0] == "";
  }

  lemma {:induction false} PartsHold(value: string, c: char)
    requires c != '/'
    ensures c in value <==> exists part :: part in Split(value) && c in part
  {
    if value != "" {
      PartsHold(value[1..], c);
      var parts, rest := Split(value), Split(value[1..]);
      assert c in value <==> value[0] == c || c in value[1..];
      if value[0] == '/' {
        assert parts[1..] == rest && forall part :: part in parts <==> part == "" || part in rest;
      } else {
        assert forall part :: part in parts <==> part == [value[0]] + rest[0] || part in rest[1..];
        assert forall part :: part in rest <==> part == rest[0] || part in rest[1..];
        assert c in [value[0]] + rest[0] <==> c == value[0] || c in rest[0];
        if c == value[0] {
          assert parts[0] in parts && c in parts[0];
        }
        if part :| part in rest && c in part {
          assert (if part == rest[0] then parts[0] else part) in parts;
        }
      }
    }
  }

  ghost predicate NamedOnce(changes: seq<PathChange>, fold: Path -> Path) {
    forall i, j :: 0 <= i < j < |changes| ==> fold(changes[i].path) != fold(changes[j].path)
  }

  ghost predicate ScopesBelow(scope: seq<Path>) {
    forall s, part :: s in scope && part in Split(s) ==> Below(part)
  }

  /** Each path begins with the parts of a scope. */
  ghost predicate AllInside(changes: seq<PathChange>, scope: seq<Path>) {
    forall i :: 0 <= i < |changes| ==> BeginsWithOne(changes[i].path, scope)
  }

  ghost predicate BeginsWithOne(p: Path, scope: seq<Path>) {
    exists s :: s in scope && Split(s) <= Split(p)
  }

  /** A changeset meets its contract exactly when it names some paths and some scopes, no two paths fold to
      the same name, each scope stays below, and each path is inside one. */
  lemma {:induction false} ContractExactly(c: ChangeSet, fold: Path -> Path)
    ensures ContractViolation(c, fold).None? <==>
      c.scope != [] && c.paths != [] && NamedOnce(c.paths, fold) && ScopesBelow(c.scope) && AllInside(c.paths, c.scope)
  {
    hide ValidRelative, InScope, Folded, PathsOf, NamedOnce, ScopesBelow, AllInside;
    FoldedExactly(c.paths, fold);
    ScopesExactly(c.scope);
    InsideExactly(c.paths, c.scope);
  }

  lemma {:induction false} ScopesExactly(scope: seq<Path>)
    ensures (exists s :: s in scope && !ValidRelative(s)) <==> !ScopesBelow(scope)
  {
    hide ValidRelative, Below, Split;
    forall s ensures ValidRelative(s) <==> forall part :: part in Split(s) ==> Below(part) {
      ValidExactly(s);
    }
  }

  lemma {:induction false} InsideExactly(changes: seq<PathChange>, scope: seq<Path>)
    ensures (exists p :: p in PathsOf(changes) && forall s :: s in scope ==> !InScope(p, s)) <==> !AllInside(changes, scope)
  {
    hide InScope, BeginsWithOne;
    forall p ensures (forall s :: s in scope ==> !InScope(p, s)) <==> !BeginsWithOne(p, scope) {
      InSome(p, scope);
    }
    if !AllInside(changes, scope) {
      var i :| 0 <= i < |changes| && !BeginsWithOne(changes[i].path, scope);
      assert PathsOf(changes)[i] == changes[i].path;
      assert changes[i].path in PathsOf(changes);
    }
    if p :| p in PathsOf(changes) && forall s :: s in scope ==> !InScope(p, s) {
      var i :| 0 <= i < |PathsOf(changes)| && PathsOf(changes)[i] == p;
      assert !BeginsWithOne(changes[i].path, scope);
    }
  }

  lemma {:induction false} InSome(p: Path, scope: seq<Path>)
    ensures (forall s :: s in scope ==> !InScope(p, s)) <==> !BeginsWithOne(p, scope)
  {
    hide InScope, Split;
    forall s ensures InScope(p, s) <==> Split(s) <= Split(p) {
      InScopeExactly(p, s);
    }
  }

  lemma {:induction false} FoldedExactly(changes: seq<PathChange>, fold: Path -> Path)
    ensures |Folded(changes, fold)| == |changes| <==> NamedOnce(changes, fold)
  {
    FoldedDistinct(changes, fold);
    if NamedOnce(changes, fold) {
      DistinctFolded(changes, fold);
    }
  }

  lemma {:induction false} DistinctFolded(changes: seq<PathChange>, fold: Path -> Path)
    requires NamedOnce(changes, fold)
    ensures |Folded(changes, fold)| == |changes|
  {
    if changes != [] {
      var last, rest := changes[|changes| - 1], changes[..|changes| - 1];
      DistinctFolded(rest, fold);
      FoldedSplits(changes, fold);
      forall p | p in PathsOf(rest) ensures fold(p) != fold(last.path) {
        var i :| 0 <= i < |rest| && PathsOf(rest)[i] == p;
        assert changes[i].path == p;
      }
    }
  }
}
