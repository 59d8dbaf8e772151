/** Depth-first cycle detection over a dependency graph, as the task registry and the plan
    validator both write it: a recursive `visit` that updates two sets in place. */
module Graphs {
  import opened Prelude

  /** What each node depends on. */
  type Graph = map<Id, seq<Id>>

  ghost predicate Closed(g: Graph) {
    forall n, d :: n in g && d in g[n] ==> d in g
  }

  ghost predicate Edge(g: Graph, from: Id, to: Id) {
    from in g && to in g[from]
  }

  ghost predicate Walk(g: Graph, p: seq<Id>) {
    |p| >= 2 ==> Edge(g, p[0], p[1]) && Walk(g, p[1..])
  }

  /** A walk of at least one edge that ends where it starts. */
  ghost predicate Cycle(g: Graph, p: seq<Id>) {
    |p| >= 2 && p[0] == p[|p| - 1] && Walk(g, p)
  }

  ghost predicate HasCycle(g: Graph) {
    exists p :: Cycle(g, p)
  }

  /** Every node of `order` depends only on nodes that come before it. */
  ghost predicate Topological(g: Graph, order: seq<Id>) {
    order != [] ==>
      var last := order[|order| - 1];
      && last in g
      && Elements(g[last]) <= Elements(order[..|order| - 1])
      && Topological(g, order[..|order| - 1])
  }

  ghost function Elements(s: seq<Id>): set<Id> {
    set n | n in s
  }

  lemma {:induction false} ElementsTake(s: seq<Id>, i: nat)
    requires i < |s|
    ensures Elements(s[..i + 1]) == Elements(s[..i]) + {s[i]}
  {
    assert s[..i + 1] == s[..i] + [s[i]];
  }

  /** A walk that starts inside a topological order stays inside it. */
  lemma {:induction false} WalkStays(g: Graph, order: seq<Id>, p: seq<Id>)
    requires Topological(g, order) && Walk(g, p) && |p| >= 1 && p[0] in order
    ensures p[|p| - 1] in order
    decreases |p|
  {
    if |p| > 1 {
      assert Edge(g, p[0], p[1]);
      DependenciesInOrder(g, order, p[0]);
      assert p[1] in Elements(g[p[0]]);
      WalkStays(g, order, p[1..]);
    }
  }

  lemma {:induction false} DependenciesInOrder(g: Graph, order: seq<Id>, n: Id)
    requires Topological(g, order) && n in order
    ensures n in g && Elements(g[n]) <= Elements(order)
  {
    var k := |order| - 1;
    if n != order[k] {
      DependenciesInOrder(g, order[..k], n);
    }
  }

  /** A walk that returns to its start cannot leave from a topological order. */
  lemma {:induction false} NoReturn(g: Graph, order: seq<Id>, p: seq<Id>)
    requires Topological(g, order) && Cycle(g, p)
    ensures p[0] !in order
  {
    if p[0] in order {
      var n := |order| - 1;
      NoReturn(g, order[..n], p);
      assert Edge(g, p[0], p[1]) && p[0] == order[n];
      assert p[1] in Elements(g[order[n]]);
      WalkStays(g, order[..n], p[1..]);
    }
  }

  /** A graph that can be listed dependencies-first has no cycle. */
  lemma {:induction false} TopologicalMeansAcyclic(g: Graph, order: seq<Id>)
    requires Topological(g, order)
    requires forall n :: n in g ==> n in order
    ensures !HasCycle(g)
  {
    forall p | Cycle(g, p) ensures false {
      assert Edge(g, p[0], p[1]);
      NoReturn(g, order, p);
    }
  }

  lemma {:induction false} WalkPush(g: Graph, path: seq<Id>, n: Id)
    requires Walk(g, path) && (path == [] || Edge(g, path[|path| - 1], n))
    ensures Walk(g, path + [n])
  {
    if |path| >= 2 {
      WalkPush(g, path[1..], n);
    }
    assert |path| >= 1 ==> (path + [n])[1..] == path[1..] + [n];
  }

  lemma {:induction false} ReturnToPath(g: Graph, path: seq<Id>, n: Id)
    requires Walk(g, path) && n in path && Edge(g, path[|path| - 1], n)
    ensures HasCycle(g)
  {
    if path[0] == n {
      WalkPush(g, path, n);
      assert Cycle(g, path + [n]);
    } else {
      ReturnToPath(g, path[1..], n);
    }
  }

  lemma {:induction false} Finish(g: Graph, order: seq<Id>, n: Id)
    requires Topological(g, order) && n in g && Elements(g[n]) <= Elements(order)
    ensures Topological(g, order + [n])
  {
    assert (order + [n])[..|order|] == order;
  }

  /** The two sets that `visit` closes over. The ghost fields record what the sets stand for:
      the path from the root of the search to the current node, and the finishing order. */
  class DepthFirstSearch {
    const g: Graph
    var visiting: set<Id>
    var visited: set<Id>
    ghost var path: seq<Id>
    ghost var order: seq<Id>

    ghost predicate Valid()
      reads this
    {
      && Closed(g)
      && visiting <= g.Keys && visiting <= Elements(path) && Walk(g, path)
      && visited <= Elements(order) && Topological(g, order)
    }

    constructor (graph: Graph)
      requires Closed(graph)
      ensures Valid() && g == graph && path == [] && visited == {}
    {
      g, visiting, visited, path, order := graph, {}, {}, [], [];
    }

    /** True exactly when the search below `node` runs back into the current path. */
    method Visit(node: Id) returns (found: bool)
      requires Valid() && node in g
      requires path == [] || Edge(g, path[|path| - 1], node)
      modifies this
      ensures found ==> HasCycle(g)
      ensures !found ==> Valid() && path == old(path) && visiting == old(visiting)
      ensures !found ==> old(visited) <= visited && node in visited
      decreases g.Keys - visiting
    {
      if node in visiting {
        ReturnToPath(g, path, node);
        return true;
      }
      if node in visited {
        return false;
      }
      visiting := visiting + {node};
      WalkPush(g, path, node);
      path := path + [node];
      var deps := g[node];
      var i := 0;
      while i < |deps|
        invariant 0 <= i <= |deps|
        invariant Valid() && path == old(path) + [node] && visiting == old(visiting) + {node}
        invariant old(visited) <= visited
        invariant Elements(deps[..i]) <= visited
      {
        assert Edge(g, node, deps[i]);
        found := Visit(deps[i]);
        if found {
          return true;
        }
        ElementsTake(deps, i);
        i := i + 1;
      }
      assert deps[..i] == deps;
      visiting := visiting - {node};
      visited := visited + {node};
      Finish(g, order, node);
      path, order := old(path), order + [node];
      return false;
    }
  }

  /** Searching from every node finds a cycle exactly when the graph has one. The roots may be
      taken in any order that covers the graph. */
  method FindCycle(g: Graph, roots: seq<Id>) returns (found: bool)
    requires Closed(g)
    requires forall n :: n in roots <==> n in g
    ensures found <==> HasCycle(g)
  {
    var search := new DepthFirstSearch(g);
    var i := 0;
    while i < |roots|
      invariant 0 <= i <= |roots|
      invariant search.Valid() && search.g == g && search.path == []
      invariant fresh(search)
      invariant forall j :: 0 <= j < i ==> roots[j] in search.visited
    {
      assert roots[i] in roots;
      found := search.Visit(roots[i]);
      if found {
        return true;
      }
      i := i + 1;
    }
    TopologicalMeansAcyclic(g, search.order);
    return false;
  }
}
