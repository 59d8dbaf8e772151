/** The graph checks of an execution plan (domain/plans.py). */
module Plans {
  import opened Prelude
  import opened Graphs

  /** `objective` stands for the stripped and case-folded text. */
  datatype PlanNode = PlanNode(localId: Id, objective: Id, dependsOn: seq<Id>)

  datatype PlanError = DuplicateNode | DuplicateObjective | InvalidDependency | PlanCycle

  predicate UniqueIds(nodes: seq<PlanNode>) {
    forall i, j :: 0 <= i < j < |nodes| ==> nodes[i].localId != nodes[j].localId
  }

  predicate UniqueObjectives(nodes: seq<PlanNode>) {
    forall i, j :: 0 <= i < j < |nodes| ==> nodes[i].objective != nodes[j].objective
  }

  /** The dictionary from local ids to dependencies. */
  function NodeGraph(nodes: seq<PlanNode>): Graph {
    if nodes == [] then map[]
    else NodeGraph(nodes[..|nodes| - 1])[nodes[|nodes| - 1].localId := nodes[|nodes| - 1].dependsOn]
  }

  /** Some dependency of the node is the node itself or names no node of the plan. */
  predicate InvalidDependencies(g: Graph, node: PlanNode) {
    node.localId in node.dependsOn || exists d :: d in node.dependsOn && d !in g
  }

  function LocalIds(nodes: seq<PlanNode>): seq<Id> {
    seq(|nodes|, i requires 0 <= i < |nodes| => nodes[i].localId)
  }

  lemma {:induction false} NodeGraphEntries(nodes: seq<PlanNode>)
    ensures forall n :: n in NodeGraph(nodes) <==> exists i :: 0 <= i < |nodes| && nodes[i].localId == n
    ensures UniqueIds(nodes) ==>
              forall i :: 0 <= i < |nodes| ==> NodeGraph(nodes)[nodes[i].localId] == nodes[i].dependsOn
  {
    if nodes != [] {
      var rest := nodes[..|nodes| - 1];
      NodeGraphEntries(rest);
      forall i | 0 <= i < |rest| ensures rest[i] == nodes[i] { }
    }
  }

  /** Without self-dependencies, a plan's declared dependencies all name its nodes exactly when
      its graph is closed. */
  lemma {:induction false} PresentIffClosed(nodes: seq<PlanNode>)
    requires UniqueIds(nodes)
    ensures Closed(NodeGraph(nodes)) <==>
              forall i, d :: 0 <= i < |nodes| && d in nodes[i].dependsOn ==> d in NodeGraph(nodes)
  {
    var g := NodeGraph(nodes);
    NodeGraphEntries(nodes);
    if Closed(g) {
      forall i, d | 0 <= i < |nodes| && d in nodes[i].dependsOn ensures d in g {
        assert nodes[i].localId in g && d in g[nodes[i].localId];
      }
    } else {
      var n, d :| n in g && d in g[n] && d !in g;
      var i :| 0 <= i < |nodes| && nodes[i].localId == n;
      assert d in nodes[i].dependsOn;
    }
  }

  /** The node depends on itself or on an id that no node has. */
  ghost predicate Dangling(nodes: seq<PlanNode>, i: nat)
    requires i < |nodes|
  {
    || nodes[i].localId in nodes[i].dependsOn
    || exists d :: d in nodes[i].dependsOn && forall j :: 0 <= j < |nodes| ==> nodes[j].localId != d
  }

  lemma {:induction false} DanglingExactly(nodes: seq<PlanNode>)
    requires UniqueIds(nodes)
    ensures forall i :: 0 <= i < |nodes| ==> (InvalidDependencies(NodeGraph(nodes), nodes[i]) <==> Dangling(nodes, i))
  {
    NodeGraphEntries(nodes);
  }

  /** A plan is accepted exactly when its node ids and objectives are unique and its graph is
      closed and acyclic. */
  method ValidateGraph(nodes: seq<PlanNode>) returns (fault: Option<PlanError>)
    ensures fault.None? <==>
              UniqueIds(nodes) && UniqueObjectives(nodes) && Closed(NodeGraph(nodes)) && !HasCycle(NodeGraph(nodes))
    ensures fault == Some(DuplicateNode) <==> !UniqueIds(nodes)
    ensures fault == Some(DuplicateObjective) <==> UniqueIds(nodes) && !UniqueObjectives(nodes)
    ensures fault == Some(InvalidDependency) <==>
              && UniqueIds(nodes) && UniqueObjectives(nodes)
              && exists i :: 0 <= i < |nodes| && Dangling(nodes, i)
    ensures fault == Some(PlanCycle) <==>
              && UniqueIds(nodes) && UniqueObjectives(nodes)
              && (forall i :: 0 <= i < |nodes| ==> !Dangling(nodes, i)) && HasCycle(NodeGraph(nodes))
  {
    if !UniqueIds(nodes) {
      return Some(DuplicateNode);
    }
    if !UniqueObjectives(nodes) {
      return Some(DuplicateObjective);
    }
    var g := NodeGraph(nodes);
    NodeGraphEntries(nodes);
    PresentIffClosed(nodes);
    DanglingExactly(nodes);
    var i := 0;
    while i < |nodes|
      invariant 0 <= i <= |nodes|
      invariant forall j :: 0 <= j < i ==> !InvalidDependencies(g, nodes[j])
    {
      var node := nodes[i];
      if InvalidDependencies(g, node) {
        if node.localId in node.dependsOn {
          assert Edge(g, node.localId, node.localId);
          assert Cycle(g, [node.localId, node.localId]);
        }
        return Some(InvalidDependency);
      }
      i := i + 1;
    }
    var roots := LocalIds(nodes);
    forall n | n in g ensures n in roots {
      var k :| 0 <= k < |nodes| && nodes[k].localId == n;
      assert roots[k] == n;
    }
    var cyclic := FindCycle(g, roots);
    return if cyclic then Some(PlanCycle) else None;
  }
}
