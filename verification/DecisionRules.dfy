/** What an execution decision must be, read off its fields (domain/decisions.py, runtime/decisions.py). */
module DecisionRules {
  import opened Prelude
  import opened Decisions

  // ----- The rules -----

  /** A direct decision has no plan. Any other has one: the first, or the revision by one of the plan
      that it says it replaces. */
  predicate PlanGoesWithMode(c: Decision) {
    if c.mode == Direct then c.plan.None? && c.expected.None?
    else
      && c.plan.Some?
      && (c.plan.value.revision == 1 ==> c.expected.None?)
      && (c.plan.value.revision > 1 ==> c.expected.Some? && c.expected.value == c.plan.value.revision - 1)
  }

  /** A discovery stops at a checkpoint and only reads. */
  ghost predicate DiscoveryOnlyReads(c: Decision) {
    c.mode == Discovery && c.plan.Some? ==>
      && (exists i :: 0 <= i < |c.plan.value.nodes| && c.plan.value.nodes[i].kind == Checkpoint)
      && (forall i :: 0 <= i < |c.plan.value.nodes| ==> c.plan.value.nodes[i].effect == ReadOnly)
  }

  function NodesOf(c: Decision): seq<Node> {
    if c.plan.Some? then c.plan.value.nodes else []
  }

  /** The places of the agents among the nodes. */
  function AgentsAt(nodes: seq<Node>): set<int> {
    set i | 0 <= i < |nodes| && nodes[i].kind == Agent
  }

  /** A node without a profile explores when it only reads and implements otherwise. */
  predicate Plays(n: Node, profile: Id) {
    match n.profile
    case Some(p) => p == profile
    case None => (n.effect == ReadOnly && profile == EXPLORER) || (n.effect == Writes && profile == IMPLEMENTER)
  }

  /** Two scopes of which neither contains the other. */
  predicate Disjoint(a: seq<Id>, b: seq<Id>) {
    exists i :: 0 <= i < |a| && i < |b| && a[i] != b[i]
  }

  /** The agent names a scope other than blanks, no scope is everything, and its scopes are disjoint. */
  ghost predicate OwnsScopes(n: Node) {
    && (exists k :: 0 <= k < |n.scopes| && n.scopes[k].Parts?)
    && (forall k :: 0 <= k < |n.scopes| && n.scopes[k].Parts? ==> n.scopes[k].parts != [])
    && (forall k, l :: 0 <= k < l < |n.scopes| && n.scopes[k].Parts? && n.scopes[l].Parts? ==>
          Disjoint(n.scopes[k].parts, n.scopes[l].parts))
  }

  ghost predicate ScopesApart(m: Node, n: Node) {
    forall k, l :: 0 <= k < |m.scopes| && 0 <= l < |n.scopes| && m.scopes[k].Parts? && n.scopes[l].Parts? ==>
      Disjoint(m.scopes[k].parts, n.scopes[l].parts)
  }

  ghost predicate AgentsOwnScopes(nodes: seq<Node>) {
    && (forall i :: i in AgentsAt(nodes) ==> OwnsScopes(nodes[i]))
    && (forall i, j :: i in AgentsAt(nodes) && j in AgentsAt(nodes) && i < j ==> ScopesApart(nodes[i], nodes[j]))
  }

  /** What the user's intent asks of the mode, and of the number, the profile and the scopes of agents. */
  ghost predicate MeetsIntent(cfg: Config, c: Decision) {
    var nodes := NodesOf(c);
    && (cfg.mode.Some? ==> c.mode == cfg.mode.value)
    && (cfg.agentCount.Some? ==> |AgentsAt(nodes)| == cfg.agentCount.value)
    && (cfg.agentProfile.Some? ==> forall i :: i in AgentsAt(nodes) ==> Plays(nodes[i], cfg.agentProfile.value))
    && (cfg.agentCount.Some? || cfg.agentProfile.Some? ==> AgentsOwnScopes(nodes))
  }

  ghost predicate Obeys(cfg: Config, c: Decision) {
    PlanGoesWithMode(c) && DiscoveryOnlyReads(c) && MeetsIntent(cfg, c)
  }

  /** The first decision, or one that is not direct and revises the plan before it, if there was one. */
  predicate Continues(before: Option<Decision>, c: Decision) {
    before.Some? ==>
      && c.mode != Direct
      && (before.value.plan.Some? ==> c.plan.Some? && c.plan.value.revision == before.value.plan.value.revision + 1)
  }

  // ----- The checks find exactly these rules -----

  lemma {:induction false} ModeExactly(c: Decision)
    ensures ModeFault(c).None? <==> PlanGoesWithMode(c) && DiscoveryOnlyReads(c)
  {
    if c.plan.Some? {
      var nodes := c.plan.value.nodes;
      assert (exists n :: n in nodes && n.kind == Checkpoint) <==> exists i :: 0 <= i < |nodes| && nodes[i].kind == Checkpoint;
      assert (exists n :: n in nodes && n.effect != ReadOnly) <==> exists i :: 0 <= i < |nodes| && nodes[i].effect != ReadOnly;
    }
  }

  lemma {:induction false} AgentsCounted(nodes: seq<Node>)
    ensures |AgentsAmong(nodes)| == |AgentsAt(nodes)|
    ensures forall n :: n in AgentsAmong(nodes) <==> exists i :: i in AgentsAt(nodes) && nodes[i] == n
  {
    if nodes != [] {
      var k := |nodes| - 1;
      AgentsCounted(nodes[..k]);
      assert AgentsAt(nodes) == AgentsAt(nodes[..k]) + if nodes[k].kind == Agent then {k} else {};
      assert forall i :: i in AgentsAt(nodes[..k]) ==> nodes[..k][i] == nodes[i];
      forall n ensures n in AgentsAmong(nodes) <==> exists i :: i in AgentsAt(nodes) && nodes[i] == n {
        if i :| i in AgentsAt(nodes) && nodes[i] == n {
          assert i == k || i in AgentsAt(nodes[..k]);
        }
        if n in AgentsAmong(nodes[..k]) {
          var i :| i in AgentsAt(nodes[..k]) && nodes[..k][i] == n;
          assert i in AgentsAt(nodes) && nodes[i] == n;
        }
        if nodes[k].kind == Agent && n == nodes[k] {
          assert k in AgentsAt(nodes);
        }
      }
    }
  }

  lemma {:induction false} PlaysExactly(n: Node, profile: Id)
    ensures ProfileOf(n) == profile <==> Plays(n, profile)
  {
  }

  lemma {:induction false} DisjointExactly(a: seq<Id>, b: seq<Id>)
    ensures Overlap(a, b) <==> !Disjoint(a, b)
  {
    if !Disjoint(a, b) {
      if |a| <= |b| {
        assert a == b[..|a|];
      } else {
        assert b == a[..|b|];
      }
    }
  }

  lemma {:induction false} TextsHas(scopes: seq<Scope>, s: seq<Id>)
    ensures s in Texts(scopes) <==> exists k :: 0 <= k < |scopes| && scopes[k] == Parts(s)
  {
    if scopes != [] {
      var last := |scopes| - 1;
      TextsHas(scopes[..last], s);
      assert forall k :: 0 <= k < last ==> scopes[..last][k] == scopes[k];
    }
  }

  lemma {:induction false} PrefixFreeAppends(a: seq<seq<Id>>, b: seq<seq<Id>>)
    ensures PrefixFree(a + b) <==> PrefixFree(a) && PrefixFree(b) && forall x, y :: x in a && y in b ==> !Overlap(x, y)
  {
    var all := a + b;
    hide Overlap;
    if PrefixFree(all) {
      forall i, j | 0 <= i < j < |a| ensures !Overlap(a[i], a[j]) {
        assert all[i] == a[i] && all[j] == a[j];
      }
      forall i, j | 0 <= i < j < |b| ensures !Overlap(b[i], b[j]) {
        assert all[|a| + i] == b[i] && all[|a| + j] == b[j];
      }
      forall x, y | x in a && y in b ensures !Overlap(x, y) {
        var i, j :| 0 <= i < |a| && a[i] == x && 0 <= j < |b| && b[j] == y;
        assert all[i] == x && all[|a| + j] == y;
      }
    }
  }

  lemma {:induction false} TextsApart(scopes: seq<Scope>)
    ensures PrefixFree(Texts(scopes)) <==>
      forall k, l :: 0 <= k < l < |scopes| && scopes[k].Parts? && scopes[l].Parts? ==> Disjoint(scopes[k].parts, scopes[l].parts)
  {
    hide Overlap, Disjoint;
    if scopes != [] {
      var last := |scopes| - 1;
      var rest := scopes[..last];
      TextsApart(rest);
      assert forall k :: 0 <= k < last ==> rest[k] == scopes[k];
      if scopes[last].Parts? {
        PrefixFreeAppends(Texts(rest), [scopes[last].parts]);
        forall x ensures x in Texts(rest) <==> exists k :: 0 <= k < last && rest[k] == Parts(x) {
          TextsHas(rest, x);
        }
        forall a, b ensures Overlap(a, b) <==> !Disjoint(a, b) {
          DisjointExactly(a, b);
        }
        assert forall k :: 0 <= k < last && scopes[k].Parts? ==> rest[k] == Parts(scopes[k].parts);
      }
    }
  }

  lemma {:induction false} OwnsExactly(n: Node)
    ensures OwnsScopes(n) <==> Texts(n.scopes) != [] && PrefixFree(Texts(n.scopes)) && forall s :: s in Texts(n.scopes) ==> s != []
  {
    hide PrefixFree, Disjoint;
    TextsApart(n.scopes);
    forall s ensures s in Texts(n.scopes) <==> exists k :: 0 <= k < |n.scopes| && n.scopes[k] == Parts(s) {
      TextsHas(n.scopes, s);
    }
    hide Texts;
    if Texts(n.scopes) != [] {
      assert Texts(n.scopes)[0] in Texts(n.scopes);
    }
    if k :| 0 <= k < |n.scopes| && n.scopes[k].Parts? {
      assert n.scopes[k] == Parts(n.scopes[k].parts) && n.scopes[k].parts in Texts(n.scopes);
    }
    forall k | 0 <= k < |n.scopes| && n.scopes[k].Parts? ensures n.scopes[k].parts in Texts(n.scopes) {
      assert n.scopes[k] == Parts(n.scopes[k].parts);
    }
  }

  lemma {:induction false} OwnedHas(agents: seq<Node>, s: seq<Id>)
    ensures s in Owned(agents) <==> exists i :: 0 <= i < |agents| && s in Texts(agents[i].scopes)
  {
    if agents != [] {
      var last := |agents| - 1;
      OwnedHas(agents[..last], s);
      assert forall i :: 0 <= i < last ==> agents[..last][i] == agents[i];
    }
  }

  lemma {:induction false} ApartExactly(m: Node, n: Node)
    ensures ScopesApart(m, n) <==> forall s, t :: s in Texts(m.scopes) && t in Texts(n.scopes) ==> !Overlap(s, t)
  {
    hide Overlap, Disjoint, Texts;
    forall s
      ensures s in Texts(m.scopes) <==> exists k :: 0 <= k < |m.scopes| && m.scopes[k] == Parts(s)
      ensures s in Texts(n.scopes) <==> exists k :: 0 <= k < |n.scopes| && n.scopes[k] == Parts(s)
    {
      TextsHas(m.scopes, s);
      TextsHas(n.scopes, s);
    }
    forall a, b ensures Overlap(a, b) <==> !Disjoint(a, b) {
      DisjointExactly(a, b);
    }
    forall k | 0 <= k < |m.scopes| && m.scopes[k].Parts? ensures m.scopes[k].parts in Texts(m.scopes) {
      assert m.scopes[k] == Parts(m.scopes[k].parts);
    }
    forall k | 0 <= k < |n.scopes| && n.scopes[k].Parts? ensures n.scopes[k].parts in Texts(n.scopes) {
      assert n.scopes[k] == Parts(n.scopes[k].parts);
    }
  }

  /** One more agent. */
  lemma {:induction false} OneMoreAgent(agents: seq<Node>, n: Node)
    ensures ScopesSound(agents + [n]) <==>
      ScopesSound(agents) && OwnsScopes(n) && forall m :: m in agents ==> ScopesApart(m, n)
  {
    hide OwnsScopes, ScopesApart, Overlap, Texts, PrefixFree;
    OwnsExactly(n);
    assert (agents + [n])[..|agents|] == agents;
    PrefixFreeAppends(Owned(agents), Texts(n.scopes));
    forall s ensures s in Owned(agents) <==> exists i :: 0 <= i < |agents| && s in Texts(agents[i].scopes) {
      OwnedHas(agents, s);
    }
    forall m ensures ScopesApart(m, n) <==> forall s, t :: s in Texts(m.scopes) && t in Texts(n.scopes) ==> !Overlap(s, t) {
      ApartExactly(m, n);
    }
    var all := agents + [n];
    assert Owned(all) == Owned(agents) + Texts(n.scopes);
    hide Owned;
    assert forall m :: m in all <==> m in agents || m == n;
    assert forall s :: s in Owned(all) <==> s in Owned(agents) || s in Texts(n.scopes);
    assert (forall x, y :: x in Owned(agents) && y in Texts(n.scopes) ==> !Overlap(x, y)) <==>
           forall m :: m in agents ==> ScopesApart(m, n) by {
      if forall x, y :: x in Owned(agents) && y in Texts(n.scopes) ==> !Overlap(x, y) {
        forall m, s, t | m in agents && s in Texts(m.scopes) && t in Texts(n.scopes) ensures !Overlap(s, t) {
          var i :| 0 <= i < |agents| && agents[i] == m;
          assert s in Texts(agents[i].scopes);
        }
      }
    }
  }

  lemma {:induction false} OwnersGrow(nodes: seq<Node>)
    requires nodes != []
    ensures var last, rest := nodes[|nodes| - 1], nodes[..|nodes| - 1];
      AgentsOwnScopes(nodes) <==>
        && AgentsOwnScopes(rest)
        && (last.kind == Agent ==> OwnsScopes(last) && forall m :: m in AgentsAmong(rest) ==> ScopesApart(m, last))
  {
    hide OwnsScopes, ScopesApart, AgentsAmong;
    var k := |nodes| - 1;
    var rest := nodes[..k];
    AgentsCounted(rest);
    assert forall i :: i in AgentsAt(rest) <==> i in AgentsAt(nodes) && i < k;
    assert forall i :: i in AgentsAt(rest) ==> rest[i] == nodes[i];
    assert k in AgentsAt(nodes) <==> nodes[k].kind == Agent;
    hide AgentsAt;
  }

  lemma {:induction false} ScopesExactly(nodes: seq<Node>)
    ensures ScopesSound(AgentsAmong(nodes)) <==> AgentsOwnScopes(nodes)
  {
    hide ScopesSound, OwnsScopes, ScopesApart;
    if nodes == [] {
      NothingOwned();
    } else {
      var k := |nodes| - 1;
      ScopesExactly(nodes[..k]);
      OwnersGrow(nodes);
      hide AgentsOwnScopes;
      if nodes[k].kind == Agent {
        OneMoreAgent(AgentsAmong(nodes[..k]), nodes[k]);
      }
    }
  }

  lemma {:induction false} NothingOwned()
    ensures ScopesSound([])
  {
  }

  lemma {:induction false} AgentsOf(c: Decision)
    ensures Agents(c) == AgentsAmong(NodesOf(c))
  {
  }

  lemma {:induction false} IntentExactly(cfg: Config, c: Decision)
    ensures ConstraintFault(cfg, c).None? <==> MeetsIntent(cfg, c)
  {
    hide ScopesSound, AgentsOwnScopes, AgentsAmong, ProfileOf, Plays;
    var nodes := NodesOf(c);
    AgentsOf(c);
    AgentsCounted(nodes);
    forall i | i in AgentsAt(nodes) ensures nodes[i] in AgentsAmong(nodes) { }
    hide Agents;
    ScopesExactly(nodes);
    if cfg.agentProfile.Some? {
      forall n ensures ProfileOf(n) == cfg.agentProfile.value <==> Plays(n, cfg.agentProfile.value) {
        PlaysExactly(n, cfg.agentProfile.value);
      }
    }
  }

  // ----- What is accepted -----

  /** A decision is accepted exactly when it obeys the rules, continues the decision before it, and its
      plan, if it has one, can be recorded. It is then the gate's decision. */
  lemma {:induction false} AcceptedExactly(cfg: Config, g: Gate, input: Input, accepts: bool)
    ensures Admit(cfg, g, input, accepts).1.Ok? <==>
      && input.Fields? && Obeys(cfg, input.decision) && Continues(g.decision, input.decision)
      && (input.decision.plan.Some? ==> accepts && (input.decision.expected.Some? ==> cfg.revises))
    ensures Admit(cfg, g, input, accepts).1.Ok? ==> Admit(cfg, g, input, accepts).0 == g.(decision := Some(input.decision))
  {
    hide ModeFault, ConstraintFault, DiscoveryOnlyReads, MeetsIntent;
    if input.Fields? {
      ModeExactly(input.decision);
      IntentExactly(cfg, input.decision);
      if g.decision.Some? && PlanGoesWithMode(input.decision) {
        ContinuesExactly(g.decision.value, input.decision);
      }
    }
  }

  lemma {:induction false} ContinuesExactly(before: Decision, c: Decision)
    requires PlanGoesWithMode(c)
    ensures TransitionFault(before, c).None? <==> Continues(Some(before), c)
  {
  }

  /** After any run from a fresh gate the decision that stands obeys the rules. */
  lemma {:induction false} StandingDecisionObeys(cfg: Config, steps: seq<Step>)
    ensures var g := Run(cfg, FRESH, steps);
      g.decision.Some? ==> Obeys(cfg, g.decision.value)
  {
    hide ModeFault, ConstraintFault, Run;
    FreshIsSound(cfg);
    RunKeeps(cfg, FRESH, steps);
    var g := Run(cfg, FRESH, steps);
    if g.decision.Some? {
      ModeExactly(g.decision.value);
      IntentExactly(cfg, g.decision.value);
    }
  }

  lemma {:induction false} FreshIsSound(cfg: Config)
    ensures GateInv(cfg, FRESH)
  {
  }

  /** A revision that does not say which plan it replaces, or not the one before it. */
  predicate WrongRevision(c: Decision) {
    && c.mode != Direct && c.plan.Some? && c.plan.value.revision > 1
    && (c.expected.None? || c.expected.value != c.plan.value.revision - 1)
  }

  /** A refused submission spends a repair, while there is one, unless it is a wrong revision or obeys the
      rules and does not continue the decision that stands. */
  lemma {:induction false} RefusalSpends(cfg: Config, g: Gate, input: Input, accepts: bool)
    requires g.repairs > 0 && Admit(cfg, g, input, accepts).1.Err?
    ensures Admit(cfg, g, input, accepts).0 ==
      if input.Fields? && (WrongRevision(input.decision) || (Obeys(cfg, input.decision) && !Continues(g.decision, input.decision))) then g
      else g.(repairs := g.repairs - 1)
  {
    hide ConstraintFault, DiscoveryOnlyReads, MeetsIntent;
    if input.Fields? {
      ParseSpends(input.decision);
      ModeExactly(input.decision);
      IntentExactly(cfg, input.decision);
      hide ModeFault, ParseFault;
      if g.decision.Some? && PlanGoesWithMode(input.decision) {
        ContinuesExactly(g.decision.value, input.decision);
      }
    }
  }

  lemma {:induction false} ParseSpends(c: Decision)
    ensures ParseFault(Fields(c)).None? <==> ModeFault(c).None?
    ensures ParseFault(Fields(c)).Some? ==> (ParseFault(Fields(c)).value.spends <==> !WrongRevision(c))
    ensures WrongRevision(c) ==> ParseFault(Fields(c)).Some?
  {
  }

  /** What a decision call must be to be accepted. */
  ghost predicate Acceptable(cfg: Config, g: Gate, call: ToolCall) {
    && call.args.Some? && call.args.value.Fields?
    && var c := call.args.value.decision;
       && Obeys(cfg, c) && Continues(g.decision, c)
       && (c.plan.Some? ==> call.accepts && (c.expected.Some? ==> cfg.revises))
  }

  /** The answer to a call that has had none: a question to the user goes through; while an answer is
      outstanding nothing else does; an operation needs a decision; and a decision call is either
      prepared, as acceptable, or rejected. */
  lemma {:induction false} CallIsAnswered(cfg: Config, g: Gate, call: ToolCall)
    requires call.tool.Some? && call.id.Some? && call.id.value !in g.prepared && call.id.value !in g.rejected
    ensures var after, id, outstanding := PrepareOne(cfg, g, call), call.id.value, cfg.requiresAnswer && !cfg.answered;
      match call.tool.value
      case AskUser => after == g
      case Operation(_) =>
        after == if outstanding then g.(rejected := g.rejected[id := QuestionRequired])
                 else if g.decision.None? then g.(rejected := g.rejected[id := DecisionRequired])
                 else g
      case DecisionTool =>
        if outstanding then after == g.(rejected := g.rejected[id := QuestionRequired])
        else if Acceptable(cfg, g, call) then
          after == g.(decision := Some(call.args.value.decision), prepared := g.prepared + {id})
        else id in after.rejected && after.decision == g.decision && after.prepared == g.prepared
  {
    hide Admit, Obeys, Continues;
    if call.args.Some? {
      AcceptedExactly(cfg, g, call.args.value, call.accepts);
      AdmitKeepsCalls(cfg, g, call.args.value, call.accepts);
    }
  }
}
