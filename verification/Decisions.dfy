/** Execution decisions and the gate that admits them (domain/decisions.py, runtime/decisions.py). */
module Decisions {
  import opened Prelude

  datatype Mode = Direct | Discovery | Planned

  datatype NodeKind = Agent | Checkpoint | OtherKind

  datatype Effect = ReadOnly | Writes

  /** A resource scope after stripping: blank, or the parts of its path. */
  datatype Scope = Blank | Parts(parts: seq<Id>)

  datatype Node = Node(kind: NodeKind, effect: Effect, profile: Option<Id>, scopes: seq<Scope>)

  type Revision = n: int | 1 <= n witness 1

  datatype Plan = Plan(revision: Revision, nodes: seq<Node>)

  /** `expected` is the revision that a plan revision says it replaces. */
  datatype Decision = Decision(mode: Mode, plan: Option<Plan>, expected: Option<Revision>)

  // ----- One decision -----

  datatype ModeError =
    | DirectPlan | DirectRevision | PlanMissing | InitialRevisionMetadata | RevisionRequired
    | RevisionMismatch | CheckpointRequired | EffectForbidden

  function ModeFault(c: Decision): Option<ModeError> {
    if c.mode == Direct then
      if c.plan.Some? then Some(DirectPlan) else if c.expected.Some? then Some(DirectRevision) else None
    else if c.plan.None? then Some(PlanMissing)
    else if c.plan.value.revision == 1 && c.expected.Some? then Some(InitialRevisionMetadata)
    else if c.plan.value.revision > 1 && c.expected.None? then Some(RevisionRequired)
    else if c.plan.value.revision > 1 && c.expected.value + 1 != c.plan.value.revision then Some(RevisionMismatch)
    else if c.mode == Discovery && !(exists n :: n in c.plan.value.nodes && n.kind == Checkpoint) then Some(CheckpointRequired)
    else if c.mode == Discovery && (exists n :: n in c.plan.value.nodes && n.effect != ReadOnly) then Some(EffectForbidden)
    else None
  }

  datatype Refusal =
    | PayloadConflict | PlanInvalid | PlanRequired | RevisionConflict | IntentConflict | AgentCountConflict
    | AgentProfileConflict | AgentScopeConflict | AlreadyRecorded | PlanRefused | RepairExhausted
    | QuestionRequired | DecisionRequired

  /** The arguments of a decision call, as far as they can be read. */
  datatype Input = Unreadable | InvalidFields | Fields(decision: Decision)

  datatype Fault = Fault(code: Refusal, spends: bool)

  /** Why a decision cannot be read, and whether that spends a repair. */
  function ParseFault(input: Input): Option<Fault> {
    match input
    case Unreadable => Some(Fault(PayloadConflict, true))
    case InvalidFields => Some(Fault(PlanInvalid, true))
    case Fields(c) =>
      match ModeFault(c)
      case None => None
      case Some(RevisionMismatch) => Some(Fault(RevisionConflict, false))
      case Some(RevisionRequired) => Some(Fault(RevisionConflict, false))
      case Some(PlanMissing) => Some(Fault(PlanRequired, true))
      case Some(_) => Some(Fault(PlanInvalid, true))
  }

  // ----- What the user's intent demands -----

  datatype Config = Config(
    mode: Option<Mode>, requiresAnswer: bool, answered: bool, agentCount: Option<int>, agentProfile: Option<Id>, revises: bool)

  const EXPLORER: Id := 0
  const IMPLEMENTER: Id := 1

  function ProfileOf(n: Node): Id {
    if n.profile.Some? then n.profile.value else if n.effect == ReadOnly then EXPLORER else IMPLEMENTER
  }

  function AgentsAmong(nodes: seq<Node>): seq<Node> {
    if nodes == [] then []
    else
      var rest := AgentsAmong(nodes[..|nodes| - 1]);
      if nodes[|nodes| - 1].kind == Agent then rest + [nodes[|nodes| - 1]] else rest
  }

  function Agents(c: Decision): seq<Node> {
    if c.plan.None? then [] else AgentsAmong(c.plan.value.nodes)
  }

  function Texts(scopes: seq<Scope>): seq<seq<Id>> {
    if scopes == [] then []
    else
      var rest := Texts(scopes[..|scopes| - 1]);
      if scopes[|scopes| - 1].Parts? then rest + [scopes[|scopes| - 1].parts] else rest
  }

  function Owned(agents: seq<Node>): seq<seq<Id>> {
    if agents == [] then [] else Owned(agents[..|agents| - 1]) + Texts(agents[|agents| - 1].scopes)
  }

  predicate Overlap(a: seq<Id>, b: seq<Id>) {
    a <= b || b <= a
  }

  /** No scope is a prefix of another. */
  predicate PrefixFree(scopes: seq<seq<Id>>) {
    forall i, j :: 0 <= i < j < |scopes| ==> !Overlap(scopes[i], scopes[j])
  }

  predicate ScopesSound(agents: seq<Node>) {
    && (forall n :: n in agents ==> Texts(n.scopes) != [])
    && (forall s :: s in Owned(agents) ==> s != [])
    && PrefixFree(Owned(agents))
  }

  function ConstraintFault(cfg: Config, c: Decision): Option<Refusal> {
    if cfg.mode.Some? && c.mode != cfg.mode.value then Some(IntentConflict)
    else if cfg.agentCount.None? && cfg.agentProfile.None? then None
    else if cfg.agentCount.Some? && |Agents(c)| != cfg.agentCount.value then Some(AgentCountConflict)
    else if cfg.agentProfile.Some? && exists n :: n in Agents(c) && ProfileOf(n) != cfg.agentProfile.value then
      Some(AgentProfileConflict)
    else if !ScopesSound(Agents(c)) then Some(AgentScopeConflict)
    else None
  }

  // ----- The gate -----

  datatype Gate = Gate(decision: Option<Decision>, repairs: nat, prepared: set<Id>, rejected: map<Id, Refusal>)

  const FRESH := Gate(None, 2, {}, map[])

  function Spent(g: Gate): Gate {
    if g.repairs == 0 then g else g.(repairs := g.repairs - 1)
  }

  /** A rejection that spends a repair, or finds that none is left. */
  function Spending(g: Gate, code: Refusal): (Gate, Result<Decision, Refusal>) {
    (Spent(g), Err(if g.repairs == 0 then RepairExhausted else code))
  }

  /** Why a second decision is not the successor of the first. */
  function TransitionFault(current: Decision, next: Decision): Option<Refusal> {
    if next.mode == Direct then Some(AlreadyRecorded)
    else if current.plan.None? then None
    else if next.expected.None? then
      if next.plan.Some? && next.plan.value.revision != current.plan.value.revision then Some(RevisionConflict)
      else Some(AlreadyRecorded)
    else if next.expected.value != current.plan.value.revision
            || (next.plan.Some? && next.plan.value.revision != next.expected.value + 1) then Some(RevisionConflict)
    else None
  }

  /** Recording hands the plan to a callback; `accepts` is its answer. */
  function Record(cfg: Config, g: Gate, c: Decision, accepts: bool): (Gate, Result<Decision, Refusal>) {
    if c.plan.Some? && (!accepts || (c.expected.Some? && !cfg.revises)) then Spending(g, PlanRefused)
    else (g.(decision := Some(c)), Ok(c))
  }

  function Admit(cfg: Config, g: Gate, input: Input, accepts: bool): (Gate, Result<Decision, Refusal>) {
    var parse := ParseFault(input);
    if parse.Some? then
      if parse.value.spends then Spending(g, parse.value.code) else (g, Err(parse.value.code))
    else
      var c := input.decision;
      var constraint := ConstraintFault(cfg, c);
      if constraint.Some? then Spending(g, constraint.value)
      else
        var conflict := if g.decision.None? then None else TransitionFault(g.decision.value, c);
        if conflict.Some? then (g, Err(conflict.value)) else Record(cfg, g, c, accepts)
  }

  datatype Tool = AskUser | DecisionTool | Operation(name: Id)

  /** A tool call of a response; `accepts` is the answer of the plan callback, if it comes to that. */
  datatype ToolCall = ToolCall(tool: Option<Tool>, id: Option<Id>, args: Option<Input>, accepts: bool)

  predicate AwaitsAnswer(cfg: Config, tool: Tool) {
    cfg.requiresAnswer && !cfg.answered && tool != AskUser
  }

  predicate Allows(cfg: Config, g: Gate, tool: Tool, id: Option<Id>) {
    !(id.Some? && id.value in g.rejected) && (tool == AskUser || (!AwaitsAnswer(cfg, tool) && g.decision.Some?))
  }

  function Reject(g: Gate, id: Id, code: Refusal): Gate {
    g.(rejected := g.rejected[id := code])
  }

  function PrepareOne(cfg: Config, g: Gate, call: ToolCall): Gate {
    if call.tool.None? || call.id.None? then g
    else
      var tool, id := call.tool.value, call.id.value;
      if id in g.prepared || id in g.rejected then g
      else if AwaitsAnswer(cfg, tool) then Reject(g, id, QuestionRequired)
      else if tool == DecisionTool then
        if call.args.None? then Reject(g, id, PlanInvalid)
        else
          var (next, r) := Admit(cfg, g, call.args.value, call.accepts);
          if r.Ok? then next.(prepared := next.prepared + {id}) else Reject(next, id, r.error)
      else if !Allows(cfg, g, tool, Some(id)) then Reject(g, id, DecisionRequired)
      else g
  }

  function PrepareAll(cfg: Config, g: Gate, calls: seq<ToolCall>): Gate {
    if calls == [] then g else PrepareOne(cfg, PrepareAll(cfg, g, calls[..|calls| - 1]), calls[|calls| - 1])
  }

  // ----- What every step keeps -----

  ghost predicate GateInv(cfg: Config, g: Gate) {
    && g.repairs <= 2 && g.prepared !! g.rejected.Keys
    && (g.prepared != {} ==> g.decision.Some?)
    && (g.decision.Some? ==> ModeFault(g.decision.value).None? && ConstraintFault(cfg, g.decision.value).None?)
  }

  /** A decision never disappears and never goes back to direct, revisions only rise, repairs are only
      spent, and answers that were given stand. */
  ghost predicate GateEvolves(before: Gate, after: Gate) {
    && after.repairs <= before.repairs && before.prepared <= after.prepared
    && (forall id :: id in before.rejected ==> id in after.rejected && after.rejected[id] == before.rejected[id])
    && (before.decision.Some? ==>
          && after.decision.Some?
          && (after.decision == before.decision || after.decision.value.mode != Direct)
          && (before.decision.value.plan.Some? ==>
                && after.decision.value.plan.Some?
                && after.decision.value.plan.value.revision >= before.decision.value.plan.value.revision))
  }

  /** An admitted decision satisfies the mode rules and the user's intent, and it continues the one
      before: after the first plan each accepted plan is revised by exactly one. */
  lemma {:induction false} AdmittedDecision(cfg: Config, g: Gate, input: Input, accepts: bool)
    requires GateInv(cfg, g) && Admit(cfg, g, input, accepts).1.Ok?
    ensures var (next, r) := Admit(cfg, g, input, accepts);
      && next == g.(decision := Some(r.value))
      && ModeFault(r.value).None? && ConstraintFault(cfg, r.value).None?
      && (g.decision.Some? ==> r.value.mode != Direct)
      && (g.decision.Some? && g.decision.value.plan.Some? ==>
            r.value.plan.Some? && r.value.plan.value.revision == g.decision.value.plan.value.revision + 1)
  {
    hide ConstraintFault;
  }

  lemma {:induction false} AdmitKeeps(cfg: Config, g: Gate, input: Input, accepts: bool)
    requires GateInv(cfg, g)
    ensures GateInv(cfg, Admit(cfg, g, input, accepts).0) && GateEvolves(g, Admit(cfg, g, input, accepts).0)
  {
    hide ConstraintFault, ModeFault;
    if Admit(cfg, g, input, accepts).1.Ok? {
      AdmittedDecision(cfg, g, input, accepts);
    }
  }

  lemma {:induction false} PrepareOneKeeps(cfg: Config, g: Gate, call: ToolCall)
    requires GateInv(cfg, g)
    ensures GateInv(cfg, PrepareOne(cfg, g, call)) && GateEvolves(g, PrepareOne(cfg, g, call))
  {
    hide ConstraintFault, ModeFault, Admit;
    if call.args.Some? {
      AdmitKeeps(cfg, g, call.args.value, call.accepts);
      AdmitKeepsCalls(cfg, g, call.args.value, call.accepts);
    }
  }

  lemma {:induction false} AdmitKeepsCalls(cfg: Config, g: Gate, input: Input, accepts: bool)
    ensures var (next, r) := Admit(cfg, g, input, accepts);
      && next.prepared == g.prepared && next.rejected == g.rejected
      && (r.Ok? ==> next.decision == Some(r.value)) && (r.Err? ==> next.decision == g.decision)
  {
    hide ConstraintFault, ParseFault;
  }

  lemma {:induction false} EvolvesTransitive(a: Gate, b: Gate, c: Gate)
    requires GateEvolves(a, b) && GateEvolves(b, c)
    ensures GateEvolves(a, c)
  {
  }

  lemma {:induction false} PrepareAllKeeps(cfg: Config, g: Gate, calls: seq<ToolCall>)
    requires GateInv(cfg, g)
    ensures GateInv(cfg, PrepareAll(cfg, g, calls)) && GateEvolves(g, PrepareAll(cfg, g, calls))
  {
    hide GateInv, GateEvolves, PrepareOne;
    if calls == [] {
      EvolvesReflexive(g);
    } else {
      var before := PrepareAll(cfg, g, calls[..|calls| - 1]);
      PrepareAllKeeps(cfg, g, calls[..|calls| - 1]);
      PrepareOneKeeps(cfg, before, calls[|calls| - 1]);
      EvolvesTransitive(g, before, PrepareOne(cfg, before, calls[|calls| - 1]));
    }
  }

  lemma {:induction false} EvolvesReflexive(g: Gate)
    ensures GateEvolves(g, g)
  {
  }

  datatype Step = Submit(input: Input, accepts: bool) | Respond(calls: seq<ToolCall>)

  function Apply(cfg: Config, g: Gate, step: Step): Gate {
    match step
    case Submit(input, accepts) => Admit(cfg, g, input, accepts).0
    case Respond(calls) => PrepareAll(cfg, g, calls)
  }

  function Run(cfg: Config, g: Gate, steps: seq<Step>): Gate
    decreases |steps|
  {
    if steps == [] then g else Run(cfg, Apply(cfg, g, steps[0]), steps[1..])
  }

  /** Over any sequence of responses and submissions. */
  lemma {:induction false} RunKeeps(cfg: Config, g: Gate, steps: seq<Step>)
    requires GateInv(cfg, g)
    ensures GateInv(cfg, Run(cfg, g, steps)) && GateEvolves(g, Run(cfg, g, steps))
    decreases |steps|
  {
    hide GateInv, GateEvolves, Admit, PrepareAll;
    if steps == [] {
      EvolvesReflexive(g);
    } else {
      var next := Apply(cfg, g, steps[0]);
      match steps[0] {
        case Submit(input, accepts) => AdmitKeeps(cfg, g, input, accepts);
        case Respond(calls) => PrepareAllKeeps(cfg, g, calls);
      }
      RunKeeps(cfg, next, steps[1..]);
      EvolvesTransitive(g, next, Run(cfg, next, steps[1..]));
    }
  }

  /** From a fresh gate, whatever is accepted under an intent about agents has disjoint scopes. */
  lemma {:induction false} AcceptedScopesDisjoint(cfg: Config, steps: seq<Step>)
    ensures GateInv(cfg, FRESH)
    ensures var g := Run(cfg, FRESH, steps);
      g.decision.Some? && (cfg.agentCount.Some? || cfg.agentProfile.Some?) ==>
        PrefixFree(Owned(Agents(g.decision.value))) && forall n :: n in Agents(g.decision.value) ==> Texts(n.scopes) != []
  {
    RunKeeps(cfg, FRESH, steps);
  }

  lemma {:induction false} PrefixEvolves(cfg: Config, g: Gate, calls: seq<ToolCall>, k: nat)
    requires GateInv(cfg, g) && k <= |calls|
    ensures GateEvolves(PrepareAll(cfg, g, calls[..k]), PrepareAll(cfg, g, calls))
    decreases |calls| - k
  {
    hide GateInv, GateEvolves, PrepareOne;
    if k == |calls| {
      assert calls[..k] == calls;
      EvolvesReflexive(PrepareAll(cfg, g, calls));
    } else {
      PrefixEvolves(cfg, g, calls, k + 1);
      PrepareAllKeeps(cfg, g, calls[..k]);
      assert calls[..k + 1][..k] == calls[..k];
      PrepareOneKeeps(cfg, PrepareAll(cfg, g, calls[..k]), calls[k]);
      EvolvesTransitive(PrepareAll(cfg, g, calls[..k]), PrepareAll(cfg, g, calls[..k + 1]), PrepareAll(cfg, g, calls));
    }
  }

  /** An operation of a response goes through only when a decision was accepted before it in order,
      and no required answer is outstanding. */
  lemma {:induction false} OperationsFollowDecisions(cfg: Config, g: Gate, calls: seq<ToolCall>, k: nat)
    requires GateInv(cfg, g) && k < |calls|
    requires calls[k].tool.Some? && calls[k].tool.value.Operation? && calls[k].id.Some?
    requires calls[k].id.value !in PrepareAll(cfg, g, calls).rejected
    ensures PrepareAll(cfg, g, calls[..k]).decision.Some?
    ensures calls[k].id.value !in PrepareAll(cfg, g, calls[..k]).prepared ==> !AwaitsAnswer(cfg, calls[k].tool.value)
  {
    hide Admit;
    var before := PrepareAll(cfg, g, calls[..k]);
    PrepareAllKeeps(cfg, g, calls[..k]);
    PrefixEvolves(cfg, g, calls, k + 1);
    assert calls[..k + 1][..k] == calls[..k] && calls[..k + 1][k] == calls[k];
    assert PrepareAll(cfg, g, calls[..k + 1]) == PrepareOne(cfg, before, calls[k]);
  }

  // ----- What repairs decide -----

  /** Two gates that differ at most in the repairs that are left and in the reasons they gave. */
  ghost predicate Alike(g: Gate, h: Gate) {
    g.decision == h.decision && g.prepared == h.prepared && g.rejected.Keys == h.rejected.Keys
  }

  /** Whether a decision is accepted does not depend on the repairs that are left. Exhaustion is
      reported exactly when none is left for a rejection that would spend one; every other answer is
      the same with or without repairs. */
  lemma {:induction false} RepairsOnlyName(cfg: Config, g: Gate, h: Gate, input: Input, accepts: bool)
    requires Alike(g, h)
    ensures Alike(Admit(cfg, g, input, accepts).0, Admit(cfg, h, input, accepts).0)
    ensures Admit(cfg, g, input, accepts).1.Ok? <==> Admit(cfg, h, input, accepts).1.Ok?
    ensures h.repairs > 0 ==>
      (Admit(cfg, g, input, accepts).1 == Err(RepairExhausted) <==>
       g.repairs == 0 && Admit(cfg, h, input, accepts).0.repairs < h.repairs)
    ensures Admit(cfg, g, input, accepts).1 != Err(RepairExhausted) && Admit(cfg, h, input, accepts).1 != Err(RepairExhausted) ==>
      Admit(cfg, g, input, accepts).1 == Admit(cfg, h, input, accepts).1
  {
    hide ModeFault;
    OwnCodes(cfg, g, input);
  }

  /** No fault has the code of exhaustion. */
  lemma {:induction false} OwnCodes(cfg: Config, g: Gate, input: Input)
    ensures ParseFault(input).Some? ==> ParseFault(input).value.code != RepairExhausted
    ensures input.Fields? ==> ConstraintFault(cfg, input.decision) != Some(RepairExhausted)
    ensures input.Fields? && g.decision.Some? ==> TransitionFault(g.decision.value, input.decision) != Some(RepairExhausted)
  {
  }

  lemma {:induction false} PrepareOneAlike(cfg: Config, g: Gate, h: Gate, call: ToolCall)
    requires Alike(g, h)
    ensures Alike(PrepareOne(cfg, g, call), PrepareOne(cfg, h, call))
  {
    hide Admit, AwaitsAnswer;
    if call.args.Some? {
      RepairsOnlyName(cfg, g, h, call.args.value, call.accepts);
      AdmitKeepsCalls(cfg, g, call.args.value, call.accepts);
      AdmitKeepsCalls(cfg, h, call.args.value, call.accepts);
    }
  }

  lemma {:induction false} PrepareAllAlike(cfg: Config, g: Gate, h: Gate, calls: seq<ToolCall>)
    requires Alike(g, h)
    ensures Alike(PrepareAll(cfg, g, calls), PrepareAll(cfg, h, calls))
    decreases |calls|
  {
    hide Alike, PrepareOne;
    if calls != [] {
      var k := |calls| - 1;
      PrepareAllAlike(cfg, g, h, calls[..k]);
      PrepareOneAlike(cfg, PrepareAll(cfg, g, calls[..k]), PrepareAll(cfg, h, calls[..k]), calls[k]);
    }
  }

  /** Running out of repairs locks nothing: over any run, however many repairs there are to begin with,
      the same decisions are accepted and the same calls prepared and rejected. */
  lemma {:induction false} ExhaustionDoesNotLock(cfg: Config, g: Gate, h: Gate, steps: seq<Step>)
    requires Alike(g, h)
    ensures Alike(Run(cfg, g, steps), Run(cfg, h, steps))
    decreases |steps|
  {
    hide Alike, Admit, PrepareAll;
    if steps != [] {
      match steps[0] {
        case Submit(input, accepts) => RepairsOnlyName(cfg, g, h, input, accepts);
        case Respond(calls) => PrepareAllAlike(cfg, g, h, calls);
      }
      ExhaustionDoesNotLock(cfg, Apply(cfg, g, steps[0]), Apply(cfg, h, steps[0]), steps[1..]);
    }
  }

  /** A fresh gate after two calls that cannot be read. */
  function Exhausted(cfg: Config): Gate {
    Run(cfg, FRESH, [Submit(Unreadable, true), Submit(Unreadable, true)])
  }

  /** A third such call is told that the repairs are used up, and whatever decision the fresh gate
      admits is still admitted. */
  lemma {:induction false} ExhaustedGate(cfg: Config, c: Decision, accepts: bool)
    ensures Exhausted(cfg) == FRESH.(repairs := 0)
    ensures Admit(cfg, Exhausted(cfg), Unreadable, true).1 == Err(RepairExhausted)
    ensures Admit(cfg, FRESH, Fields(c), accepts).1.Ok? ==> Admit(cfg, Exhausted(cfg), Fields(c), accepts).1 == Ok(c)
  {
    var steps := [Submit(Unreadable, true), Submit(Unreadable, true)];
    assert steps[1..] == [Submit(Unreadable, true)] && steps[1..][1..] == [];
    assert Run(cfg, FRESH.(repairs := 0), []) == FRESH.(repairs := 0);
    assert Run(cfg, FRESH.(repairs := 1), steps[1..]) == FRESH.(repairs := 0);
  }

  /** A user's request with no demands, and the decision to act directly. */
  lemma {:induction false} DirectAfterExhaustion()
    ensures var cfg, direct := Config(None, false, false, None, None, false), Decision(Direct, None, None);
      && Exhausted(cfg).repairs == 0
      && Admit(cfg, Exhausted(cfg), Unreadable, true).1 == Err(RepairExhausted)
      && Admit(cfg, Exhausted(cfg), Fields(direct), true).1 == Ok(direct)
  {
    ExhaustedGate(Config(None, false, false, None, None, false), Decision(Direct, None, None), true);
  }

  // ----- The gate as the program holds it -----

  lemma {:induction false} OwnedPrefix(agents: seq<Node>, n: nat)
    requires n < |agents|
    ensures Owned(agents[..n]) + Texts(agents[n].scopes) <= Owned(agents)
    decreases |agents|
  {
    var last := |agents| - 1;
    if n < last {
      OwnedPrefix(agents[..last], n);
      assert agents[..last][..n] == agents[..n];
    }
  }

  lemma {:induction false} ClashIsUnsound(agents: seq<Node>, n: nat, k: nat)
    requires n < |agents| && k < |Texts(agents[n].scopes)|
    requires var owned, s := Owned(agents[..n]) + Texts(agents[n].scopes)[..k], Texts(agents[n].scopes)[k];
      s == [] || exists o :: o in owned && Overlap(o, s)
    ensures !ScopesSound(agents)
  {
    OwnedPrefix(agents, n);
    var all, before, s := Owned(agents), Owned(agents[..n]) + Texts(agents[n].scopes)[..k], Texts(agents[n].scopes)[k];
    var at := |Owned(agents[..n])| + k;
    assert (Owned(agents[..n]) + Texts(agents[n].scopes))[at] == s && all[at] == s;
    if s == [] {
      assert all[at] in all;
    } else {
      var o :| o in before && Overlap(o, s);
      var i :| 0 <= i < |before| && before[i] == o;
      assert (Owned(agents[..n]) + Texts(agents[n].scopes))[i] == o && all[i] == o && i < at;
      assert Overlap(all[i], all[at]);
    }
  }

  lemma {:induction false} PrefixFreeGrows(owned: seq<seq<Id>>, s: seq<Id>)
    requires PrefixFree(owned) && forall o :: o in owned ==> !Overlap(o, s)
    ensures PrefixFree(owned + [s])
  {
    var all := owned + [s];
    forall i, j | 0 <= i < j < |all| ensures !Overlap(all[i], all[j]) {
      if j == |owned| {
        assert owned[i] in owned;
      }
    }
  }

  class ExecutionDecisionGate {
    const cfg: Config
    var decision: Option<Decision>
    var repairsRemaining: nat
    var preparedDecisionIds: set<Id>
    var rejectedToolCodes: map<Id, Refusal>

    ghost function State(): Gate
      reads this
    {
      Gate(decision, repairsRemaining, preparedDecisionIds, rejectedToolCodes)
    }

    constructor (cfg: Config)
      ensures this.cfg == cfg && State() == FRESH
    {
      this.cfg := cfg;
      decision, repairsRemaining, preparedDecisionIds, rejectedToolCodes := None, 2, {}, map[];
    }

    method ConsumeRepair(code: Refusal) returns (refusal: Refusal)
      modifies this`repairsRemaining
      ensures (State(), Err(refusal)) == Spending(old(State()), code)
    {
      if repairsRemaining == 0 {
        return RepairExhausted;
      }
      repairsRemaining := repairsRemaining - 1;
      refusal := code;
    }

    /** The scopes of one agent against those owned already. */
    method ClaimScopes(agents: seq<Node>, n: nat, owned: seq<seq<Id>>) returns (clash: bool, claimed: seq<seq<Id>>)
      requires n < |agents| && owned == Owned(agents[..n])
      requires PrefixFree(owned) && forall s :: s in owned ==> s != []
      ensures clash ==> !ScopesSound(agents)
      ensures !clash ==> claimed == Owned(agents[..n + 1]) && PrefixFree(claimed) && Texts(agents[n].scopes) != []
                         && forall s :: s in claimed ==> s != []
    {
      var texts := Texts(agents[n].scopes);
      claimed := owned;
      if texts == [] {
        return true, claimed;
      }
      for k := 0 to |texts|
        invariant claimed == owned + texts[..k] && PrefixFree(claimed) && forall s :: s in claimed ==> s != []
      {
        var scope := texts[k];
        if scope == [] || exists o :: o in claimed && Overlap(o, scope) {
          ClashIsUnsound(agents, n, k);
          return true, claimed;
        }
        PrefixFreeGrows(claimed, scope);
        claimed := claimed + [scope];
      }
      assert agents[..n + 1][..n] == agents[..n];
      clash := false;
    }

    method ValidateConstraints(c: Decision) returns (fault: Option<Refusal>)
      ensures fault == ConstraintFault(cfg, c)
    {
      if cfg.mode.Some? && c.mode != cfg.mode.value {
        return Some(IntentConflict);
      }
      if cfg.agentCount.None? && cfg.agentProfile.None? {
        return None;
      }
      var agents := Agents(c);
      if cfg.agentCount.Some? && |agents| != cfg.agentCount.value {
        return Some(AgentCountConflict);
      }
      if cfg.agentProfile.Some? {
        for i := 0 to |agents|
          invariant forall n :: n in agents[..i] ==> ProfileOf(n) == cfg.agentProfile.value
        {
          if ProfileOf(agents[i]) != cfg.agentProfile.value {
            return Some(AgentProfileConflict);
          }
        }
        assert agents[..|agents|] == agents;
      }
      var owned: seq<seq<Id>> := [];
      for i := 0 to |agents|
        invariant owned == Owned(agents[..i]) && PrefixFree(owned) && forall s :: s in owned ==> s != []
        invariant forall n :: n in agents[..i] ==> Texts(n.scopes) != []
      {
        var clash;
        clash, owned := ClaimScopes(agents, i, owned);
        if clash {
          return Some(AgentScopeConflict);
        }
      }
      assert agents[..|agents|] == agents;
      fault := None;
    }

    method AdmitDecision(input: Input, accepts: bool) returns (r: Result<Decision, Refusal>)
      modifies this`decision, this`repairsRemaining
      ensures (State(), r) == Admit(cfg, old(State()), input, accepts)
    {
      hide ConstraintFault, ModeFault;
      var parse := ParseFault(input);
      if parse.Some? {
        var code := parse.value.code;
        if parse.value.spends {
          code := ConsumeRepair(code);
        }
        return Err(code);
      }
      var c := input.decision;
      var constraint := ValidateConstraints(c);
      if constraint.Some? {
        var code := ConsumeRepair(constraint.value);
        return Err(code);
      }
      if decision.Some? {
        var conflict := TransitionFault(decision.value, c);
        if conflict.Some? {
          return Err(conflict.value);
        }
      }
      if c.plan.Some? && (!accepts || (c.expected.Some? && !cfg.revises)) {
        var code := ConsumeRepair(PlanRefused);
        return Err(code);
      }
      decision := Some(c);
      r := Ok(c);
    }

    /** Goes over the calls of a response in order, before any of them is run. */
    method PrepareResponse(calls: seq<ToolCall>)
      modifies this
      ensures State() == PrepareAll(cfg, old(State()), calls)
    {
      hide Admit;
      for i := 0 to |calls|
        invariant State() == PrepareAll(cfg, old(State()), calls[..i])
      {
        assert calls[..i + 1][..i] == calls[..i];
        PrepareCall(calls[i]);
      }
      assert calls[..|calls|] == calls;
    }

    method PrepareCall(call: ToolCall)
      modifies this
      ensures State() == PrepareOne(cfg, old(State()), call)
    {
      hide Admit;
      if call.tool.None? || call.id.None? {
        return;
      }
      var tool, id := call.tool.value, call.id.value;
      if id in preparedDecisionIds || id in rejectedToolCodes {
        return;
      }
      if cfg.requiresAnswer && !cfg.answered && tool != AskUser {
        rejectedToolCodes := rejectedToolCodes[id := QuestionRequired];
        return;
      }
      if tool == DecisionTool {
        if call.args.None? {
          rejectedToolCodes := rejectedToolCodes[id := PlanInvalid];
          return;
        }
        var r := AdmitDecision(call.args.value, call.accepts);
        if r.Err? {
          rejectedToolCodes := rejectedToolCodes[id := r.error];
        } else {
          preparedDecisionIds := preparedDecisionIds + {id};
        }
        return;
      }
      if tool != AskUser && decision.None? {
        rejectedToolCodes := rejectedToolCodes[id := DecisionRequired];
      }
    }
  }
}
