/** Deterministic model choice (routing/selector.py). Provider and model names are compared only,
    so each stands as its rank in the order of names. */
module Selector {
  import opened Prelude

  datatype RoutingMode = Auto | Economy | Quality | Manual

  datatype Capability = Capability(coding: real, reasoning: real, toolReliability: real, latency: real) {
    function Fit(): real {
      Min(coding, reasoning)
    }
  }

  datatype Key = Key(provider: Id, model: Id) {
    predicate Before(other: Key) {
      provider < other.provider || (provider == other.provider && model < other.model)
    }
  }

  datatype Candidate = Candidate(
    key: Key,
    estimatedCost: Option<Money>,
    configured: bool,
    healthy: bool,
    enabled: bool,
    autoEligible: bool,
    supportsTools: Option<bool>,
    supportsStructuredOutput: Option<bool>,
    contextTokens: Option<int>,
    maxOutputTokens: Option<int>,
    modalities: set<Id>,
    capability: Option<Capability>,
    pricing: Pricing)
  {
    function Fit(): Option<real> {
      if capability.None? then None else Some(capability.value.Fit())
    }
  }

  datatype Requirements = Requirements(
    mode: RoutingMode,
    excludedModels: set<Key>,
    escalated: bool,
    failedFit: Option<real>,
    capabilityFloor: Option<real>,
    toolsRequired: bool,
    structuredOutputRequired: bool,
    minimumContextTokens: int,
    minimumOutputTokens: int,
    modalities: set<Id>)

  datatype Reason =
    | ManualModelMismatch | ModelExcluded | ProviderUnconfigured | ProviderUnhealthy | ModelDisabled
    | AutoIneligible | ToolsUnsupported | StructuredOutputUnsupported | ContextTooSmall
    | OutputTooSmall | ModalityUnsupported | EscalationBaselineUnknown | EscalationNotStronger
    | CapabilityFloor | PriceUnavailable | BudgetUnaffordable
    | PriceUnavailableForReservation | FallbackModelMismatch

  /** The place of a reason's name in the alphabetical order that breaks ties. */
  function Alphabetical(r: Reason): nat {
    match r
    case AutoIneligible => 0
    case BudgetUnaffordable => 1
    case CapabilityFloor => 2
    case ContextTooSmall => 3
    case EscalationBaselineUnknown => 4
    case EscalationNotStronger => 5
    case FallbackModelMismatch => 6
    case ManualModelMismatch => 7
    case ModalityUnsupported => 8
    case ModelDisabled => 9
    case ModelExcluded => 10
    case OutputTooSmall => 11
    case PriceUnavailable => 12
    case PriceUnavailableForReservation => 13
    case ProviderUnconfigured => 14
    case ProviderUnhealthy => 15
    case StructuredOutputUnsupported => 16
    case ToolsUnsupported => 17
  }

  type Counts = map<Reason, nat>

  datatype Outcome =
    | Selected(candidate: Candidate, included: nat, excluded: Counts, binding: Option<Reason>)
    | RouteFailure(excluded: Counts, binding: Option<Reason>)

  /** `ManualPinMissing` is the ValueError of a manual request without a pin, `UnratedModel` the
      assertion in the ranking that a model chosen automatically has a capability rating. */
  datatype SelectorError = ManualPinMissing | UnratedModel

  predicate Lacks(supports: Option<bool>, mode: RoutingMode) {
    supports == Some(false) || (mode != Manual && supports != Some(true))
  }

  predicate TooSmall(size: Option<int>, minimum: int, mode: RoutingMode) {
    (size.None? && mode != Manual) || (size.Some? && size.value < minimum)
  }

  function ExclusionReason(c: Candidate, req: Requirements, available: Option<real>, pin: Option<Key>): Option<Reason> {
    if req.mode == Manual && Some(c.key) != pin then Some(ManualModelMismatch)
    else if c.key in req.excludedModels then Some(ModelExcluded)
    else if !c.configured then Some(ProviderUnconfigured)
    else if !c.healthy then Some(ProviderUnhealthy)
    else if !c.enabled then Some(ModelDisabled)
    else if (req.mode != Manual || req.escalated) && !c.autoEligible then Some(AutoIneligible)
    else if req.toolsRequired && Lacks(c.supportsTools, req.mode) then Some(ToolsUnsupported)
    else if req.structuredOutputRequired && Lacks(c.supportsStructuredOutput, req.mode) then Some(StructuredOutputUnsupported)
    else if TooSmall(c.contextTokens, req.minimumContextTokens, req.mode) then Some(ContextTooSmall)
    else if TooSmall(c.maxOutputTokens, req.minimumOutputTokens, req.mode) then Some(OutputTooSmall)
    else if !(req.modalities <= c.modalities) then Some(ModalityUnsupported)
    else if req.escalated && req.failedFit.None? then Some(EscalationBaselineUnknown)
    else if req.escalated && (c.Fit().None? || c.Fit().value <= req.failedFit.value) then Some(EscalationNotStronger)
    else if req.capabilityFloor.Some? && (c.Fit().None? || c.Fit().value < req.capabilityFloor.value) then Some(CapabilityFloor)
    else if c.estimatedCost.None? && (req.mode != Manual || available.Some?) then Some(PriceUnavailable)
    else if available.Some? && c.estimatedCost.Some? && c.estimatedCost.value > available.value then Some(BudgetUnaffordable)
    else None
  }

  // ----- The order the candidates are visited in -----

  /** Stable insertion by key, so that `SortByKey` is `sorted(..., key=(provider, model))`. */
  function InsertByKey(c: Candidate, sorted: seq<Candidate>): seq<Candidate> {
    if sorted == [] || !sorted[0].key.Before(c.key) then [c] + sorted
    else [sorted[0]] + InsertByKey(c, sorted[1..])
  }

  function SortByKey(candidates: seq<Candidate>): seq<Candidate> {
    if candidates == [] then [] else InsertByKey(candidates[0], SortByKey(candidates[1..]))
  }

  predicate DistinctKeys(candidates: seq<Candidate>) {
    forall i, j :: 0 <= i < j < |candidates| ==> candidates[i].key != candidates[j].key
  }

  /** Each key precedes all later ones. */
  ghost predicate StrictlySorted(s: seq<Candidate>) {
    s != [] ==> (forall c :: c in s[1..] ==> s[0].key.Before(c.key)) && StrictlySorted(s[1..])
  }

  lemma {:induction false} InsertElements(c: Candidate, sorted: seq<Candidate>)
    ensures multiset(InsertByKey(c, sorted)) == multiset(sorted) + multiset{c}
    ensures |InsertByKey(c, sorted)| == |sorted| + 1
  {
    if sorted != [] && sorted[0].key.Before(c.key) {
      InsertElements(c, sorted[1..]);
      assert sorted == [sorted[0]] + sorted[1..];
    }
  }

  lemma {:induction false} SortElements(s: seq<Candidate>)
    ensures multiset(SortByKey(s)) == multiset(s) && |SortByKey(s)| == |s|
  {
    if s != [] {
      SortElements(s[1..]);
      InsertElements(s[0], SortByKey(s[1..]));
      assert s == [s[0]] + s[1..];
    }
  }

  lemma {:induction false} InsertSorted(c: Candidate, s: seq<Candidate>)
    requires StrictlySorted(s) && forall d :: d in s ==> d.key != c.key
    ensures StrictlySorted(InsertByKey(c, s))
  {
    InsertElements(c, s);
    if s != [] {
      assert forall d :: d in s ==> d == s[0] || d in s[1..];
      if s[0].key.Before(c.key) {
        InsertSorted(c, s[1..]);
        InsertElements(c, s[1..]);
        forall d | d in InsertByKey(c, s[1..]) ensures s[0].key.Before(d.key) {
          assert d in multiset(InsertByKey(c, s[1..]));
        }
        assert InsertByKey(c, s)[1..] == InsertByKey(c, s[1..]);
      } else {
        assert InsertByKey(c, s)[1..] == s;
      }
    }
  }

  lemma {:induction false} SortSorted(s: seq<Candidate>)
    requires DistinctKeys(s)
    ensures StrictlySorted(SortByKey(s))
  {
    if s != [] {
      SortSorted(s[1..]);
      SortElements(s[1..]);
      forall d | d in SortByKey(s[1..]) ensures d.key != s[0].key {
        assert d in multiset(SortByKey(s[1..]));
        assert d in s[1..];
      }
      InsertSorted(s[0], SortByKey(s[1..]));
    }
  }

  lemma {:induction false} HeadLeast(s: seq<Candidate>, d: Candidate)
    requires StrictlySorted(s) && d in multiset(s)
    ensures d in s && (d == s[0] || s[0].key.Before(d.key))
  {
    assert d in s;
  }

  lemma {:induction false} SameHead(a: seq<Candidate>, b: seq<Candidate>)
    requires a != [] && StrictlySorted(a) && StrictlySorted(b) && multiset(a) == multiset(b)
    ensures b != [] && a[0] == b[0]
  {
    assert a[0] in multiset(a);
    HeadLeast(b, a[0]);
    assert b[0] in multiset(b);
    HeadLeast(a, b[0]);
  }

  /** A strictly sorted sequence is determined by its elements. */
  lemma {:induction false} SortedUnique(a: seq<Candidate>, b: seq<Candidate>)
    requires StrictlySorted(a) && StrictlySorted(b) && multiset(a) == multiset(b)
    ensures a == b
  {
    if a == [] {
      assert |multiset(b)| == 0;
    } else {
      SameHead(a, b);
      assert a == [a[0]] + a[1..] && b == [b[0]] + b[1..];
      assert multiset(a[1..]) == multiset(a) - multiset{a[0]};
      assert multiset(b[1..]) == multiset(b) - multiset{b[0]};
      SortedUnique(a[1..], b[1..]);
    }
  }

  // ----- What the visit accumulates -----

  function Included(s: seq<Candidate>, req: Requirements, available: Option<real>, pin: Option<Key>): seq<Candidate> {
    if s == [] then []
    else
      var rest := Included(s[..|s| - 1], req, available, pin);
      if ExclusionReason(s[|s| - 1], req, available, pin).None? then rest + [s[|s| - 1]] else rest
  }

  function Bump(counts: Counts, r: Reason): Counts {
    counts[r := (if r in counts then counts[r] else 0) + 1]
  }

  function Excluded(s: seq<Candidate>, req: Requirements, available: Option<real>, pin: Option<Key>): Counts {
    if s == [] then map[]
    else
      var rest := Excluded(s[..|s| - 1], req, available, pin);
      match ExclusionReason(s[|s| - 1], req, available, pin)
      case None => rest
      case Some(r) => Bump(rest, r)
  }

  /** The counter that leaves out candidates that could not be offered at all. */
  predicate Offered(c: Candidate, req: Requirements) {
    c.key !in req.excludedModels && c.configured && c.healthy && c.enabled
  }

  function AvailableExcluded(s: seq<Candidate>, req: Requirements, available: Option<real>, pin: Option<Key>): Counts {
    if s == [] then map[]
    else
      var rest := AvailableExcluded(s[..|s| - 1], req, available, pin);
      match ExclusionReason(s[|s| - 1], req, available, pin)
      case None => rest
      case Some(r) => if Offered(s[|s| - 1], req) then Bump(rest, r) else rest
  }

  /** The reason found for the last candidate that is the pinned model. */
  function PinReason(s: seq<Candidate>, req: Requirements, available: Option<real>, pin: Option<Key>): Option<Reason> {
    if s == [] then None
    else if pin == Some(s[|s| - 1].key) then ExclusionReason(s[|s| - 1], req, available, pin)
    else PinReason(s[..|s| - 1], req, available, pin)
  }

  /** `min(relevant, key=(-count, name))`. */
  predicate MostFrequent(counts: Counts, r: Reason) {
    && r in counts
    && forall q :: q in counts && q != r ==>
         counts[q] < counts[r] || (counts[q] == counts[r] && Alphabetical(r) < Alphabetical(q))
  }

  lemma {:induction false} MostFrequentExists(counts: Counts, among: set<Reason>) returns (r: Reason)
    requires among <= counts.Keys && among != {}
    ensures r in among && forall q :: q in among && q != r ==>
              counts[q] < counts[r] || (counts[q] == counts[r] && Alphabetical(r) < Alphabetical(q))
  {
    r :| r in among;
    if among != {r} {
      var m := MostFrequentExists(counts, among - {r});
      assert forall q :: q in among ==> q == r || q in among - {r};
      if counts[r] < counts[m] || (counts[r] == counts[m] && Alphabetical(m) < Alphabetical(r)) {
        r := m;
      }
    }
  }

  lemma {:induction false} MostFrequentIn(counts: Counts)
    requires counts.Keys != {}
    ensures exists r :: MostFrequent(counts, r)
  {
    var r := MostFrequentExists(counts, counts.Keys);
    assert MostFrequent(counts, r);
  }

  function Binding(pinReason: Option<Reason>, available: Counts, all: Counts): Option<Reason> {
    if pinReason.Some? then pinReason
    else
      var relevant := if available.Keys != {} then available else all;
      if relevant.Keys == {} then None
      else
        MostFrequentIn(relevant);
        var r :| MostFrequent(relevant, r);
        Some(r)
  }

  // ----- Ranking -----

  /** The lexicographic order of the rank tuples. */
  predicate Outranks(a: Candidate, b: Candidate, mode: RoutingMode)
    requires mode == Manual || (Rated(a) && Rated(b))
  {
    if mode == Manual then a.key.Before(b.key)
    else
      var fitA, fitB := a.Fit().value, b.Fit().value;
      var costA, costB := a.estimatedCost.value, b.estimatedCost.value;
      var toolA, toolB := a.capability.value.toolReliability, b.capability.value.toolReliability;
      if mode == Quality then
        fitA > fitB || (fitA == fitB &&
        (toolA > toolB || (toolA == toolB &&
        (costA < costB || (costA == costB && a.key.Before(b.key))))))
      else
        var slowA, slowB := a.capability.value.latency, b.capability.value.latency;
        costA < costB || (costA == costB &&
        (fitA > fitB || (fitA == fitB &&
        (toolA > toolB || (toolA == toolB &&
        (slowA < slowB || (slowA == slowB && a.key.Before(b.key))))))))
  }

  predicate Rated(c: Candidate) {
    c.capability.Some? && c.estimatedCost.Some?
  }

  predicate Rankable(s: seq<Candidate>, mode: RoutingMode) {
    mode == Manual || forall i :: 0 <= i < |s| ==> Rated(s[i])
  }

  /** `min(included, key=rank)`: the first candidate that no other outranks. */
  function Best(s: seq<Candidate>, mode: RoutingMode): (c: Candidate)
    requires s != [] && Rankable(s, mode)
    ensures c in s
    ensures mode != Manual ==> Rated(c)
  {
    if |s| == 1 then s[0]
    else
      var best := Best(s[..|s| - 1], mode);
      if Outranks(s[|s| - 1], best, mode) then s[|s| - 1] else best
  }

  function SelectSpec(candidates: seq<Candidate>, req: Requirements, available: Option<real>, pin: Option<Key>)
    : Result<Outcome, SelectorError>
  {
    if req.mode == Manual && pin.None? then Err(ManualPinMissing)
    else
      var sorted := SortByKey(candidates);
      var included := Included(sorted, req, available, pin);
      var excluded := Excluded(sorted, req, available, pin);
      var binding := Binding(PinReason(sorted, req, available, pin),
                             AvailableExcluded(sorted, req, available, pin), excluded);
      if included == [] then Ok(RouteFailure(excluded, binding))
      else if !Rankable(included, req.mode) then Err(UnratedModel)
      else Ok(Selected(Best(included, req.mode), |included|, excluded, binding))
  }

  /** One pass over the sorted candidates, filling the list and the counters. */
  method SelectModel(candidates: seq<Candidate>, req: Requirements, available: Option<real>, pin: Option<Key>)
    returns (r: Result<Outcome, SelectorError>)
    ensures r == SelectSpec(candidates, req, available, pin)
  {
    if req.mode == Manual && pin.None? {
      return Err(ManualPinMissing);
    }
    var sorted := SortByKey(candidates);
    var included: seq<Candidate> := [];
    var excluded: Counts := map[];
    var availableExcluded: Counts := map[];
    var pinReason: Option<Reason> := None;
    var i := 0;
    while i < |sorted|
      invariant 0 <= i <= |sorted|
      invariant included == Included(sorted[..i], req, available, pin)
      invariant excluded == Excluded(sorted[..i], req, available, pin)
      invariant availableExcluded == AvailableExcluded(sorted[..i], req, available, pin)
      invariant pinReason == PinReason(sorted[..i], req, available, pin)
    {
      var c := sorted[i];
      assert sorted[..i + 1][..i] == sorted[..i];
      var reason := ExclusionReason(c, req, available, pin);
      if pin == Some(c.key) {
        pinReason := reason;
      }
      if reason.None? {
        included := included + [c];
      } else {
        excluded := Bump(excluded, reason.value);
        if Offered(c, req) {
          availableExcluded := Bump(availableExcluded, reason.value);
        }
      }
      i := i + 1;
    }
    assert sorted[..i] == sorted;
    var binding := Binding(pinReason, availableExcluded, excluded);
    if included == [] {
      return Ok(RouteFailure(excluded, binding));
    }
    if !Rankable(included, req.mode) {
      return Err(UnratedModel);
    }
    return Ok(Selected(Best(included, req.mode), |included|, excluded, binding));
  }

  // ----- The choice does not depend on the order of the candidates -----

  lemma {:induction false} OrderIndependent(a: seq<Candidate>, b: seq<Candidate>, req: Requirements, available: Option<real>, pin: Option<Key>)
    requires DistinctKeys(a) && DistinctKeys(b) && multiset(a) == multiset(b)
    ensures SelectSpec(a, req, available, pin) == SelectSpec(b, req, available, pin)
  {
    SortSorted(a);
    SortSorted(b);
    SortElements(a);
    SortElements(b);
    SortedUnique(SortByKey(a), SortByKey(b));
  }

  // ----- The choice is the best of the candidates that are not excluded -----

  ghost predicate KeysIdentify(s: seq<Candidate>) {
    forall c, d {:trigger c in s, d in s} :: c in s && d in s && c.key == d.key ==> c == d
  }

  ghost predicate IsBest(c: Candidate, s: seq<Candidate>, mode: RoutingMode)
    requires Rankable(s, mode)
  {
    c in s && forall d :: d in s && d != c ==> Outranks(c, d, mode)
  }

  lemma {:induction false} OutranksTransitive(a: Candidate, b: Candidate, c: Candidate, mode: RoutingMode)
    requires mode == Manual || (Rated(a) && Rated(b) && Rated(c))
    requires Outranks(a, b, mode) && Outranks(b, c, mode)
    ensures Outranks(a, c, mode)
  {
  }

  lemma {:induction false} BestIsBest(s: seq<Candidate>, mode: RoutingMode)
    requires s != [] && Rankable(s, mode) && KeysIdentify(s)
    ensures IsBest(Best(s, mode), s, mode)
  {
    if |s| > 1 {
      var rest, last := s[..|s| - 1], s[|s| - 1];
      assert forall c :: c in rest ==> c in s;
      BestIsBest(rest, mode);
      var best := Best(rest, mode);
      forall d | d in s && d != Best(s, mode) ensures Outranks(Best(s, mode), d, mode) {
        assert d == last || d in rest;
        if Outranks(last, best, mode) && d != best {
          OutranksTransitive(last, best, d, mode);
        }
      }
    }
  }

  lemma {:induction false} IncludedElements(s: seq<Candidate>, req: Requirements, available: Option<real>, pin: Option<Key>)
    ensures forall c :: c in Included(s, req, available, pin) <==> c in s && ExclusionReason(c, req, available, pin).None?
  {
    if s != [] {
      IncludedElements(s[..|s| - 1], req, available, pin);
      assert forall c :: c in s <==> c in s[..|s| - 1] || c == s[|s| - 1];
    }
  }

  lemma {:induction false} SortedSame(s: seq<Candidate>)
    ensures forall c :: c in SortByKey(s) <==> c in s
  {
    SortElements(s);
    forall c ensures c in SortByKey(s) <==> c in s {
      assert c in multiset(SortByKey(s)) <==> c in multiset(s);
    }
  }

  /** `c` qualifies, and outranks every other candidate that qualifies. */
  ghost predicate Optimal(c: Candidate, candidates: seq<Candidate>, req: Requirements, available: Option<real>, pin: Option<Key>) {
    && c in candidates && ExclusionReason(c, req, available, pin).None?
    && (req.mode != Manual ==> Rated(c))
    && forall d :: d in candidates && d != c && ExclusionReason(d, req, available, pin).None? ==>
         (req.mode != Manual ==> Rated(d)) && Outranks(c, d, req.mode)
  }

  lemma {:induction false} OptimalUnique(c: Candidate, d: Candidate, candidates: seq<Candidate>, req: Requirements, available: Option<real>, pin: Option<Key>)
    requires Optimal(c, candidates, req, available, pin) && Optimal(d, candidates, req, available, pin)
    ensures c == d
  {
  }

  /** Some candidate qualifies for automatic choice although it has no capability rating. */
  ghost predicate AdmitsUnrated(candidates: seq<Candidate>, req: Requirements, available: Option<real>, pin: Option<Key>) {
    req.mode != Manual
    && exists c :: c in candidates && ExclusionReason(c, req, available, pin).None? && c.capability.None?
  }

  /** The ranking assertion fails exactly when an unrated candidate qualifies. */
  lemma {:induction false} ErrsExactly(candidates: seq<Candidate>, req: Requirements, available: Option<real>, pin: Option<Key>)
    requires !(req.mode == Manual && pin.None?)
    ensures SelectSpec(candidates, req, available, pin).Err? <==> AdmitsUnrated(candidates, req, available, pin)
  {
    var sorted := SortByKey(candidates);
    var included := Included(sorted, req, available, pin);
    SortedSame(candidates);
    IncludedElements(sorted, req, available, pin);
    if AdmitsUnrated(candidates, req, available, pin) {
      var c :| c in candidates && ExclusionReason(c, req, available, pin).None? && c.capability.None?;
      assert c in sorted && c in included;
    } else {
      forall i | 0 <= i < |included| && req.mode != Manual ensures Rated(included[i]) {
        assert included[i] in included && included[i] in sorted;
      }
    }
  }

  /** With a capability floor, and after an escalation, unrated candidates never qualify. */
  lemma {:induction false} FloorExcludesUnrated(candidates: seq<Candidate>, req: Requirements, available: Option<real>, pin: Option<Key>)
    requires req.capabilityFloor.Some? || req.escalated
    ensures !AdmitsUnrated(candidates, req, available, pin)
  {
    forall c | c in candidates && c.capability.None? ensures ExclusionReason(c, req, available, pin).Some? {
      assert c.Fit().None?;
    }
  }

  /** A selection is the one optimal candidate, a failure means that every candidate is excluded,
      and an error means that an unrated candidate qualifies. */
  lemma {:induction false} SelectsTheOptimum(candidates: seq<Candidate>, req: Requirements, available: Option<real>, pin: Option<Key>)
    requires DistinctKeys(candidates) && !(req.mode == Manual && pin.None?)
    ensures match SelectSpec(candidates, req, available, pin)
      case Ok(Selected(c, _, _, _)) => Optimal(c, candidates, req, available, pin)
      case Ok(RouteFailure(_, _)) => forall c :: c in candidates ==> ExclusionReason(c, req, available, pin).Some?
      case Err(e) => e == UnratedModel
    ensures SelectSpec(candidates, req, available, pin).Err? <==> AdmitsUnrated(candidates, req, available, pin)
  {
    ErrsExactly(candidates, req, available, pin);
    var sorted := SortByKey(candidates);
    var included := Included(sorted, req, available, pin);
    SortedSame(candidates);
    IncludedElements(sorted, req, available, pin);
    if included == [] {
      forall c | c in candidates ensures ExclusionReason(c, req, available, pin).Some? {
        assert c in sorted && c !in included;
      }
    } else if Rankable(included, req.mode) {
      forall c, d | c in included && d in included && c.key == d.key ensures c == d {
        assert c in candidates && d in candidates;
      }
      BestIsBest(included, req.mode);
      forall d | d in candidates && ExclusionReason(d, req, available, pin).None? ensures d in included {
        assert d in sorted;
      }
    }
  }

  // ----- Every candidate is accounted for -----

  function CountOf(counts: Counts, r: Reason): nat {
    if r in counts then counts[r] else 0
  }

  const REASONS: seq<Reason> := [
    AutoIneligible, BudgetUnaffordable, CapabilityFloor, ContextTooSmall, EscalationBaselineUnknown,
    EscalationNotStronger, FallbackModelMismatch, ManualModelMismatch, ModalityUnsupported, ModelDisabled,
    ModelExcluded, OutputTooSmall, PriceUnavailable, PriceUnavailableForReservation, ProviderUnconfigured,
    ProviderUnhealthy, StructuredOutputUnsupported, ToolsUnsupported]

  function TotalOver(counts: Counts, reasons: seq<Reason>): nat {
    if reasons == [] then 0 else CountOf(counts, reasons[0]) + TotalOver(counts, reasons[1..])
  }

  function Total(counts: Counts): nat {
    TotalOver(counts, REASONS)
  }

  lemma {:induction false} BumpOver(counts: Counts, r: Reason, reasons: seq<Reason>)
    requires forall i, j :: 0 <= i < j < |reasons| ==> reasons[i] != reasons[j]
    ensures TotalOver(Bump(counts, r), reasons) == TotalOver(counts, reasons) + if r in reasons then 1 else 0
  {
    if reasons != [] {
      BumpOver(counts, r, reasons[1..]);
      if r in reasons[1..] {
        var j :| 0 <= j < |reasons[1..]| && reasons[1..][j] == r;
        assert reasons[j + 1] != reasons[0];
      }
    }
  }

  lemma {:induction false} NothingOver(reasons: seq<Reason>)
    ensures TotalOver(map[], reasons) == 0
  {
    if reasons != [] {
      NothingOver(reasons[1..]);
    }
  }

  lemma {:induction false} BumpTotal(counts: Counts, r: Reason)
    ensures Total(Bump(counts, r)) == Total(counts) + 1
  {
    assert forall i :: 0 <= i < |REASONS| ==> Alphabetical(REASONS[i]) == i;
    assert REASONS[Alphabetical(r)] == r;
    BumpOver(counts, r, REASONS);
  }

  lemma {:induction false} Accounted(s: seq<Candidate>, req: Requirements, available: Option<real>, pin: Option<Key>)
    ensures |Included(s, req, available, pin)| + Total(Excluded(s, req, available, pin)) == |s|
  {
    if s == [] {
      NothingOver(REASONS);
    } else {
      Accounted(s[..|s| - 1], req, available, pin);
      var reason := ExclusionReason(s[|s| - 1], req, available, pin);
      if reason.Some? {
        BumpTotal(Excluded(s[..|s| - 1], req, available, pin), reason.value);
      }
    }
  }

  /** Included and excluded candidates add up to all of them. */
  lemma {:induction false} OutcomeAccountsForAll(candidates: seq<Candidate>, req: Requirements, available: Option<real>, pin: Option<Key>)
    ensures match SelectSpec(candidates, req, available, pin)
      case Ok(Selected(_, n, excluded, _)) => n + Total(excluded) == |candidates|
      case Ok(RouteFailure(excluded, _)) => Total(excluded) == |candidates|
      case Err(_) => true
  {
    SortElements(candidates);
    Accounted(SortByKey(candidates), req, available, pin);
  }

  // ----- Raising the budget -----

  /** A budget of `high` allows whatever one of `low` allows; no budget allows the most. */
  predicate AtMost(low: Option<real>, high: Option<real>) {
    high.None? || (low.Some? && low.value <= high.value)
  }

  /** A larger budget excludes nothing new, and newly admits only what the smaller could not pay. */
  lemma {:induction false} LargerBudgetAdmits(c: Candidate, req: Requirements, low: Option<real>, high: Option<real>, pin: Option<Key>)
    requires AtMost(low, high)
    ensures ExclusionReason(c, req, low, pin).None? ==> ExclusionReason(c, req, high, pin).None?
    ensures req.mode != Manual && ExclusionReason(c, req, high, pin).None? && ExclusionReason(c, req, low, pin).Some? ==>
              c.estimatedCost.Some? && low.Some? && c.estimatedCost.value > low.value
  {
  }

  /** A larger budget loses an existing choice exactly when it newly admits an unrated candidate,
      which no request with a capability floor or an escalation does. Otherwise the choice stays
      where cost comes first or the model is pinned, and in quality mode its fit never falls. */
  lemma {:induction false} LargerBudgetKeepsChoice(candidates: seq<Candidate>, req: Requirements, low: Option<real>, high: Option<real>, pin: Option<Key>)
    requires DistinctKeys(candidates) && AtMost(low, high)
    requires SelectSpec(candidates, req, low, pin).Ok? && SelectSpec(candidates, req, low, pin).value.Selected?
    ensures SelectSpec(candidates, req, high, pin).Ok? <==> !AdmitsUnrated(candidates, req, high, pin)
    ensures req.capabilityFloor.Some? || req.escalated ==> !AdmitsUnrated(candidates, req, high, pin)
    ensures SelectSpec(candidates, req, high, pin).Ok? ==>
      var before, after := SelectSpec(candidates, req, low, pin).value, SelectSpec(candidates, req, high, pin).value;
      && after.Selected?
      && (req.mode != Quality ==> after.candidate == before.candidate)
      && (req.mode == Quality ==> after.candidate.Fit().Some? && before.candidate.Fit().Some?
                                  && after.candidate.Fit().value >= before.candidate.Fit().value)
  {
    hide SelectSpec, AdmitsUnrated;
    NeedsThePin(candidates, req, low, pin);
    SelectsTheOptimum(candidates, req, low, pin);
    SelectsTheOptimum(candidates, req, high, pin);
    if req.capabilityFloor.Some? || req.escalated {
      FloorExcludesUnrated(candidates, req, high, pin);
    }
    var c := SelectSpec(candidates, req, low, pin).value.candidate;
    LargerBudgetAdmits(c, req, low, high, pin);
    if SelectSpec(candidates, req, high, pin).Ok? {
      var d := SelectSpec(candidates, req, high, pin).value.candidate;
      if d != c {
        LargerBudgetAdmits(d, req, low, high, pin);
        assert Outranks(d, c, req.mode);
      }
    }
  }

  lemma {:induction false} NeedsThePin(candidates: seq<Candidate>, req: Requirements, available: Option<real>, pin: Option<Key>)
    ensures req.mode == Manual && pin.None? <==> SelectSpec(candidates, req, available, pin) == Err(ManualPinMissing)
  {
  }

  // A cheap model with a rating and a dearer one without.

  function Offer(name: Id, cost: Money, capability: Option<Capability>): Candidate {
    Candidate(Key(0, name), Some(cost), true, true, true, true, Some(true), Some(true), Some(0), Some(0), {},
              capability, Pricing(None, None, None))
  }

  function CheapAndUnrated(): seq<Candidate> {
    [Offer(0, 1.0, Some(Capability(0.8, 0.8, 0.8, 0.5))), Offer(1, 2.0, None)]
  }

  const AUTOMATIC := Requirements(Auto, {}, false, None, None, false, false, 0, 0, {})

  /** More budget turns a selection into an error: with a budget of 1 the rated model is chosen,
      with 5 the dearer unrated model qualifies and the ranking fails. */
  lemma {:induction false} MoreBudgetFails()
    ensures SelectSpec(CheapAndUnrated(), AUTOMATIC, Some(1.0), None).Ok?
    ensures SelectSpec(CheapAndUnrated(), AUTOMATIC, Some(1.0), None).value.Selected?
    ensures SelectSpec(CheapAndUnrated(), AUTOMATIC, Some(1.0), None).value.candidate == CheapAndUnrated()[0]
    ensures SelectSpec(CheapAndUnrated(), AUTOMATIC, Some(5.0), None) == Err(UnratedModel)
  {
    var cs := CheapAndUnrated();
    var cheap, dear := cs[0], cs[1];
    assert cheap in cs && dear in cs && forall c :: c in cs ==> c == cheap || c == dear;
    assert ExclusionReason(cheap, AUTOMATIC, Some(1.0), None).None?;
    assert ExclusionReason(dear, AUTOMATIC, Some(1.0), None) == Some(BudgetUnaffordable);
    assert ExclusionReason(dear, AUTOMATIC, Some(5.0), None).None?;
    hide SelectSpec, CheapAndUnrated, ExclusionReason, Offer;
    SelectsTheOptimum(cs, AUTOMATIC, Some(1.0), None);
    SelectsTheOptimum(cs, AUTOMATIC, Some(5.0), None);
  }

  /** The price of a selected model is within the budget, when both are known; and a model without
      a price is only ever selected manually and without a budget. */
  lemma {:induction false} SelectionAffordable(candidates: seq<Candidate>, req: Requirements, available: Option<real>, pin: Option<Key>)
    requires SelectSpec(candidates, req, available, pin).Ok? && SelectSpec(candidates, req, available, pin).value.Selected?
    ensures var c := SelectSpec(candidates, req, available, pin).value.candidate;
      && c in candidates
      && (available.Some? ==> c.estimatedCost.Some? && c.estimatedCost.value <= available.value)
      && (c.estimatedCost.None? ==> req.mode == Manual)
      && (req.escalated ==> c.autoEligible && req.failedFit.Some? && c.Fit().Some? && c.Fit().value > req.failedFit.value)
  {
    SortedSame(candidates);
    IncludedElements(SortByKey(candidates), req, available, pin);
  }
}
