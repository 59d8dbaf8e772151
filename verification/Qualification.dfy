/** Which candidates may be chosen, and why the others may not, read off their fields and those of the
    request (routing/selector.py). */
module Qualifications {
  import opened Prelude
  import opened Selector

  // ----- What a candidate must be -----

  predicate AtHand(c: Candidate, req: Requirements) {
    c.configured && c.healthy && c.enabled && c.key !in req.excludedModels
  }

  /** A manual request takes its pin; any other, and an escalated one, what is open to automatic choice. */
  predicate Permitted(c: Candidate, req: Requirements, pin: Option<Key>) {
    && (req.mode == Manual ==> pin.Some? && pin.value == c.key)
    && (req.mode != Manual || req.escalated ==> c.autoEligible)
  }

  /** Where nothing is recorded, a manual request trusts its user. */
  predicate Supported(support: Option<bool>, mode: RoutingMode) {
    match support
    case Some(b) => b
    case None => mode == Manual
  }

  predicate LargeEnough(size: Option<int>, minimum: int, mode: RoutingMode) {
    match size
    case Some(n) => minimum <= n
    case None => mode == Manual
  }

  predicate Equipped(c: Candidate, req: Requirements) {
    && (req.toolsRequired ==> Supported(c.supportsTools, req.mode))
    && (req.structuredOutputRequired ==> Supported(c.supportsStructuredOutput, req.mode))
    && LargeEnough(c.contextTokens, req.minimumContextTokens, req.mode)
    && LargeEnough(c.maxOutputTokens, req.minimumOutputTokens, req.mode)
    && forall m :: m in req.modalities ==> m in c.modalities
  }

  /** Both its ratings reach the floor, and after a failure both exceed what failed. */
  predicate Capable(c: Candidate, req: Requirements) {
    && (req.capabilityFloor.Some? ==>
          && c.capability.Some?
          && c.capability.value.coding >= req.capabilityFloor.value
          && c.capability.value.reasoning >= req.capabilityFloor.value)
    && (req.escalated ==>
          && req.failedFit.Some? && c.capability.Some?
          && c.capability.value.coding > req.failedFit.value && c.capability.value.reasoning > req.failedFit.value)
  }

  predicate Payable(c: Candidate, req: Requirements, available: Option<real>) {
    match c.estimatedCost
    case Some(cost) => available.Some? ==> cost <= available.value
    case None => req.mode == Manual && available.None?
  }

  predicate Qualifies(c: Candidate, req: Requirements, available: Option<real>, pin: Option<Key>) {
    AtHand(c, req) && Permitted(c, req, pin) && Equipped(c, req) && Capable(c, req) && Payable(c, req, available)
  }

  lemma {:induction false} QualifiesExactly(c: Candidate, req: Requirements, available: Option<real>, pin: Option<Key>)
    ensures ExclusionReason(c, req, available, pin).None? <==> Qualifies(c, req, available, pin)
  {
    assert req.modalities <= c.modalities <==> forall m :: m in req.modalities ==> m in c.modalities;
  }

  // ----- How they are ranked -----

  function Weakest(c: Capability): real {
    if c.coding < c.reasoning then c.coding else c.reasoning
  }

  /** The numbers compared one after another, lower first: the price, then strength, reliability with
      tools and speed; in quality mode strength and reliability before the price; the name last. */
  function Rank(c: Candidate, mode: RoutingMode): seq<real>
    requires mode == Manual || (c.capability.Some? && c.estimatedCost.Some?)
  {
    var name := [c.key.provider as real, c.key.model as real];
    if mode == Manual then name
    else
      var able, cost: real := c.capability.value, c.estimatedCost.value;
      if mode == Quality then [-Weakest(able), -able.toolReliability, cost] + name
      else [cost, -Weakest(able), -able.toolReliability, able.latency] + name
  }

  /** The order of tuples. */
  predicate Precedes(a: seq<real>, b: seq<real>) {
    a != [] && b != [] && (a[0] < b[0] || (a[0] == b[0] && Precedes(a[1..], b[1..])))
  }

  lemma {:induction false} PrecedesByHead(x: real, a: seq<real>, y: real, b: seq<real>)
    ensures Precedes([x] + a, [y] + b) <==> x < y || (x == y && Precedes(a, b))
  {
    assert ([x] + a)[1..] == a && ([y] + b)[1..] == b;
  }

  lemma {:induction false} NamesInOrder(a: Key, b: Key)
    ensures Precedes([a.provider as real, a.model as real], [b.provider as real, b.model as real]) <==> a.Before(b)
  {
    PrecedesByHead(a.provider as real, [a.model as real], b.provider as real, [b.model as real]);
    PrecedesByHead(a.model as real, [], b.model as real, []);
    assert [a.provider as real] + [a.model as real] == [a.provider as real, a.model as real];
    assert [b.provider as real] + [b.model as real] == [b.provider as real, b.model as real];
    assert [a.model as real] + [] == [a.model as real] && [b.model as real] + [] == [b.model as real];
  }

  lemma {:induction false} RanksInOrder(a: Candidate, b: Candidate, mode: RoutingMode)
    requires mode == Manual || (Rated(a) && Rated(b))
    ensures Outranks(a, b, mode) <==> Precedes(Rank(a, mode), Rank(b, mode))
  {
    NamesInOrder(a.key, b.key);
    hide Precedes, Key.Before;
    if mode != Manual {
      RatedRanks(a, b, mode);
    }
  }

  lemma {:induction false} RatedRanks(a: Candidate, b: Candidate, mode: RoutingMode)
    requires mode != Manual && Rated(a) && Rated(b)
    ensures Outranks(a, b, mode) <==> Precedes(Rank(a, mode), Rank(b, mode))
  {
    NamesInOrder(a.key, b.key);
    hide Precedes, Key.Before;
    var nameA, nameB := [a.key.provider as real, a.key.model as real], [b.key.provider as real, b.key.model as real];
    var ableA, ableB := a.capability.value, b.capability.value;
    var costA: real, costB: real := a.estimatedCost.value, b.estimatedCost.value;
    var fitA, fitB, toolA, toolB := -Weakest(ableA), -Weakest(ableB), -ableA.toolReliability, -ableB.toolReliability;
    if mode == Quality {
      PrecedesByHead(costA, nameA, costB, nameB);
      PrecedesByHead(toolA, [costA] + nameA, toolB, [costB] + nameB);
      PrecedesByHead(fitA, [toolA] + ([costA] + nameA), fitB, [toolB] + ([costB] + nameB));
      assert Rank(a, mode) == [fitA] + ([toolA] + ([costA] + nameA)) && Rank(b, mode) == [fitB] + ([toolB] + ([costB] + nameB));
    } else {
      PrecedesByHead(ableA.latency, nameA, ableB.latency, nameB);
      PrecedesByHead(toolA, [ableA.latency] + nameA, toolB, [ableB.latency] + nameB);
      PrecedesByHead(fitA, [toolA] + ([ableA.latency] + nameA), fitB, [toolB] + ([ableB.latency] + nameB));
      PrecedesByHead(costA, [fitA] + ([toolA] + ([ableA.latency] + nameA)), costB, [fitB] + ([toolB] + ([ableB.latency] + nameB)));
      assert Rank(a, mode) == [costA] + ([fitA] + ([toolA] + ([ableA.latency] + nameA)));
      assert Rank(b, mode) == [costB] + ([fitB] + ([toolB] + ([ableB.latency] + nameB)));
    }
  }

  // ----- What is selected -----

  /** `c` qualifies and precedes every other candidate that does. */
  ghost predicate First(c: Candidate, candidates: seq<Candidate>, req: Requirements, available: Option<real>, pin: Option<Key>) {
    && c in candidates && Qualifies(c, req, available, pin)
    && (req.mode == Manual || c.capability.Some?)
    && forall d :: d in candidates && d != c && Qualifies(d, req, available, pin) ==>
         (req.mode == Manual || d.capability.Some?) && Precedes(Rank(c, req.mode), Rank(d, req.mode))
  }

  ghost predicate Unrated(c: Candidate, candidates: seq<Candidate>, req: Requirements, available: Option<real>, pin: Option<Key>) {
    req.mode != Manual && c in candidates && Qualifies(c, req, available, pin) && c.capability.None?
  }

  /** The selected model qualifies and precedes all others that do, a route failure means that none
      does, and the ranking fails exactly when one that qualifies for automatic choice is not rated. */
  lemma {:induction false} SelectsTheFirst(candidates: seq<Candidate>, req: Requirements, available: Option<real>, pin: Option<Key>)
    requires DistinctKeys(candidates) && !(req.mode == Manual && pin.None?)
    ensures match SelectSpec(candidates, req, available, pin)
      case Ok(Selected(c, _, _, _)) => First(c, candidates, req, available, pin)
      case Ok(RouteFailure(_, _)) => forall c :: c in candidates ==> !Qualifies(c, req, available, pin)
      case Err(e) => e == UnratedModel
    ensures SelectSpec(candidates, req, available, pin).Err? <==> exists c :: Unrated(c, candidates, req, available, pin)
  {
    SelectsTheOptimum(candidates, req, available, pin);
    hide SelectSpec, Qualifies, ExclusionReason, Rank, Precedes, Outranks, DistinctKeys;
    forall c | c in candidates
      ensures ExclusionReason(c, req, available, pin).None? <==> Qualifies(c, req, available, pin)
    {
      QualifiesExactly(c, req, available, pin);
    }
    if !SelectSpec(candidates, req, available, pin).Err? && SelectSpec(candidates, req, available, pin).value.Selected? {
      OptimalIsFirst(SelectSpec(candidates, req, available, pin).value.candidate, candidates, req, available, pin);
    }
    UnratedExactly(candidates, req, available, pin);
  }

  lemma {:induction false} UnratedExactly(candidates: seq<Candidate>, req: Requirements, available: Option<real>, pin: Option<Key>)
    ensures AdmitsUnrated(candidates, req, available, pin) <==> exists c :: Unrated(c, candidates, req, available, pin)
  {
    hide Qualifies, ExclusionReason;
    forall c ensures ExclusionReason(c, req, available, pin).None? <==> Qualifies(c, req, available, pin) {
      QualifiesExactly(c, req, available, pin);
    }
    if AdmitsUnrated(candidates, req, available, pin) {
      var c :| c in candidates && ExclusionReason(c, req, available, pin).None? && c.capability.None?;
      assert Unrated(c, candidates, req, available, pin);
    }
    if c :| Unrated(c, candidates, req, available, pin) {
      assert ExclusionReason(c, req, available, pin).None?;
    }
  }

  lemma {:induction false} OptimalIsFirst(c: Candidate, candidates: seq<Candidate>, req: Requirements, available: Option<real>, pin: Option<Key>)
    requires Optimal(c, candidates, req, available, pin)
    ensures First(c, candidates, req, available, pin)
  {
    QualifiesExactly(c, req, available, pin);
    PayableIsPriced(c, req, available, pin);
    hide Qualifies, ExclusionReason, Rank, Precedes, Outranks;
    forall d | d in candidates && d != c && Qualifies(d, req, available, pin)
      ensures (req.mode == Manual || d.capability.Some?) && (req.mode == Manual || d.estimatedCost.Some?)
      ensures Precedes(Rank(c, req.mode), Rank(d, req.mode))
    {
      QualifiesExactly(d, req, available, pin);
      RanksInOrder(c, d, req.mode);
    }
  }

  lemma {:induction false} PayableIsPriced(c: Candidate, req: Requirements, available: Option<real>, pin: Option<Key>)
    requires Qualifies(c, req, available, pin)
    ensures req.mode == Manual || c.estimatedCost.Some?
  {
  }

  // ----- Why the others are not -----

  /** What each reason says of a candidate. */
  predicate Holds(r: Reason, c: Candidate, req: Requirements, available: Option<real>, pin: Option<Key>) {
    match r
    case ManualModelMismatch => req.mode == Manual && pin != Some(c.key)
    case ModelExcluded => c.key in req.excludedModels
    case ProviderUnconfigured => !c.configured
    case ProviderUnhealthy => !c.healthy
    case ModelDisabled => !c.enabled
    case AutoIneligible => !c.autoEligible && (req.mode != Manual || req.escalated)
    case ToolsUnsupported => req.toolsRequired && !Supported(c.supportsTools, req.mode)
    case StructuredOutputUnsupported => req.structuredOutputRequired && !Supported(c.supportsStructuredOutput, req.mode)
    case ContextTooSmall => !LargeEnough(c.contextTokens, req.minimumContextTokens, req.mode)
    case OutputTooSmall => !LargeEnough(c.maxOutputTokens, req.minimumOutputTokens, req.mode)
    case ModalityUnsupported => exists m :: m in req.modalities && m !in c.modalities
    case EscalationBaselineUnknown => req.escalated && req.failedFit.None?
    case EscalationNotStronger => req.escalated && req.failedFit.Some? && !Capable(c, req.(capabilityFloor := None))
    case CapabilityFloor => !Capable(c, req.(escalated := false))
    case PriceUnavailable => c.estimatedCost.None? && (req.mode == Manual ==> available.Some?)
    case BudgetUnaffordable => available.Some? && c.estimatedCost.Some? && c.estimatedCost.value > available.value
    case PriceUnavailableForReservation => false
    case FallbackModelMismatch => false
  }

  /** The order in which the reasons are tried. */
  function Precedence(r: Reason): nat {
    match r
    case ManualModelMismatch => 0
    case ModelExcluded => 1
    case ProviderUnconfigured => 2
    case ProviderUnhealthy => 3
    case ModelDisabled => 4
    case AutoIneligible => 5
    case ToolsUnsupported => 6
    case StructuredOutputUnsupported => 7
    case ContextTooSmall => 8
    case OutputTooSmall => 9
    case ModalityUnsupported => 10
    case EscalationBaselineUnknown => 11
    case EscalationNotStronger => 12
    case CapabilityFloor => 13
    case PriceUnavailable => 14
    case BudgetUnaffordable => 15
    case PriceUnavailableForReservation => 16
    case FallbackModelMismatch => 17
  }

  /** `r` holds of the candidate and every other reason that does comes later. */
  ghost predicate Excludes(r: Reason, c: Candidate, req: Requirements, available: Option<real>, pin: Option<Key>) {
    && Holds(r, c, req, available, pin)
    && forall q :: Holds(q, c, req, available, pin) && q != r ==> Precedence(r) < Precedence(q)
  }

  lemma {:induction false} GivenHolds(c: Candidate, req: Requirements, available: Option<real>, pin: Option<Key>)
    requires ExclusionReason(c, req, available, pin).Some?
    ensures Holds(ExclusionReason(c, req, available, pin).value, c, req, available, pin)
  {
    assert req.modalities <= c.modalities <==> forall m :: m in req.modalities ==> m in c.modalities;
  }

  lemma {:induction false} GivenIsEarliest(c: Candidate, req: Requirements, available: Option<real>, pin: Option<Key>, q: Reason)
    requires Holds(q, c, req, available, pin)
    ensures ExclusionReason(c, req, available, pin).Some?
    ensures Precedence(ExclusionReason(c, req, available, pin).value) <= Precedence(q)
  {
    assert req.modalities <= c.modalities <==> forall m :: m in req.modalities ==> m in c.modalities;
  }

  lemma {:induction false} PrecedenceDistinct(q: Reason, r: Reason)
    requires Precedence(q) == Precedence(r)
    ensures q == r
  {
  }

  /** The reason given is the first that holds. */
  lemma {:induction false} ReasonIsTheFirst(c: Candidate, req: Requirements, available: Option<real>, pin: Option<Key>, r: Reason)
    ensures ExclusionReason(c, req, available, pin) == Some(r) <==> Excludes(r, c, req, available, pin)
  {
    hide ExclusionReason, Holds, Precedence;
    var given := ExclusionReason(c, req, available, pin);
    if given.Some? {
      GivenHolds(c, req, available, pin);
    }
    forall q | Holds(q, c, req, available, pin)
      ensures given.Some? && Precedence(given.value) <= Precedence(q) && (q != given.value ==> Precedence(given.value) < Precedence(q))
    {
      GivenIsEarliest(c, req, available, pin, q);
      if Precedence(given.value) == Precedence(q) {
        PrecedenceDistinct(q, given.value);
      }
    }
  }

  /** How many of the candidates a reason excludes; of those at hand, if asked. */
  ghost function Tally(s: seq<Candidate>, req: Requirements, available: Option<real>, pin: Option<Key>, r: Reason, atHand: bool): nat {
    if s == [] then 0
    else Tally(s[1..], req, available, pin, r, atHand)
         + if Excludes(r, s[0], req, available, pin) && (atHand ==> AtHand(s[0], req)) then 1 else 0
  }

  lemma {:induction false} TallyAppends(s: seq<Candidate>, t: seq<Candidate>, req: Requirements, available: Option<real>, pin: Option<Key>,
                                        r: Reason, atHand: bool)
    ensures Tally(s + t, req, available, pin, r, atHand)
         == Tally(s, req, available, pin, r, atHand) + Tally(t, req, available, pin, r, atHand)
  {
    hide Excludes, AtHand;
    if s == [] {
      assert s + t == t;
    } else {
      TallyAppends(s[1..], t, req, available, pin, r, atHand);
      assert (s + t)[1..] == s[1..] + t;
    }
  }

  lemma {:induction false} TallyInserts(c: Candidate, s: seq<Candidate>, req: Requirements, available: Option<real>, pin: Option<Key>,
                                        r: Reason, atHand: bool)
    ensures Tally(InsertByKey(c, s), req, available, pin, r, atHand)
         == Tally(s, req, available, pin, r, atHand) + Tally([c], req, available, pin, r, atHand)
  {
    hide Excludes, AtHand;
    if s == [] || !s[0].key.Before(c.key) {
      TallyAppends([c], s, req, available, pin, r, atHand);
    } else {
      TallyInserts(c, s[1..], req, available, pin, r, atHand);
      assert InsertByKey(c, s)[1..] == InsertByKey(c, s[1..]);
    }
  }

  lemma {:induction false} TallySorts(s: seq<Candidate>, req: Requirements, available: Option<real>, pin: Option<Key>, r: Reason, atHand: bool)
    ensures Tally(SortByKey(s), req, available, pin, r, atHand) == Tally(s, req, available, pin, r, atHand)
  {
    hide Excludes, AtHand;
    if s != [] {
      TallySorts(s[1..], req, available, pin, r, atHand);
      TallyInserts(s[0], SortByKey(s[1..]), req, available, pin, r, atHand);
      TallyAppends([s[0]], s[1..], req, available, pin, r, atHand);
      assert [s[0]] + s[1..] == s;
    }
  }

  /** The counters hold the tallies. */
  ghost predicate Tallied(counts: Counts, s: seq<Candidate>, req: Requirements, available: Option<real>, pin: Option<Key>, atHand: bool) {
    forall r :: (r in counts <==> Tally(s, req, available, pin, r, atHand) > 0)
             && (r in counts ==> counts[r] == Tally(s, req, available, pin, r, atHand))
  }

  lemma {:induction false} OneMore(s: seq<Candidate>, req: Requirements, available: Option<real>, pin: Option<Key>, r: Reason, atHand: bool)
    requires s != []
    ensures Tally(s, req, available, pin, r, atHand) == Tally(s[..|s| - 1], req, available, pin, r, atHand)
              + if ExclusionReason(s[|s| - 1], req, available, pin) == Some(r) && (atHand ==> AtHand(s[|s| - 1], req)) then 1 else 0
  {
    hide Excludes, AtHand, ExclusionReason;
    TallyAppends(s[..|s| - 1], [s[|s| - 1]], req, available, pin, r, atHand);
    assert s[..|s| - 1] + [s[|s| - 1]] == s;
    ReasonIsTheFirst(s[|s| - 1], req, available, pin, r);
  }

  lemma {:induction false} ExcludedTallies(s: seq<Candidate>, req: Requirements, available: Option<real>, pin: Option<Key>)
    ensures Tallied(Excluded(s, req, available, pin), s, req, available, pin, false)
  {
    hide ExclusionReason, Excludes, AtHand;
    if s != [] {
      ExcludedTallies(s[..|s| - 1], req, available, pin);
      forall r
        ensures var counts := Excluded(s, req, available, pin);
          && (r in counts <==> Tally(s, req, available, pin, r, false) > 0)
          && (r in counts ==> counts[r] == Tally(s, req, available, pin, r, false))
      {
        OneMore(s, req, available, pin, r, false);
        hide Tally;
      }
    }
  }

  lemma {:induction false} AvailableTallies(s: seq<Candidate>, req: Requirements, available: Option<real>, pin: Option<Key>)
    ensures Tallied(AvailableExcluded(s, req, available, pin), s, req, available, pin, true)
  {
    hide ExclusionReason, Excludes, AtHand, Offered;
    if s != [] {
      AvailableTallies(s[..|s| - 1], req, available, pin);
      OfferedIsAtHand(s[|s| - 1], req);
      forall r
        ensures var counts := AvailableExcluded(s, req, available, pin);
          && (r in counts <==> Tally(s, req, available, pin, r, true) > 0)
          && (r in counts ==> counts[r] == Tally(s, req, available, pin, r, true))
      {
        OneMore(s, req, available, pin, r, true);
        hide Tally;
      }
    }
  }

  lemma {:induction false} OfferedIsAtHand(c: Candidate, req: Requirements)
    ensures Offered(c, req) <==> AtHand(c, req)
  {
  }

  /** The counters of an outcome say how many candidates each reason excludes. */
  lemma {:induction false} CountsAreTallies(candidates: seq<Candidate>, req: Requirements, available: Option<real>, pin: Option<Key>)
    ensures match SelectSpec(candidates, req, available, pin)
      case Ok(outcome) => Tallied(outcome.excluded, candidates, req, available, pin, false)
      case Err(_) => true
  {
    SortedTallies(candidates, req, available, pin);
    hide Tallied;
    hide Excluded, Included, AvailableExcluded, Binding, PinReason, Best, Rankable, SortByKey;
  }

  // ----- The constraint that binds -----

  /** The pinned model is among the candidates and excluded for `r`. */
  ghost predicate PinExcluded(candidates: seq<Candidate>, req: Requirements, available: Option<real>, pin: Option<Key>, r: Reason) {
    exists c :: c in candidates && pin == Some(c.key) && Excludes(r, c, req, available, pin)
  }

  ghost predicate SomeExcluded(candidates: seq<Candidate>, req: Requirements, available: Option<real>, pin: Option<Key>, atHand: bool) {
    exists r :: Tally(candidates, req, available, pin, r, atHand) > 0
  }

  /** No other reason excludes more of the candidates, nor as many with a name that comes first. */
  ghost predicate Commonest(r: Reason, candidates: seq<Candidate>, req: Requirements, available: Option<real>, pin: Option<Key>, atHand: bool) {
    var most := Tally(candidates, req, available, pin, r, atHand);
    && most > 0
    && forall q :: q != r ==>
         var n := Tally(candidates, req, available, pin, q, atHand);
         n < most || (n == most && Alphabetical(r) < Alphabetical(q))
  }

  /** The binding constraint is why the pinned model is excluded, where it is; otherwise the commonest
      reason among the candidates at hand, or among all when none at hand is excluded. */
  ghost predicate Binds(binding: Option<Reason>, candidates: seq<Candidate>, req: Requirements, available: Option<real>, pin: Option<Key>) {
    && (forall r :: PinExcluded(candidates, req, available, pin, r) ==> binding == Some(r))
    && ((forall r :: !PinExcluded(candidates, req, available, pin, r)) ==>
          var atHand := SomeExcluded(candidates, req, available, pin, true);
          if SomeExcluded(candidates, req, available, pin, false) then
            binding.Some? && Commonest(binding.value, candidates, req, available, pin, atHand)
          else binding.None?)
  }

  lemma {:induction false} PinReasonIs(s: seq<Candidate>, req: Requirements, available: Option<real>, pin: Option<Key>, r: Reason)
    requires KeysIdentify(s)
    ensures PinReason(s, req, available, pin) == Some(r) <==> PinExcluded(s, req, available, pin, r)
  {
    hide ExclusionReason, Excludes, KeysIdentify;
    if s != [] {
      var last, rest := s[|s| - 1], s[..|s| - 1];
      LastIdentified(s, pin);
      PinReasonIs(rest, req, available, pin, r);
      ReasonIsTheFirst(last, req, available, pin, r);
      PinExcludedLast(s, req, available, pin, r);
      hide PinExcluded;
    }
  }

  lemma {:induction false} LastIdentified(s: seq<Candidate>, pin: Option<Key>)
    requires s != [] && KeysIdentify(s)
    ensures KeysIdentify(s[..|s| - 1])
    ensures pin == Some(s[|s| - 1].key) ==> forall c :: c in s && pin == Some(c.key) ==> c == s[|s| - 1]
  {
    var last, rest := s[|s| - 1], s[..|s| - 1];
    forall c, d | c in rest && d in rest && c.key == d.key ensures c == d {
      assert c in s && d in s;
    }
    forall c | c in s && pin == Some(last.key) && pin == Some(c.key) ensures c == last {
      assert c in s && last in s;
    }
  }

  lemma {:induction false} PinExcludedLast(s: seq<Candidate>, req: Requirements, available: Option<real>, pin: Option<Key>, r: Reason)
    requires s != []
    requires pin == Some(s[|s| - 1].key) ==> forall c :: c in s && pin == Some(c.key) ==> c == s[|s| - 1]
    ensures PinExcluded(s, req, available, pin, r) <==>
      if pin == Some(s[|s| - 1].key) then Excludes(r, s[|s| - 1], req, available, pin)
      else PinExcluded(s[..|s| - 1], req, available, pin, r)
  {
    hide Excludes;
    assert forall c :: c in s <==> c in s[..|s| - 1] || c == s[|s| - 1];
  }

  lemma {:induction false} BindingOf(s: seq<Candidate>, req: Requirements, available: Option<real>, pin: Option<Key>,
                                     pinReason: Option<Reason>, atHand: Counts, all: Counts)
    requires forall r :: pinReason == Some(r) <==> PinExcluded(s, req, available, pin, r)
    requires Tallied(atHand, s, req, available, pin, true) && Tallied(all, s, req, available, pin, false)
    ensures Binds(Binding(pinReason, atHand, all), s, req, available, pin)
  {
    hide PinExcluded, Tally, Alphabetical;
    var binding := Binding(pinReason, atHand, all);
    if pinReason.Some? {
      assert PinExcluded(s, req, available, pin, pinReason.value);
    } else {
      KeysAreTallied(atHand, s, req, available, pin, true);
      KeysAreTallied(all, s, req, available, pin, false);
      if atHand.Keys != {} {
        AtHandIsExcluded(atHand, s, req, available, pin);
      }
    }
  }

  lemma {:induction false} KeysAreTallied(counts: Counts, s: seq<Candidate>, req: Requirements, available: Option<real>, pin: Option<Key>, atHand: bool)
    requires Tallied(counts, s, req, available, pin, atHand)
    ensures counts.Keys != {} <==> SomeExcluded(s, req, available, pin, atHand)
  {
    hide Tally;
    if counts.Keys != {} {
      var r :| r in counts;
      assert Tally(s, req, available, pin, r, atHand) > 0;
    }
  }

  lemma {:induction false} AtHandIsExcluded(counts: Counts, s: seq<Candidate>, req: Requirements, available: Option<real>, pin: Option<Key>)
    requires Tallied(counts, s, req, available, pin, true) && counts.Keys != {}
    ensures SomeExcluded(s, req, available, pin, false)
  {
    hide Tally;
    var r :| r in counts;
    FewerAtHand(s, req, available, pin, r);
  }

  lemma {:induction false} FewerAtHand(s: seq<Candidate>, req: Requirements, available: Option<real>, pin: Option<Key>, r: Reason)
    ensures Tally(s, req, available, pin, r, true) <= Tally(s, req, available, pin, r, false)
  {
    hide Excludes, AtHand;
    if s != [] {
      FewerAtHand(s[1..], req, available, pin, r);
    }
  }

  /** What the outcome names as the binding constraint. */
  lemma {:induction false} BindingConstraint(candidates: seq<Candidate>, req: Requirements, available: Option<real>, pin: Option<Key>)
    requires DistinctKeys(candidates)
    ensures match SelectSpec(candidates, req, available, pin)
      case Ok(outcome) => Binds(outcome.binding, candidates, req, available, pin)
      case Err(_) => true
  {
    hide Tally, ExclusionReason, Excludes;
    var s := SortByKey(candidates);
    SortedSame(candidates);
    DistinctIdentify(candidates);
    hide DistinctKeys;
    forall r
      ensures PinReason(s, req, available, pin) == Some(r) <==> PinExcluded(s, req, available, pin, r)
      ensures PinExcluded(s, req, available, pin, r) <==> PinExcluded(candidates, req, available, pin, r)
    {
      PinReasonIs(s, req, available, pin, r);
    }
    hide PinExcluded;
    SortedTallies(candidates, req, available, pin);
    BindingOf(candidates, req, available, pin, PinReason(s, req, available, pin),
              AvailableExcluded(s, req, available, pin), Excluded(s, req, available, pin));
    hide Excluded, Included, AvailableExcluded, Binding, PinReason, Best, Rankable, SortByKey, Binds, Tallied;
  }

  lemma {:induction false} DistinctIdentify(candidates: seq<Candidate>)
    requires DistinctKeys(candidates)
    ensures KeysIdentify(candidates) && KeysIdentify(SortByKey(candidates))
  {
    SortedSame(candidates);
  }

  lemma {:induction false} SortedTallies(candidates: seq<Candidate>, req: Requirements, available: Option<real>, pin: Option<Key>)
    ensures Tallied(Excluded(SortByKey(candidates), req, available, pin), candidates, req, available, pin, false)
    ensures Tallied(AvailableExcluded(SortByKey(candidates), req, available, pin), candidates, req, available, pin, true)
  {
    hide Tally, Excluded, AvailableExcluded;
    var s := SortByKey(candidates);
    ExcludedTallies(s, req, available, pin);
    AvailableTallies(s, req, available, pin);
    forall r, atHand ensures Tally(s, req, available, pin, r, atHand) == Tally(candidates, req, available, pin, r, atHand) {
      TallySorts(candidates, req, available, pin, r, atHand);
    }
  }
}
