/** Capability floors (routing/requirements.py) and their escalation (runtime/escalation.py), in whole
    hundredths. */
module Floors {
  import opened Prelude
  import opened Selector

  datatype Role = Explorer | Tester | Researcher | GeneralPurpose | Implementer | Reviewer | Lead | UnknownRole

  datatype Risk = Trivial | Routine | Bounded | Complex | HighRisk

  datatype FloorError = RoleUnknown | HardMinimumInvalid | HintInvalid

  function RoleFloor(role: Role): Option<int> {
    match role
    case Explorer => Some(35)
    case Tester => Some(40)
    case Researcher => Some(45)
    case GeneralPurpose => Some(50)
    case Implementer => Some(50)
    case Reviewer => Some(55)
    case Lead => Some(60)
    case UnknownRole => None
  }

  function RiskFloor(risk: Risk): int {
    match risk
    case Trivial => 25
    case Routine => 35
    case Bounded => 45
    case Complex => 60
    case HighRisk => 70
  }

  function Adjustment(mode: RoutingMode): int {
    match mode
    case Economy => -10
    case Quality => 15
    case _ => 0
  }

  function Larger(a: int, b: int): int {
    if a >= b then a else b
  }

  function Smaller(a: int, b: int): int {
    if a <= b then a else b
  }

  /** The task's own demand, before the routing mode. */
  function BaseFloor(role: Role, risk: Risk, hint: Option<int>): int
    requires RoleFloor(role).Some?
  {
    var base := Larger(RoleFloor(role).value, RiskFloor(risk));
    if hint.None? then base else Larger(base, hint.value)
  }

  function BuildFloor(role: Role, risk: Risk, mode: RoutingMode, hardMin: int, hint: Option<int>, escalated: bool)
    : Result<Option<int>, FloorError>
  {
    if RoleFloor(role).None? then Err(RoleUnknown)
    else if !(0 <= hardMin <= RoleFloor(role).value) then Err(HardMinimumInvalid)
    else if hint.Some? && !(0 <= hint.value <= 100) then Err(HintInvalid)
    else if mode == Manual then Ok(None)
    else
      var raised := BaseFloor(role, risk, hint) + Adjustment(mode) + if escalated then 15 else 0;
      Ok(Some(Smaller(Larger(raised, hardMin), if escalated then 90 else 85)))
  }

  /** The published floors of the roles, for tasks without risk, and of the risks, for an explorer. */
  lemma {:induction false} PublishedFloors(role: Role, risk: Risk)
    ensures BuildFloor(role, Trivial, Auto, 0, None, false) ==
      if role == UnknownRole then Err(RoleUnknown)
      else Ok(Some(match role
                   case Explorer => 35 case Tester => 40 case Researcher => 45 case GeneralPurpose => 50
                   case Implementer => 50 case Reviewer => 55 case _ => 60))
    ensures BuildFloor(Explorer, risk, Auto, 0, None, false) ==
      Ok(Some(match risk case Trivial => 35 case Routine => 35 case Bounded => 45 case Complex => 60 case HighRisk => 70))
  {
  }

  /** In automatic mode a floor is the highest of what the role alone, the risk alone and the hint would
      set, up to the cap; each of them can only raise it. */
  lemma {:induction false} HighestDemandCounts(role: Role, risk: Risk, hardMin: int, hint: Option<int>)
    requires BuildFloor(role, risk, Auto, hardMin, hint, false).Ok?
    ensures var byRole, byRisk := BuildFloor(role, Trivial, Auto, 0, None, false).value.value,
                                  BuildFloor(Explorer, risk, Auto, 0, None, false).value.value;
      var floor := BuildFloor(role, risk, Auto, hardMin, hint, false).value;
      && floor.Some? && byRole <= floor.value && byRisk <= floor.value
      && (hint.Some? ==> floor.value >= Smaller(hint.value, 85))
      && (floor.value == byRole || floor.value == byRisk || (hint.Some? && floor.value == Smaller(hint.value, 85)))
  {
  }

  /** Economy takes at most ten off the floor and never goes below the hard minimum; quality and an
      escalation add fifteen each, up to the caps; manual mode has no floor. */
  lemma {:induction false} ModesCompared(role: Role, risk: Risk, mode: RoutingMode, hardMin: int, hint: Option<int>)
    requires BuildFloor(role, risk, Auto, hardMin, hint, false).Ok?
    ensures BuildFloor(role, risk, mode, hardMin, hint, false).Ok? && BuildFloor(role, risk, mode, hardMin, hint, true).Ok?
    ensures var auto, floor, escalated := BuildFloor(role, risk, Auto, hardMin, hint, false).value.value,
              BuildFloor(role, risk, mode, hardMin, hint, false).value, BuildFloor(role, risk, mode, hardMin, hint, true).value;
      && (mode == Manual <==> floor.None?) && (mode == Manual <==> escalated.None?)
      && (mode == Auto ==> floor.value == auto)
      && (mode == Quality ==> floor.value == Smaller(auto + 15, 85))
      && (mode == Economy ==>
            && hardMin <= floor.value && auto - 10 <= floor.value <= auto
            && (floor.value > auto - 10 ==> floor.value == hardMin || auto == 85))
      && (mode != Manual ==> floor.value <= 85 && floor.value <= escalated.value <= 90)
  {
    assert BaseFloor(role, risk, hint) >= RoleFloor(role).value;
  }

  /** The builder sets a floor in every mode but manual, so a request that carries what it built never
      ends in the failed ranking assertion. */
  lemma {:induction false} BuiltRequestsAreRanked(role: Role, risk: Risk, hardMin: int, hint: Option<int>, candidates: seq<Candidate>,
                                                  req: Requirements, available: Option<real>, pin: Option<Key>)
    requires BuildFloor(role, risk, req.mode, hardMin, hint, req.escalated).Ok?
    requires BuildFloor(role, risk, req.mode, hardMin, hint, req.escalated).value.Some? <==> req.capabilityFloor.Some?
    requires req.mode == Manual ==> pin.Some?
    ensures SelectSpec(candidates, req, available, pin).Ok?
  {
    hide SelectSpec;
    ErrsExactly(candidates, req, available, pin);
    if req.mode != Manual {
      FloorExcludesUnrated(candidates, req, available, pin);
    }
  }

  function EscalationFloor(current: Option<int>): Option<int> {
    if current.None? then None else Some(Smaller(current.value + 15, 90))
  }

  /** The check of the task graph on its second assignment. */
  predicate Raised(first: Option<int>, second: Option<int>) {
    var required := EscalationFloor(first);
    required.Some? && second.Some? ==> second.value >= required.value
  }

  /** The floor built for a second attempt passes the task graph's check, except exactly in economy mode
      when the hard minimum is less than ten below the base, so that it lifted the first floor. */
  lemma {:induction false} EscalatedFloorPasses(role: Role, risk: Risk, mode: RoutingMode, hardMin: int, hint: Option<int>)
    requires BuildFloor(role, risk, mode, hardMin, hint, false).Ok?
    ensures BuildFloor(role, risk, mode, hardMin, hint, true).Ok?
    ensures var first, second := BuildFloor(role, risk, mode, hardMin, hint, false).value, BuildFloor(role, risk, mode, hardMin, hint, true).value;
      && (mode == Auto || mode == Quality ==> second == EscalationFloor(first))
      && (Raised(first, second) <==>
            mode != Economy || hardMin <= BaseFloor(role, risk, hint) - 10)
      && (first.Some? ==> second.Some? && 0 <= first.value <= second.value <= 90)
  {
    assert BaseFloor(role, risk, hint) >= RoleFloor(role).value;
  }

  /** An explorer's trivial task in economy mode, with the role's own floor as hard minimum: the first
      floor is 35, the second only 40, and the check asks for 50. */
  lemma {:induction false} EconomyFloorFails()
    ensures BuildFloor(Explorer, Trivial, Economy, 35, None, false) == Ok(Some(35))
    ensures BuildFloor(Explorer, Trivial, Economy, 35, None, true) == Ok(Some(40))
    ensures EscalationFloor(Some(35)) == Some(50) && !Raised(Some(35), Some(40))
  {
    assert BaseFloor(Explorer, Trivial, None) == 35;
  }
}
