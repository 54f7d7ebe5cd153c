/**
 The safety model: what an edge and a turn cost a given rider
 (internal/safety/cost.go, turn.go, profile.go and params.go).
 */
module Safety {
  import opened Wrappers
  import Geo
  import opened RoadGraph
  import opened Walks
  import opened Search
  import Alternatives
  import SearchResults

  // ------------------------------------------------------------- parameters

  const LTS_PENALTY: seq<real> := [3.0, 0.0, 0.35, 1.6, 5.0]
  const OVER_THRESHOLD_PENALTY: real := 12.0
  const GRADE_DEADBAND_PCT: real := 3.0
  const CLIMB_PENALTY_PER_PCT: real := 0.12
  const DESCENT_PENALTY_PER_PCT: real := 0.06
  const STEEP_DESCENT_PCT: real := 8.0
  const STEEP_DESCENT_PENALTY: real := 0.6
  const CRASH_PENALTY_SCALE: real := 2.5
  const UNLIT_PENALTY: real := 0.8
  const HAZARD_PENALTY_SCALE: real := 1.5
  const TURN_STRAIGHT_M: real := 4.0
  const TURN_RIGHT_M: real := 10.0
  const TURN_LEFT_M: real := 40.0
  const TURN_U_TURN_M: real := 300.0
  const STRAIGHT_ANGLE_DEG: real := 35.0
  const CROSSING_STRESS_FACTOR: seq<real> := [1.5, 0.3, 0.6, 1.5, 4.0]
  const PROTECTED_CONTINUATION_FACTOR: real := 0.15

  function SurfacePenalty(s: Surface): real {
    match s
    case SurfaceUnknown => 0.0
    case Paved => 0.0
    case Compacted => 0.25
    case Loose => 1.2
    case BadSurface => 4.0
  }

  function ControlFactor(c: Control): real {
    match c
    case NoControl => 1.0
    case Signal => 0.25
    case Stop => 0.7
    case Yield => 0.85
    case Crossing => 0.5
    case Roundabout => 0.8
  }

  // --------------------------------------------------------------- profiles

  datatype Profile = Profile(
    maxLTS: nat,
    stressBudgetM: real,
    weightLTS: real,
    weightCrash: real,
    weightGrade: real,
    weightSurface: real,
    weightLight: real,
    weightTurn: real,
    weightHazard: real,
    maxDetourRatio: real,
    night: bool)
  {
    function Weights(): seq<real> {
      [weightLTS, weightCrash, weightGrade, weightSurface, weightLight, weightTurn, weightHazard]
    }
  }

  datatype ProfileError = BadMaxLTS | NegativeWeight | ExcessiveWeight | BadDetourRatio | BadBudget

  /** The first complaint about a caller-supplied profile, if any. Of several bad weights the original names an arbitrary one. */
  function Validate(p: Profile): (e: Option<ProfileError>)
    ensures e == None <==>
              && 1 <= p.maxLTS <= 4
              && (forall i :: 0 <= i < 7 ==> 0.0 <= p.Weights()[i] <= 10.0)
              && 1.0 <= p.maxDetourRatio <= 10.0
              && 0.0 <= p.stressBudgetM <= 20000.0
  {
    if p.maxLTS < 1 || p.maxLTS > 4 then Some(BadMaxLTS)
    else if exists i :: 0 <= i < 7 && p.Weights()[i] < 0.0 then Some(NegativeWeight)
    else if exists i :: 0 <= i < 7 && p.Weights()[i] > 10.0 then Some(ExcessiveWeight)
    else if p.maxDetourRatio < 1.0 || p.maxDetourRatio > 10.0 then Some(BadDetourRatio)
    else if p.stressBudgetM < 0.0 || p.stressBudgetM > 20000.0 then Some(BadBudget)
    else None
  }

  const CAUTIOUS := Profile(2, 400.0, 1.5, 1.2, 1.0, 1.2, 1.0, 1.5, 1.5, 2.5, false)
  const COMFORTABLE := Profile(3, 800.0, 1.0, 1.0, 1.0, 1.0, 1.0, 1.0, 1.0, 1.8, false)
  const CONFIDENT := Profile(4, 2000.0, 0.35, 0.6, 0.5, 0.6, 0.5, 0.5, 0.6, 1.35, false)
  const SHORTEST := Profile(4, 0.0, 0.0, 0.0, 0.0, 0.0, 0.0, 0.0, 0.0, 1.0, false)

  function ProfileByName(name: string): Option<Profile> {
    match name
    case "cautious" => Some(CAUTIOUS)
    case "comfortable" => Some(COMFORTABLE)
    case "" => Some(COMFORTABLE)
    case "confident" => Some(CONFIDENT)
    case "shortest" => Some(SHORTEST)
    case _ => None
  }

  /** Every built-in profile passes the check custom ones must pass. */
  lemma BuiltInsAreValid(name: string)
    requires ProfileByName(name).Some?
    ensures Validate(ProfileByName(name).value) == None
  {
  }

  // ------------------------------------------------------------------ prices

  function Abs(v: real): real {
    if v < 0.0 then -v else v
  }

  /** Hills cost nothing within the deadband, climbs more than descents, and steep descents a surcharge. */
  function GradePenalty(pct: real): real {
    if Abs(pct) <= GRADE_DEADBAND_PCT then 0.0
    else
      var excess := Abs(pct) - GRADE_DEADBAND_PCT;
      if pct > 0.0 then excess * CLIMB_PENALTY_PER_PCT
      else excess * DESCENT_PENALTY_PER_PCT + if Abs(pct) >= STEEP_DESCENT_PCT then STEEP_DESCENT_PENALTY else 0.0
  }

  datatype TurnKind = Straight | Right | Left | UTurn

  /** The remainder with the sign of the dividend. */
  function TruncatedMod360(x: real): real {
    if x >= 0.0 then x - 360.0 * (x / 360.0).Floor as real else x + 360.0 * (-x / 360.0).Floor as real
  }

  function TurnAngleDeg(from: real, to: real): real {
    TruncatedMod360(to - from + 540.0) - 180.0
  }

  /** How much worse the worst street at a junction makes crossing it; levels outside the table count as unscored. */
  function CrossingFactor(lts: nat): real {
    if lts < |CROSSING_STRESS_FACTOR| then CROSSING_STRESS_FACTOR[lts] else CROSSING_STRESS_FACTOR[0]
  }

  predicate IsSeparated(i: Infra) {
    i == ProtectedTrack || i == CyclePath
  }

  /** A manoeuvre's price before the rider's weight: hardly anything when the rider stays separated throughout. */
  function Conflict(base: real, stress: real, control: real, separated: bool): real {
    var cost := base * stress * control;
    if separated then cost * PROTECTED_CONTINUATION_FACTOR else cost
  }

  /** A profile with the hazard snapshot taken when the request started. */
  datatype Model = Model(profile: Profile, hazards: seq<real>) {
    function HazardScore(e: nat): real {
      if e >= |hazards| then 0.0 else hazards[e]
    }

    /** Traffic stress, with the surcharge for stress above the rider's threshold. */
    function StressTerm(lts: nat): real {
      (if lts < |LTS_PENALTY| then profile.weightLTS * LTS_PENALTY[lts] else 0.0)
      + (if lts > profile.maxLTS then profile.weightLTS * OVER_THRESHOLD_PENALTY else 0.0)
    }

    /** Crash history; a score of zero or less counts for nothing. */
    function CrashTerm(score: real): real {
      if score > 0.0 then profile.weightCrash * (CRASH_PENALTY_SCALE * score) else 0.0
    }

    /** Surface and gradient of the road itself. */
    function RoadTerm(surface: Surface, gradePct: real): real {
      profile.weightSurface * SurfacePenalty(surface) + profile.weightGrade * GradePenalty(gradePct)
    }

    function HazardTerm(score: real): real {
      if score > 0.0 then profile.weightHazard * (HAZARD_PENALTY_SCALE * score) else 0.0
    }

    /** Darkness counts only at night and only where the way is known to be unlit. */
    function LightTerm(lit: Lit): real {
      if profile.night && lit == LitNo then profile.weightLight * UNLIT_PENALTY else 0.0
    }

    /** How much worse than a perfect protected track a metre of this edge is. */
    function Multiplier(g: Graph, e: nat): real
      requires g.HasAttributes() && e < g.NumEdges()
    {
      1.0 + StressTerm(g.lts[e]) + CrashTerm(g.crashScore[e]) + RoadTerm(g.surface[e], g.gradePct[e])
      + HazardTerm(HazardScore(e)) + LightTerm(g.lit[e])
    }

    function EdgeCost(g: Graph, e: nat): real
      requires g.HasAttributes() && e < g.NumEdges() && |g.lengthM| == g.NumEdges()
    {
      g.lengthM[e] * Multiplier(g, e)
    }

    /** The edge exceeds the rider's comfort threshold; unscored edges never do. */
    predicate Over(g: Graph, e: nat)
      requires g.HasAttributes() && e < g.NumEdges()
    {
      g.lts[e] != 0 && g.lts[e] > profile.maxLTS
    }

    /** The hard filter, in force only when there is no budget at all. */
    predicate Allow(g: Graph, e: nat)
      requires g.HasAttributes() && e < g.NumEdges()
    {
      profile.stressBudgetM > 0.0 || !Over(g, e)
    }

    function ClassifyTurn(g: Graph, e: nat, f: nat): TurnKind
      requires g.WellFormed() && g.HasAttributes() && e < g.NumEdges() && f < g.NumEdges()
    {
      if g.IsReverseOf(e, f) then UTurn
      else
        var angle := TurnAngleDeg(g.bearingEnd[e], g.bearingStart[f]);
        if angle <= -STRAIGHT_ANGLE_DEG then Left
        else if angle >= STRAIGHT_ANGLE_DEG then Right
        else Straight
    }

    function BaseTurn(kind: TurnKind): real {
      match kind
      case Left => TURN_LEFT_M
      case Right => TURN_RIGHT_M
      case Straight => TURN_STRAIGHT_M
      case UTurn => TURN_U_TURN_M
    }

    /** A movement through a junction, scaled by what is crossed, how it is controlled and whether the rider stays separated. */
    function TurnCost(g: Graph, e: nat, f: nat): real
      requires g.WellFormed() && g.HasAttributes() && e < g.NumEdges() && f < g.NumEdges()
    {
      var kind := ClassifyTurn(g, e, f);
      if kind == UTurn then
        profile.weightTurn * TURN_U_TURN_M
      else
        profile.weightTurn * Conflict(
          BaseTurn(kind), CrossingFactor(g.nodeMaxLTS[g.to[e]]), ControlFactor(g.control[g.to[e]]), IsSeparated(g.infra[e]) && IsSeparated(g.infra[f]))
    }
  }

  // ------------------------------------------------------- what the floor buys

  lemma Product(a: real, b: real)
    requires 0.0 <= a && 0.0 <= b
    ensures 0.0 <= a * b
  {
  }

  lemma GradePenaltyNonNegative(pct: real)
    ensures 0.0 <= GradePenalty(pct)
  {
  }

  /** No weight is negative: the part of validation the search depends on. */
  predicate WeightsNonNegative(p: Profile) {
    forall i :: 0 <= i < 7 ==> 0.0 <= p.Weights()[i]
  }

  lemma WeightedTermsNonNegative(m: Model, lts: nat, crash: real, hazard: real, lit: Lit)
    requires WeightsNonNegative(m.profile)
    ensures 0.0 <= m.StressTerm(lts) && 0.0 <= m.CrashTerm(crash) && 0.0 <= m.HazardTerm(hazard) && 0.0 <= m.LightTerm(lit)
  {
    var w := m.profile.Weights();
    assert 0.0 <= w[0] && 0.0 <= w[1] && 0.0 <= w[4] && 0.0 <= w[6];
    if crash > 0.0 {
      Product(m.profile.weightCrash, CRASH_PENALTY_SCALE * crash);
    }
    if hazard > 0.0 {
      Product(m.profile.weightHazard, HAZARD_PENALTY_SCALE * hazard);
    }
  }

  lemma RoadTermNonNegative(m: Model, s: Surface, pct: real)
    requires WeightsNonNegative(m.profile)
    ensures 0.0 <= m.RoadTerm(s, pct)
  {
    var w := m.profile.Weights();
    assert 0.0 <= w[2] && 0.0 <= w[3];
    GradePenaltyNonNegative(pct);
    Product(m.profile.weightSurface, SurfacePenalty(s));
    Product(m.profile.weightGrade, GradePenalty(pct));
  }

  /** The multiplier's floor: a metre never counts for less than a metre. */
  lemma MultiplierFloor(m: Model, g: Graph, e: nat)
    requires g.HasAttributes() && e < g.NumEdges() && WeightsNonNegative(m.profile)
    ensures 1.0 <= m.Multiplier(g, e)
  {
    var stress, crash, road := m.StressTerm(g.lts[e]), m.CrashTerm(g.crashScore[e]), m.RoadTerm(g.surface[e], g.gradePct[e]);
    var hazard, light := m.HazardTerm(m.HazardScore(e)), m.LightTerm(g.lit[e]);
    assert m.Multiplier(g, e) == 1.0 + stress + crash + road + hazard + light;
    WeightedTermsNonNegative(m, g.lts[e], g.crashScore[e], m.HazardScore(e), g.lit[e]);
    RoadTermNonNegative(m, g.surface[e], g.gradePct[e]);
  }

  lemma EdgeCostFloor(m: Model, g: Graph, e: nat)
    requires g.WellFormed() && g.HasAttributes() && e < g.NumEdges() && WeightsNonNegative(m.profile)
    ensures 0.0 <= g.lengthM[e] <= m.EdgeCost(g, e)
  {
    MultiplierFloor(m, g, e);
    Product(g.lengthM[e], m.Multiplier(g, e) - 1.0);
    assert g.lengthM[e] * (m.Multiplier(g, e) - 1.0) == m.EdgeCost(g, e) - g.lengthM[e];
  }

  lemma ConflictNonNegative(base: real, stress: real, control: real, separated: bool, weight: real)
    requires 0.0 <= base && 0.0 <= stress && 0.0 <= control && 0.0 <= weight
    ensures 0.0 <= weight * Conflict(base, stress, control, separated)
  {
    Product(base, stress);
    Product(base * stress, control);
    Product(weight, Conflict(base, stress, control, separated));
  }

  lemma TurnCostNonNegative(m: Model, g: Graph, e: nat, f: nat)
    requires g.WellFormed() && g.HasAttributes() && e < g.NumEdges() && f < g.NumEdges() && WeightsNonNegative(m.profile)
    ensures 0.0 <= m.TurnCost(g, e, f)
  {
    assert 0.0 <= m.profile.Weights()[5];
    var kind, node := m.ClassifyTurn(g, e, f), g.to[e];
    if kind != UTurn {
      ConflictNonNegative(
        m.BaseTurn(kind), CrossingFactor(g.nodeMaxLTS[node]), ControlFactor(g.control[node]), IsSeparated(g.infra[e]) && IsSeparated(g.infra[f]),
        m.profile.weightTurn);
    }
  }

  // ------------------------------------------------------------- consistency

  /** The options the route handler searches with. */
  function RouteOptions(m: Model, g: Graph): Options
    requires g.WellFormed() && g.HasAttributes()
  {
    Options(
      (e: nat) => if e < g.NumEdges() then m.EdgeCost(g, e) else 0.0,
      Some((e: nat, f: nat) => if e < g.NumEdges() && f < g.NumEdges() then m.TurnCost(g, e, f) else 0.0),
      Some((e: nat) => e < g.NumEdges() && m.Allow(g, e)),
      Some((e: nat) => e < g.NumEdges() && m.Over(g, e)),
      m.profile.stressBudgetM, 0, 0, false)
  }

  /** No edge is shorter than the straight line between its ends. */
  ghost predicate RoadsCoverDistance(g: Graph)
    requires g.WellFormed()
  {
    forall e :: 0 <= e < g.NumEdges() ==> g.metric(g.loc[g.from[e]], g.loc[g.to[e]]) <= g.lengthM[e]
  }

  /**
   Consistency is structural: any edge costs that are at least the edges'
   lengths, with turns that are not negative, make the straight-line estimate
   consistent.
   */
  lemma LengthFloorIsConsistent(g: Graph, goal: nat, opt: Options)
    requires g.WellFormed() && goal < g.NumNodes() && Geo.IsMetric(g.metric) && RoadsCoverDistance(g)
    requires forall e: nat :: e < g.NumEdges() ==> g.lengthM[e] <= opt.edgeCost(e)
    requires forall e: nat, f: nat {:trigger opt.Turn(e, f)} :: 0.0 <= opt.Turn(e, f)
    ensures ConsistentEstimate(g, goal, opt)
  {
    forall e: nat, f: nat | e < g.NumEdges() && f < g.NumEdges() && g.to[e] == g.from[f]
      ensures Estimate(g, goal, opt, e) <= opt.Turn(e, f) + opt.edgeCost(f) + Estimate(g, goal, opt, f)
    {
      var a, b, c := g.loc[g.to[e]], g.loc[g.to[f]], g.loc[goal];
      assert g.metric(a, c) <= g.metric(a, b) + g.metric(b, c);
      assert g.metric(a, b) <= g.lengthM[f];
    }
  }

  /** No edge is shorter than the straight line between its ends by more than `eps`. */
  ghost predicate RoadsNearlyCoverDistance(g: Graph, eps: real)
    requires g.WellFormed()
  {
    forall e :: 0 <= e < g.NumEdges() ==> g.metric(g.loc[g.from[e]], g.loc[g.to[e]]) <= g.lengthM[e] + eps
  }

  /** Lengths that fall short by at most `eps` leave the estimate consistent but for `eps` a step. */
  lemma LengthFloorIsNearlyConsistent(g: Graph, goal: nat, opt: Options, eps: real)
    requires g.WellFormed() && goal < g.NumNodes() && Geo.IsMetric(g.metric) && 0.0 <= eps && RoadsNearlyCoverDistance(g, eps)
    requires forall e: nat :: e < g.NumEdges() ==> g.lengthM[e] <= opt.edgeCost(e)
    requires forall e: nat, f: nat {:trigger opt.Turn(e, f)} :: 0.0 <= opt.Turn(e, f)
    ensures NearlyConsistentEstimate(g, goal, opt, eps)
  {
    forall e: nat, f: nat | e < g.NumEdges() && f < g.NumEdges() && g.to[e] == g.from[f]
      ensures Estimate(g, goal, opt, e) <= opt.Turn(e, f) + opt.edgeCost(f) + Estimate(g, goal, opt, f) + eps
    {
      var a, b, c := g.loc[g.to[e]], g.loc[g.to[f]], g.loc[goal];
      assert g.metric(a, c) <= g.metric(a, b) + g.metric(b, c);
      assert g.metric(a, b) <= g.lengthM[f] + eps;
    }
  }

  /** The safety model's prices are at least the lengths and its turns not negative, for every profile with no negative weight. */
  lemma ModelHasFloor(m: Model, g: Graph)
    requires g.WellFormed() && g.HasAttributes() && WeightsNonNegative(m.profile)
    ensures forall e: nat :: e < g.NumEdges() ==> g.lengthM[e] <= RouteOptions(m, g).edgeCost(e)
    ensures forall e: nat, f: nat {:trigger RouteOptions(m, g).Turn(e, f)} :: 0.0 <= RouteOptions(m, g).Turn(e, f)
  {
    var opt := RouteOptions(m, g);
    forall e: nat | e < g.NumEdges() ensures g.lengthM[e] <= opt.edgeCost(e) {
      EdgeCostFloor(m, g, e);
    }
    forall e: nat, f: nat ensures 0.0 <= opt.Turn(e, f) {
      if e < g.NumEdges() && f < g.NumEdges() {
        TurnCostNonNegative(m, g, e, f);
      }
    }
  }

  /** So they make the router's estimate consistent on a graph whose roads cover distance. */
  lemma ModelIsConsistent(m: Model, g: Graph, goal: nat)
    requires g.WellFormed() && g.HasAttributes() && goal < g.NumNodes()
    requires Geo.IsMetric(g.metric) && RoadsCoverDistance(g) && WeightsNonNegative(m.profile)
    ensures ConsistentEstimate(g, goal, RouteOptions(m, g))
  {
    ModelHasFloor(m, g);
    LengthFloorIsConsistent(g, goal, RouteOptions(m, g));
  }

  /** And consistent but for `eps` a step on one whose roads fall short by at most that. */
  lemma ModelIsNearlyConsistent(m: Model, g: Graph, goal: nat, eps: real)
    requires g.WellFormed() && g.HasAttributes() && goal < g.NumNodes() && 0.0 <= eps
    requires Geo.IsMetric(g.metric) && RoadsNearlyCoverDistance(g, eps) && WeightsNonNegative(m.profile)
    ensures NearlyConsistentEstimate(g, goal, RouteOptions(m, g), eps)
  {
    ModelHasFloor(m, g);
    LengthFloorIsNearlyConsistent(g, goal, RouteOptions(m, g), eps);
  }

  /** Nor are any of its prices negative, which is what alternatives rely on. */
  lemma ModelPricesNonNegative(m: Model, g: Graph)
    requires g.WellFormed() && g.HasAttributes() && WeightsNonNegative(m.profile)
    ensures Alternatives.NonNegative(g, RouteOptions(m, g))
  {
    var opt := RouteOptions(m, g);
    forall e: nat | e < g.NumEdges() ensures 0.0 <= opt.edgeCost(e) {
      EdgeCostFloor(m, g, e);
    }
    forall e: nat, f: nat ensures 0.0 <= opt.Turn(e, f) {
      if e < g.NumEdges() && f < g.NumEdges() {
        TurnCostNonNegative(m, g, e, f);
      }
    }
  }

  /** With no stress budget the hard filter lets through exactly the edges within the rider's threshold. */
  lemma ZeroBudgetFilter(m: Model, g: Graph, p: seq<nat>)
    requires g.WellFormed() && g.HasAttributes() && m.profile.stressBudgetM <= 0.0
    requires forall i :: 0 <= i < |p| ==> p[i] < g.NumEdges()
    ensures Permitted(RouteOptions(m, g), p) <==> forall i :: 0 <= i < |p| ==> !RouteOptions(m, g).IsOver(p[i])
  {
    var opt := RouteOptions(m, g);
    assert forall i :: 0 <= i < |p| ==> (opt.Allows(p[i]) <==> !opt.IsOver(p[i]));
  }

  /** So a search with no stress budget is exact, and what bounds its alternatives holds. */
  lemma ZeroBudgetNothingOver(m: Model, g: Graph)
    requires g.WellFormed() && g.HasAttributes() && m.profile.stressBudgetM <= 0.0
    ensures SearchResults.NothingOver(g, RouteOptions(m, g))
  {
  }

  /** The alternatives the route handler offers a rider with no stress budget all cost between once and twice the primary. */
  lemma ZeroBudgetAlternatives(m: Model, g: Graph, start: int, goal: nat, n: int, routes: seq<Path>, tried: seq<Path>)
    requires g.WellFormed() && g.HasAttributes() && goal < g.NumNodes() && m.profile.stressBudgetM <= 0.0
    requires Geo.IsMetric(g.metric) && RoadsCoverDistance(g) && WeightsNonNegative(m.profile)
    requires Alternatives.Offered(g, start, goal, RouteOptions(m, g), n, routes, tried)
    ensures forall i :: 0 <= i < |tried| ==> routes[0].cost <= tried[i].cost <= Alternatives.ALTERNATIVE_PENALTY * routes[0].cost
  {
    ModelIsConsistent(m, g, goal);
    ModelPricesNonNegative(m, g);
    ZeroBudgetNothingOver(m, g);
    Alternatives.FilteredAreWithinTwice(g, start, goal, RouteOptions(m, g), n, routes, tried);
  }
}
