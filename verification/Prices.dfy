/**
 What makes a street dear (internal/safety/cost.go:38-139): every attribute that
 gets worse raises the price or leaves it, and nothing but attributes counts.
 */
module Prices {
  import opened RoadGraph
  import opened Safety

  lemma Weigh(weight: real, a: real, b: real)
    requires 0.0 <= weight && a <= b
    ensures weight * a <= weight * b
  {
  }

  /** From level 1 to 4 a street costs no less the more stressful it is, and from the rider's threshold on the surcharge is added. */
  lemma StressRises(m: Model, a: nat, b: nat)
    requires WeightsNonNegative(m.profile) && 1 <= a <= b <= 4
    ensures m.StressTerm(a) <= m.StressTerm(b)
    ensures a <= m.profile.maxLTS < b ==> m.StressTerm(a) + m.profile.weightLTS * 12.0 <= m.StressTerm(b)
  {
    assert 0.0 <= m.profile.Weights()[0];
    Weigh(m.profile.weightLTS, LTS_PENALTY[a], LTS_PENALTY[b]);
    Weigh(m.profile.weightLTS, 0.0, OVER_THRESHOLD_PENALTY);
  }

  /** A higher threshold makes no level dearer. */
  lemma ThresholdHelps(m: Model, higher: nat, lts: nat)
    requires WeightsNonNegative(m.profile) && m.profile.maxLTS <= higher
    ensures m.(profile := m.profile.(maxLTS := higher)).StressTerm(lts) <= m.StressTerm(lts)
  {
    assert 0.0 <= m.profile.Weights()[0];
    Weigh(m.profile.weightLTS, 0.0, OVER_THRESHOLD_PENALTY);
  }

  function Roughness(s: Surface): nat {
    match s
    case SurfaceUnknown => 0
    case Paved => 0
    case Compacted => 1
    case Loose => 2
    case BadSurface => 3
  }

  lemma RoughIsDearer(a: Surface, b: Surface)
    ensures Roughness(a) <= Roughness(b) <==> SurfacePenalty(a) <= SurfacePenalty(b)
  {
  }

  /** Steeper costs no less, up or down. */
  lemma SteepIsDearer(a: real, b: real)
    requires 0.0 <= a <= b || b <= a <= 0.0
    ensures GradePenalty(a) <= GradePenalty(b)
  {
  }

  /** A climb is worse than the descent of equal gradient, until the descent is steep. */
  lemma GradeIsAsymmetric(pct: real)
    requires 3.0 < pct
    ensures pct < 8.0 ==> GradePenalty(-pct) < GradePenalty(pct)
    ensures 8.0 <= pct < 13.0 ==> GradePenalty(pct) < GradePenalty(-pct)
    ensures 13.0 <= pct ==> GradePenalty(-pct) <= GradePenalty(pct)
  {
  }

  /** Street `e` is in no respect worse than street `f`. */
  predicate NoWorse(m: Model, g: Graph, e: nat, f: nat)
    requires g.HasAttributes() && e < g.NumEdges() && f < g.NumEdges()
  {
    && 1 <= g.lts[e] <= g.lts[f] <= 4
    && g.crashScore[e] <= g.crashScore[f]
    && Roughness(g.surface[e]) <= Roughness(g.surface[f])
    && (0.0 <= g.gradePct[e] <= g.gradePct[f] || g.gradePct[f] <= g.gradePct[e] <= 0.0)
    && m.HazardScore(e) <= m.HazardScore(f)
    && (g.lit[e] == LitNo ==> g.lit[f] == LitNo)
  }

  lemma TermsRise(m: Model, crash: real, crash': real, hazard: real, hazard': real, lit: Lit, lit': Lit)
    requires WeightsNonNegative(m.profile) && crash <= crash' && hazard <= hazard' && (lit == LitNo ==> lit' == LitNo)
    ensures m.CrashTerm(crash) <= m.CrashTerm(crash') && m.HazardTerm(hazard) <= m.HazardTerm(hazard') && m.LightTerm(lit) <= m.LightTerm(lit')
  {
    var w := m.profile.Weights();
    assert 0.0 <= w[1] && 0.0 <= w[4] && 0.0 <= w[6];
    WeightedTermsNonNegative(m, 0, crash', hazard', lit');
    if crash > 0.0 {
      Weigh(m.profile.weightCrash, CRASH_PENALTY_SCALE * crash, CRASH_PENALTY_SCALE * crash');
      assert m.CrashTerm(crash) == m.profile.weightCrash * (CRASH_PENALTY_SCALE * crash);
      assert m.CrashTerm(crash') == m.profile.weightCrash * (CRASH_PENALTY_SCALE * crash');
    }
    if hazard > 0.0 {
      Weigh(m.profile.weightHazard, HAZARD_PENALTY_SCALE * hazard, HAZARD_PENALTY_SCALE * hazard');
      assert m.HazardTerm(hazard) == m.profile.weightHazard * (HAZARD_PENALTY_SCALE * hazard);
      assert m.HazardTerm(hazard') == m.profile.weightHazard * (HAZARD_PENALTY_SCALE * hazard');
    }
  }

  lemma SurfaceRises(m: Model, a: Surface, b: Surface, pct: real)
    requires WeightsNonNegative(m.profile) && Roughness(a) <= Roughness(b)
    ensures m.RoadTerm(a, pct) <= m.RoadTerm(b, pct)
  {
    assert 0.0 <= m.profile.Weights()[3];
    RoughIsDearer(a, b);
    Weigh(m.profile.weightSurface, SurfacePenalty(a), SurfacePenalty(b));
  }

  lemma GradeRises(m: Model, s: Surface, pct: real, pct': real)
    requires WeightsNonNegative(m.profile) && (0.0 <= pct <= pct' || pct' <= pct <= 0.0)
    ensures m.RoadTerm(s, pct) <= m.RoadTerm(s, pct')
  {
    assert 0.0 <= m.profile.Weights()[2];
    SteepIsDearer(pct, pct');
    Weigh(m.profile.weightGrade, GradePenalty(pct), GradePenalty(pct'));
  }

  /** A metre of a street that is in no respect worse costs no more. */
  lemma WorseIsDearer(m: Model, g: Graph, e: nat, f: nat)
    requires g.HasAttributes() && e < g.NumEdges() && f < g.NumEdges() && WeightsNonNegative(m.profile) && NoWorse(m, g, e, f)
    ensures m.Multiplier(g, e) <= m.Multiplier(g, f)
  {
    StressRises(m, g.lts[e], g.lts[f]);
    TermsRise(m, g.crashScore[e], g.crashScore[f], m.HazardScore(e), m.HazardScore(f), g.lit[e], g.lit[f]);
    SurfaceRises(m, g.surface[e], g.surface[f], g.gradePct[e]);
    GradeRises(m, g.surface[f], g.gradePct[e], g.gradePct[f]);
  }

  /** Each weight governs its own attribute: streets that differ only in what the rider gives no weight cost the same a metre. */
  lemma UnweightedIsIgnored(m: Model, g: Graph, e: nat, f: nat)
    requires g.HasAttributes() && e < g.NumEdges() && f < g.NumEdges()
    requires m.profile.weightLTS == 0.0 || g.lts[e] == g.lts[f]
    requires m.profile.weightCrash == 0.0 || g.crashScore[e] == g.crashScore[f]
    requires m.profile.weightSurface == 0.0 || g.surface[e] == g.surface[f]
    requires m.profile.weightGrade == 0.0 || g.gradePct[e] == g.gradePct[f]
    requires m.profile.weightHazard == 0.0 || m.HazardScore(e) == m.HazardScore(f)
    requires m.profile.weightLight == 0.0 || !m.profile.night || g.lit[e] == g.lit[f]
    ensures m.Multiplier(g, e) == m.Multiplier(g, f)
  {
    assert m.StressTerm(g.lts[e]) == m.StressTerm(g.lts[f]);
    assert m.CrashTerm(g.crashScore[e]) == m.CrashTerm(g.crashScore[f]);
    assert m.HazardTerm(m.HazardScore(e)) == m.HazardTerm(m.HazardScore(f));
    assert m.LightTerm(g.lit[e]) == m.LightTerm(g.lit[f]);
    assert m.profile.weightSurface * SurfacePenalty(g.surface[e]) == m.profile.weightSurface * SurfacePenalty(g.surface[f]);
    assert m.profile.weightGrade * GradePenalty(g.gradePct[e]) == m.profile.weightGrade * GradePenalty(g.gradePct[f]);
  }

  /** A street over the threshold costs the surcharge a metre on top of its length, whatever else it is like. */
  lemma OverIsCharged(m: Model, g: Graph, e: nat)
    requires g.HasAttributes() && e < g.NumEdges() && WeightsNonNegative(m.profile) && m.Over(g, e)
    ensures 1.0 + m.profile.weightLTS * 12.0 <= m.Multiplier(g, e)
  {
    assert 0.0 <= m.profile.Weights()[0];
    if g.lts[e] < |LTS_PENALTY| {
      Weigh(m.profile.weightLTS, 0.0, LTS_PENALTY[g.lts[e]]);
    }
    WeightedTermsNonNegative(m, g.lts[e], g.crashScore[e], m.HazardScore(e), g.lit[e]);
    RoadTermNonNegative(m, g.surface[e], g.gradePct[e]);
    assert m.Multiplier(g, e) == 1.0 + m.StressTerm(g.lts[e]) + m.CrashTerm(g.crashScore[e]) + m.RoadTerm(g.surface[e], g.gradePct[e])
                                 + m.HazardTerm(m.HazardScore(e)) + m.LightTerm(g.lit[e]);
  }

  /** A calm, paved, level street without crashes, hazards or darkness costs its length. */
  lemma PerfectCostsItsLength(m: Model, g: Graph, e: nat)
    requires g.HasAttributes() && e < g.NumEdges() && |g.lengthM| == g.NumEdges() && 1 <= m.profile.maxLTS
    requires g.lts[e] == 1 && g.crashScore[e] <= 0.0 && Roughness(g.surface[e]) == 0 && Abs(g.gradePct[e]) <= 3.0
    requires m.HazardScore(e) <= 0.0 && (m.profile.night ==> g.lit[e] != LitNo)
    ensures m.EdgeCost(g, e) == g.lengthM[e]
  {
    assert m.Multiplier(g, e) == 1.0;
  }

  /** The shortest profile minds nothing but length. */
  lemma ShortestMindsNothing(m: Model, g: Graph, e: nat, f: nat)
    requires g.WellFormed() && g.HasAttributes() && e < g.NumEdges() && f < g.NumEdges() && m.profile == SHORTEST
    ensures m.EdgeCost(g, e) == g.lengthM[e] && m.TurnCost(g, e, f) == 0.0
  {
    assert m.Multiplier(g, e) == 1.0;
  }

  /** For the comfortable profile by day, a metre of a loose arterial climbing at 5 percent, with a crash score of 0.4 and a hazard of 1, counts for 21.94. */
  lemma ArterialInNumbers(m: Model, g: Graph, e: nat)
    requires g.HasAttributes() && e < g.NumEdges() && m.profile == COMFORTABLE
    requires g.lts[e] == 4 && g.crashScore[e] == 0.4 && g.surface[e] == Loose && g.gradePct[e] == 5.0 && m.HazardScore(e) == 1.0
    ensures m.Multiplier(g, e) == 1.0 + 5.0 + 12.0 + 1.0 + 1.2 + 0.24 + 1.5
  {
    assert m.StressTerm(4) == 17.0;
  }
}
