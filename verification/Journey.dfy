/**
 Whole journeys: several legs in a row (internal/httpapi/route_handler.go:381-402)
 and what a route adds up to (internal/safety/cost.go:105-116, 198-248).
 */
module Journey {
  import opened Wrappers
  import opened RoadGraph
  import opened Walks
  import opened WalkSums
  import opened StateSpace
  import Workspaces
  import opened Search
  import Geometry
  import Safety

  // ------------------------------------------------------------- concatenation

  /** A way of getting from `a` to `b`, possibly by staying put. */
  ghost predicate IsTrail(g: Graph, a: int, p: seq<nat>, b: int)
    requires g.WellFormed()
  {
    if p == [] then a == b else IsWalk(g, a, p) && g.to[Last(p)] == b
  }

  lemma {:induction false} WalkJoin(g: Graph, a: int, p: seq<nat>, q: seq<nat>)
    requires g.WellFormed() && IsWalk(g, a, p) && IsWalk(g, g.to[Last(p)], q)
    ensures IsWalk(g, a, p + q) && Last(p + q) == Last(q)
    decreases |q|
  {
    var e := Last(q);
    if |q| == 1 {
      WalkExtend(g, a, p, e);
      assert p + q == p + [e];
    } else {
      WalkInit(g, g.to[Last(p)], q);
      WalkJoin(g, a, p, Init(q));
      WalkExtend(g, a, p + Init(q), e);
      assert p + q == p + Init(q) + [e];
    }
  }

  lemma TrailJoin(g: Graph, a: int, p: seq<nat>, b: int, q: seq<nat>, c: int)
    requires g.WellFormed() && IsTrail(g, a, p, b) && IsTrail(g, b, q, c)
    ensures IsTrail(g, a, p + q, c)
  {
    if p == [] {
      assert p + q == q;
    } else if q == [] {
      assert p + q == p;
    } else {
      WalkJoin(g, a, p, q);
    }
  }

  // ----------------------------------------------------------------------- legs

  datatype Legs = Legs(edges: seq<nat>, cost: real, lengthM: real, budgetUsedM: real)

  function EdgesOf(legs: seq<Path>): seq<nat> {
    if legs == [] then [] else EdgesOf(legs[..|legs| - 1]) + legs[|legs| - 1].edges
  }

  function CostOf(legs: seq<Path>): real {
    if legs == [] then 0.0 else CostOf(legs[..|legs| - 1]) + legs[|legs| - 1].cost
  }

  /** Leg `i` answers the search between waypoints `i` and `i + 1`. */
  ghost predicate LegsAnswer(g: Graph, snaps: seq<int>, opt: Options, legs: seq<Path>)
    requires g.WellFormed()
  {
    |legs| < |snaps| && forall i {:trigger legs[i]} :: 0 <= i < |legs| ==> SearchSpec(g, snaps[i], snaps[i + 1], opt, Found(legs[i]))
  }

  /** The journey so far: one trail from the first waypoint to the current one, with its own length and spend. */
  ghost predicate Accounts(g: Graph, snaps: seq<int>, opt: Options, legs: seq<Path>, total: Legs)
    requires g.WellFormed() && |legs| < |snaps|
  {
    && total.edges == EdgesOf(legs)
    && IsTrail(g, snaps[0], total.edges, snaps[|legs|])
    && total.cost == CostOf(legs)
    && total.lengthM == WalkLength(g, total.edges)
    && total.budgetUsedM == OverLength(g, opt, total.edges)
    && total.budgetUsedM <= Widths(|legs|, Allowance(opt.budgetM))
  }

  lemma LegsAnswerStep(g: Graph, snaps: seq<int>, opt: Options, legs: seq<Path>, leg: Path)
    requires g.WellFormed() && |legs| + 1 < |snaps| && LegsAnswer(g, snaps, opt, legs)
    requires SearchSpec(g, snaps[|legs|], snaps[|legs| + 1], opt, Found(leg))
    ensures LegsAnswer(g, snaps, opt, legs + [leg])
  {
  }

  lemma AccountsStep(g: Graph, snaps: seq<int>, opt: Options, legs: seq<Path>, total: Legs, leg: Path)
    requires g.WellFormed() && |legs| + 1 < |snaps| && Accounts(g, snaps, opt, legs, total)
    requires Sound(g, snaps[|legs|], snaps[|legs| + 1], opt, leg)
    ensures Accounts(g, snaps, opt, legs + [leg],
              Legs(total.edges + leg.edges, total.cost + leg.cost, total.lengthM + leg.lengthM, total.budgetUsedM + leg.budgetUsedM))
  {
    assert (legs + [leg])[..|legs|] == legs;
    assert IsTrail(g, snaps[|legs|], leg.edges, snaps[|legs| + 1]);
    TrailJoin(g, snaps[0], total.edges, snaps[|legs|], leg.edges, snaps[|legs| + 1]);
    LengthOfConcat(g, total.edges, leg.edges);
    SpendOfConcat(g, opt, total.edges, leg.edges);
  }

  /** Leg `i` leads from waypoint `i` to waypoint `i + 1`. */
  ghost predicate Connect(g: Graph, snaps: seq<int>, legs: seq<Path>)
    requires g.WellFormed()
  {
    |legs| < |snaps| && forall i {:trigger legs[i]} :: 0 <= i < |legs| ==> IsTrail(g, snaps[i], legs[i].edges, snaps[i + 1])
  }

  lemma LegsConnect(g: Graph, snaps: seq<int>, opt: Options, legs: seq<Path>)
    requires g.WellFormed() && LegsAnswer(g, snaps, opt, legs)
    ensures Connect(g, snaps, legs)
  {
    forall i | 0 <= i < |legs| ensures IsTrail(g, snaps[i], legs[i].edges, snaps[i + 1]) {
      assert SearchSpec(g, snaps[i], snaps[i + 1], opt, Found(legs[i]));
    }
  }

  lemma {:induction false} Connected(g: Graph, snaps: seq<int>, legs: seq<Path>, k: nat)
    requires g.WellFormed() && Connect(g, snaps, legs) && k <= |legs|
    ensures IsTrail(g, snaps[0], EdgesOf(legs[..k]), snaps[k])
    ensures EdgesOf(legs[..k]) <= EdgesOf(legs)
    decreases |legs|
  {
    if legs == [] {
      return;
    }
    var init := legs[..|legs| - 1];
    if k < |legs| {
      Connected(g, snaps, init, k);
      assert init[..k] == legs[..k];
    } else {
      Connected(g, snaps, init, k - 1);
      assert legs[..k] == legs && init[..k - 1] == init;
      TrailJoin(g, snaps[0], EdgesOf(init), snaps[k - 1], legs[k - 1].edges, snaps[k]);
    }
  }

  /** The turns a rider makes at the waypoints, which no leg has paid for. */
  function WaypointTurns(opt: Options, legs: seq<Path>): real {
    if legs == [] then 0.0
    else
      var init := legs[..|legs| - 1];
      WaypointTurns(opt, init) + TurnBetween(opt, EdgesOf(init), legs[|legs| - 1].edges)
  }

  /** The legs' costs are what the whole trail costs, less those turns. */
  lemma {:induction false} JourneyCost(opt: Options, legs: seq<Path>)
    requires forall i :: 0 <= i < |legs| ==> legs[i].cost == WalkCost(opt, legs[i].edges)
    ensures WalkCost(opt, EdgesOf(legs)) == CostOf(legs) + WaypointTurns(opt, legs)
  {
    if legs != [] {
      var init := legs[..|legs| - 1];
      JourneyCost(opt, init);
      CostOfConcat(opt, EdgesOf(init), legs[|legs| - 1].edges);
    }
  }

  /** So a journey is reported to cost what its trail costs but for the turns at its waypoints. */
  lemma LegsCost(g: Graph, snaps: seq<int>, opt: Options, legs: seq<Path>, total: Legs)
    requires g.WellFormed() && LegsAnswer(g, snaps, opt, legs) && Accounts(g, snaps, opt, legs, total)
    ensures WalkCost(opt, total.edges) == total.cost + WaypointTurns(opt, legs)
  {
    forall i | 0 <= i < |legs| ensures legs[i].cost == WalkCost(opt, legs[i].edges) {
      assert SearchSpec(g, snaps[i], snaps[i + 1], opt, Found(legs[i]));
    }
    JourneyCost(opt, legs);
  }

  /** Every earlier waypoint lies on the trail: the first `k` legs lead from the first waypoint to waypoint `k`. */
  lemma PassesWaypoints(g: Graph, snaps: seq<int>, opt: Options, legs: seq<Path>, k: nat)
    requires g.WellFormed() && LegsAnswer(g, snaps, opt, legs) && k <= |legs|
    ensures IsTrail(g, snaps[0], EdgesOf(legs[..k]), snaps[k])
    ensures EdgesOf(legs[..k]) <= EdgesOf(legs)
  {
    LegsConnect(g, snaps, opt, legs);
    Connected(g, snaps, legs, k);
  }

  /** Route each consecutive pair of waypoints and concatenate; the first leg that fails fails the journey. */
  method RouteLegs(w: Workspaces.Workspace, g: Graph, snaps: seq<int>, opt: Options) returns (r: Result<Legs, Outcome>, ghost legs: seq<Path>)
    requires g.WellFormed() && w.Valid()
    modifies w.Repr
    ensures snaps == [] ==> r == Ok(Legs([], 0.0, 0.0, 0.0)) && legs == []
    ensures snaps != [] ==> LegsAnswer(g, snaps, opt, legs)
    ensures snaps != [] && r.Ok? ==> |legs| == |snaps| - 1 && Accounts(g, snaps, opt, legs, r.value)
    ensures r.Err? ==> |legs| < |snaps| - 1 && !r.error.Found? && SearchSpec(g, snaps[|legs|], snaps[|legs| + 1], opt, r.error)
    ensures w.Valid() && fresh(w.Repr - old(w.Repr))
  {
    legs := [];
    var total := Legs([], 0.0, 0.0, 0.0);
    if snaps == [] {
      return Ok(total), legs;
    }
    for i := 0 to |snaps| - 1
      invariant |legs| == i && LegsAnswer(g, snaps, opt, legs) && Accounts(g, snaps, opt, legs, total)
      invariant w.Valid() && fresh(w.Repr - old(w.Repr))
    {
      var o := SearchOn(w, g, snaps[i], snaps[i + 1], opt);
      if !o.Found? {
        return Err(o), legs;
      }
      var leg := o.path;
      LegsAnswerStep(g, snaps, opt, legs, leg);
      AccountsStep(g, snaps, opt, legs, total, leg);
      legs := legs + [leg];
      total := Legs(total.edges + leg.edges, total.cost + leg.cost, total.lengthM + leg.lengthM, total.budgetUsedM + leg.budgetUsedM);
    }
    r := Ok(total);
  }

  // --------------------------------------------------------------------- totals

  /** Distance above the rider's threshold, added up edge by edge. */
  method OverThresholdM(m: Safety.Model, g: Graph, edges: seq<nat>) returns (total: real)
    requires g.WellFormed() && g.HasAttributes() && forall i :: 0 <= i < |edges| ==> edges[i] < g.NumEdges()
    ensures total == OverLength(g, Safety.RouteOptions(m, g), edges)
  {
    total := 0.0;
    for i := 0 to |edges|
      invariant total == OverLength(g, Safety.RouteOptions(m, g), edges[..i])
    {
      if m.Over(g, edges[i]) {
        total := total + g.lengthM[edges[i]];
      }
      assert Init(edges[..i + 1]) == edges[..i];
    }
    assert edges[..|edges|] == edges;
  }

  const LTS_NAMES: seq<string> := ["unknown", "lts1", "lts2", "lts3", "lts4"]

  /** The name a stress level is reported under; levels outside the table count as unknown. */
  function LTSName(lts: nat): string {
    if lts < |LTS_NAMES| then LTS_NAMES[lts] else LTS_NAMES[0]
  }

  function Get<K>(m: map<K, real>, k: K): real {
    if k in m then m[k] else 0.0
  }

  function OfName(name: string): Geometry.Character {
    (lts: nat, infra: Infra) => LTSName(lts) == name
  }

  function OfInfra(i: Infra): Geometry.Character {
    (lts: nat, infra: Infra) => infra == i
  }

  /** The maps hold, under every name, exactly the length of the edges of that class. */
  ghost predicate Breaks(g: Graph, edges: seq<nat>, byLTS: map<string, real>, byInfra: map<Infra, real>)
    requires g.WellFormed() && g.HasAttributes() && forall i :: 0 <= i < |edges| ==> edges[i] < g.NumEdges()
  {
    && (forall name {:trigger OfName(name)} :: Get(byLTS, name) == Geometry.EdgesOfClass(g, edges, OfName(name)))
    && (forall i {:trigger OfInfra(i)} :: Get(byInfra, i) == Geometry.EdgesOfClass(g, edges, OfInfra(i)))
  }

  /** What a route adds up to, unrounded. */
  datatype Breakdown = Breakdown(
    byLTS: map<string, real>,
    byInfra: map<Infra, real>,
    crashExposureM: real,
    climbM: real,
    descentM: real,
    steepM: real,
    hazardM: real)

  /** A quantity added up over a list of edges. */
  function Total(f: nat -> real, edges: seq<nat>): real {
    if edges == [] then 0.0 else Total(f, Init(edges)) + f(Last(edges))
  }

  /** How far an edge rises, negative for a descent. */
  function Rise(g: Graph): nat -> real {
    (e: nat) => if e < |g.gradePct| then g.gradePct[e] / 100.0 * EdgeLength(g, e) else 0.0
  }

  function Crash(g: Graph): nat -> real {
    (e: nat) => if e < |g.crashScore| then EdgeLength(g, e) * g.crashScore[e] else 0.0
  }

  predicate IsSteep(g: Graph, e: nat) {
    e < |g.gradePct| && Safety.Abs(g.gradePct[e]) > Safety.GRADE_DEADBAND_PCT
  }

  function Where(g: Graph, p: nat -> bool): nat -> real {
    (e: nat) => if p(e) then EdgeLength(g, e) else 0.0
  }

  function Steep(g: Graph): nat -> bool {
    (e: nat) => IsSteep(g, e)
  }

  function Hazardous(m: Safety.Model): nat -> bool {
    (e: nat) => m.HazardScore(e) > 0.0
  }

  function Positive(v: real): real {
    if v > 0.0 then v else 0.0
  }

  function Climb(g: Graph): nat -> real {
    (e: nat) => Positive(Rise(g)(e))
  }

  /** The scalar totals: crash pressure, steep and hazardous distance, and a climb and a descent that differ by the net rise. */
  ghost predicate Adds(m: Safety.Model, g: Graph, edges: seq<nat>, b: Breakdown) {
    && b.crashExposureM == Total(Crash(g), edges)
    && b.climbM == Total(Climb(g), edges) && b.climbM - b.descentM == Total(Rise(g), edges)
    && b.steepM == Total(Where(g, Steep(g)), edges)
    && b.hazardM == Total(Where(g, Hazardous(m)), edges)
  }

  lemma TotalStep(f: nat -> real, edges: seq<nat>, i: nat)
    requires i < |edges|
    ensures Total(f, edges[..i + 1]) == Total(f, edges[..i]) + f(edges[i])
  {
    assert Init(edges[..i + 1]) == edges[..i];
  }

  lemma AddsStep(m: Safety.Model, g: Graph, edges: seq<nat>, i: nat, b: Breakdown, b': Breakdown)
    requires i < |edges| && Adds(m, g, edges[..i], b)
    requires b'.crashExposureM == b.crashExposureM + Crash(g)(edges[i])
    requires b'.climbM == b.climbM + Positive(Rise(g)(edges[i])) && b'.descentM == b.descentM + Positive(-Rise(g)(edges[i]))
    requires b'.steepM == b.steepM + Where(g, Steep(g))(edges[i]) && b'.hazardM == b.hazardM + Where(g, Hazardous(m))(edges[i])
    ensures Adds(m, g, edges[..i + 1], b')
  {
    TotalStep(Crash(g), edges, i);
    TotalStep(Climb(g), edges, i);
    TotalStep(Rise(g), edges, i);
    TotalStep(Where(g, Steep(g)), edges, i);
    TotalStep(Where(g, Hazardous(m)), edges, i);
  }

  /** Everything the breakdown reports, one edge at a time. */
  method Summarise(m: Safety.Model, g: Graph, edges: seq<nat>) returns (b: Breakdown)
    requires g.WellFormed() && g.HasAttributes() && forall i :: 0 <= i < |edges| ==> edges[i] < g.NumEdges()
    ensures Breaks(g, edges, b.byLTS, b.byInfra) && Adds(m, g, edges, b)
  {
    b := Breakdown(map[], map[], 0.0, 0.0, 0.0, 0.0, 0.0);
    for i := 0 to |edges|
      invariant Breaks(g, edges[..i], b.byLTS, b.byInfra) && Adds(m, g, edges[..i], b)
    {
      var byLTS, byInfra := AddClasses(g, edges, i, b.byLTS, b.byInfra);
      var next := AddScalars(m, g, edges[i], b.(byLTS := byLTS, byInfra := byInfra));
      AddsStep(m, g, edges, i, b, next);
      b := next;
    }
    assert edges[..|edges|] == edges;
  }

  method AddClasses(g: Graph, edges: seq<nat>, i: nat, byLTS: map<string, real>, byInfra: map<Infra, real>)
    returns (byLTS': map<string, real>, byInfra': map<Infra, real>)
    requires g.WellFormed() && g.HasAttributes() && i < |edges| && forall i :: 0 <= i < |edges| ==> edges[i] < g.NumEdges()
    requires Breaks(g, edges[..i], byLTS, byInfra)
    ensures Breaks(g, edges[..i + 1], byLTS', byInfra')
  {
    var e := edges[i];
    assert edges[..i + 1][..i] == edges[..i];
    byLTS' := byLTS[LTSName(g.lts[e]) := Get(byLTS, LTSName(g.lts[e])) + g.lengthM[e]];
    byInfra' := byInfra[g.infra[e] := Get(byInfra, g.infra[e]) + g.lengthM[e]];
  }

  method AddScalars(m: Safety.Model, g: Graph, e: nat, b: Breakdown) returns (b': Breakdown)
    requires g.WellFormed() && g.HasAttributes() && e < g.NumEdges()
    ensures b'.byLTS == b.byLTS && b'.byInfra == b.byInfra
    ensures b'.crashExposureM == b.crashExposureM + Crash(g)(e)
    ensures b'.climbM == b.climbM + Positive(Rise(g)(e)) && b'.descentM == b.descentM + Positive(-Rise(g)(e))
    ensures b'.steepM == b.steepM + Where(g, Steep(g))(e) && b'.hazardM == b.hazardM + Where(g, Hazardous(m))(e)
  {
    var l := g.lengthM[e];
    b' := b.(crashExposureM := b.crashExposureM + l * g.crashScore[e]);
    var rise := g.gradePct[e] / 100.0 * l;
    if rise > 0.0 {
      b' := b'.(climbM := b'.climbM + rise);
    } else {
      b' := b'.(descentM := b'.descentM - rise);
    }
    if Safety.Abs(g.gradePct[e]) > Safety.GRADE_DEADBAND_PCT {
      b' := b'.(steepM := b'.steepM + l);
    }
    if m.HazardScore(e) > 0.0 {
      b' := b'.(hazardM := b'.hazardM + l);
    }
  }

  ghost function StressM(g: Graph, edges: seq<nat>, name: string): real
    requires g.WellFormed() && g.HasAttributes() && forall i :: 0 <= i < |edges| ==> edges[i] < g.NumEdges()
  {
    Geometry.EdgesOfClass(g, edges, OfName(name))
  }

  ghost function FacilityM(g: Graph, edges: seq<nat>, i: Infra): real
    requires g.WellFormed() && g.HasAttributes() && forall i :: 0 <= i < |edges| ==> edges[i] < g.NumEdges()
  {
    Geometry.EdgesOfClass(g, edges, OfInfra(i))
  }

  /** Levels 1 to 4, by their number. */
  function AtLevel(level: nat): Geometry.Character {
    (lts: nat, infra: Infra) => lts == level
  }

  function Unscored(): Geometry.Character {
    (lts: nat, infra: Infra) => lts == 0 || lts > 4
  }

  /** Two ways of saying which edges count, that say the same, count the same length. */
  lemma {:induction false} SameClass(g: Graph, edges: seq<nat>, c: Geometry.Character, d: Geometry.Character)
    requires g.WellFormed() && g.HasAttributes() && forall i :: 0 <= i < |edges| ==> edges[i] < g.NumEdges()
    requires forall lts: nat, infra: Infra :: c(lts, infra) <==> d(lts, infra)
    ensures Geometry.EdgesOfClass(g, edges, c) == Geometry.EdgesOfClass(g, edges, d)
  {
    if edges != [] {
      SameClass(g, edges[..|edges| - 1], c, d);
    }
  }

  /** Each name reports the streets of its own level, and "unknown" all the rest. */
  lemma NamesAreLevels(g: Graph, edges: seq<nat>)
    requires g.WellFormed() && g.HasAttributes() && forall i :: 0 <= i < |edges| ==> edges[i] < g.NumEdges()
    ensures StressM(g, edges, "lts1") == Geometry.EdgesOfClass(g, edges, AtLevel(1))
    ensures StressM(g, edges, "lts2") == Geometry.EdgesOfClass(g, edges, AtLevel(2))
    ensures StressM(g, edges, "lts3") == Geometry.EdgesOfClass(g, edges, AtLevel(3))
    ensures StressM(g, edges, "lts4") == Geometry.EdgesOfClass(g, edges, AtLevel(4))
    ensures StressM(g, edges, "unknown") == Geometry.EdgesOfClass(g, edges, Unscored())
  {
    forall lts ensures NameOf(lts) {
      LevelNames(lts);
    }
    SameClass(g, edges, OfName("lts1"), AtLevel(1));
    SameClass(g, edges, OfName("lts2"), AtLevel(2));
    SameClass(g, edges, OfName("lts3"), AtLevel(3));
    SameClass(g, edges, OfName("lts4"), AtLevel(4));
    SameClass(g, edges, OfName("unknown"), Unscored());
  }

  ghost predicate NameOf(lts: nat) {
    && (LTSName(lts) == "lts1" <==> lts == 1) && (LTSName(lts) == "lts2" <==> lts == 2)
    && (LTSName(lts) == "lts3" <==> lts == 3) && (LTSName(lts) == "lts4" <==> lts == 4)
    && (LTSName(lts) == "unknown" <==> lts == 0 || lts > 4)
  }

  lemma LevelNames(lts: nat)
    ensures NameOf(lts)
  {
    assert "lts1"[3] == '1' && "lts2"[3] == '2' && "lts3"[3] == '3' && "lts4"[3] == '4';
    assert |"unknown"| == 7;
  }

  /** What one edge alone adds: its rise or fall in metres, its crash pressure, and its length when it is steep or hazardous. */
  lemma OneEdgeAdds(m: Safety.Model, g: Graph, e: nat, b: Breakdown)
    requires g.WellFormed() && g.HasAttributes() && e < g.NumEdges() && Adds(m, g, [e], b)
    ensures var l, pct := g.lengthM[e], g.gradePct[e];
            && b.climbM == (if pct / 100.0 * l > 0.0 then pct / 100.0 * l else 0.0)
            && b.descentM == (if pct / 100.0 * l < 0.0 then -(pct / 100.0 * l) else 0.0)
            && b.crashExposureM == l * g.crashScore[e]
            && b.steepM == (if pct > 3.0 || pct < -3.0 then l else 0.0)
            && b.hazardM == (if e < |m.hazards| && m.hazards[e] > 0.0 then l else 0.0)
  {
    TotalOfOne(Crash(g), e);
    TotalOfOne(Climb(g), e);
    TotalOfOne(Rise(g), e);
    TotalOfOne(Where(g, Steep(g)), e);
    TotalOfOne(Where(g, Hazardous(m)), e);
  }

  lemma TotalOfOne(f: nat -> real, e: nat)
    ensures Total(f, [e]) == f(e)
  {
    assert Init([e]) == [];
  }

  /** Totals of a journey in parts add up. */
  lemma {:induction false} TotalOfConcat(f: nat -> real, p: seq<nat>, q: seq<nat>)
    ensures Total(f, p + q) == Total(f, p) + Total(f, q)
  {
    if q == [] {
      assert p + q == p;
    } else {
      TotalOfConcat(f, p, Init(q));
      assert Init(p + q) == p + Init(q);
    }
  }

  lemma FiveNames(lts: nat)
    ensures LTSName(lts) in LTS_NAMES
    ensures forall i, j :: 0 <= i < j < |LTS_NAMES| ==> LTS_NAMES[i] != LTS_NAMES[j]
  {
    assert "lts1"[3] == '1' && "lts2"[3] == '2' && "lts3"[3] == '3' && "lts4"[3] == '4';
    assert |"unknown"| == 7;
  }

  /** Each breakdown adds up to the route's length. */
  lemma {:induction false} BreakdownsAddUp(g: Graph, edges: seq<nat>)
    requires g.WellFormed() && g.HasAttributes() && forall i :: 0 <= i < |edges| ==> edges[i] < g.NumEdges()
    ensures StressM(g, edges, LTS_NAMES[0]) + StressM(g, edges, LTS_NAMES[1]) + StressM(g, edges, LTS_NAMES[2])
            + StressM(g, edges, LTS_NAMES[3]) + StressM(g, edges, LTS_NAMES[4]) == WalkLength(g, edges)
    ensures FacilityM(g, edges, InfraNone) + FacilityM(g, edges, Pedestrian) + FacilityM(g, edges, SharedLane)
            + FacilityM(g, edges, PaintedLane) + FacilityM(g, edges, BufferedLane) + FacilityM(g, edges, CyclePath)
            + FacilityM(g, edges, ProtectedTrack) == WalkLength(g, edges)
  {
    if edges != [] {
      BreakdownsAddUp(g, Init(edges));
      FiveNames(g.lts[Last(edges)]);
    }
  }
}
