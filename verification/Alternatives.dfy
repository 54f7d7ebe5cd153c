/**
 Alternative routes by iterative penalisation (internal/routing/alternatives.go).
 */
module Alternatives {
  import opened Wrappers
  import opened RoadGraph
  import opened Walks
  import opened StateSpace
  import Workspaces
  import opened Search
  import SearchResults

  const ALTERNATIVE_PENALTY: real := 2.0
  const MAX_OVERLAP: real := 0.7
  const MAX_COST_RATIO: real := 1.6
  const MAX_ATTEMPTS: nat := 6

  // ----------------------------------------------------------------- penalties

  /** The options an alternative is searched with: edges in `used` cost double. */
  function Penalise(opt: Options, used: set<nat>): Options {
    opt.(edgeCost := (e: nat) => if e in used then opt.edgeCost(e) * ALTERNATIVE_PENALTY else opt.edgeCost(e))
  }

  ghost predicate NonNegative(g: Graph, opt: Options) {
    && (forall e: nat :: e < g.NumEdges() ==> 0.0 <= opt.edgeCost(e))
    && (forall e: nat, f: nat {:trigger opt.Turn(e, f)} :: 0.0 <= opt.Turn(e, f))
  }

  /** A penalised walk costs between once and twice its true cost. */
  lemma {:induction false} PenaltyIsBounded(g: Graph, opt: Options, used: set<nat>, p: seq<nat>)
    requires NonNegative(g, opt) && forall i :: 0 <= i < |p| ==> p[i] < g.NumEdges()
    ensures WalkCost(opt, p) <= WalkCost(Penalise(opt, used), p) <= ALTERNATIVE_PENALTY * WalkCost(opt, p)
  {
    if p != [] {
      PenaltyIsBounded(g, opt, used, Init(p));
      assert Last(p) < g.NumEdges();
      if |p| > 1 {
        assert 0.0 <= opt.Turn(p[|p| - 2], Last(p));
      }
    }
  }

  /** Making edges dearer keeps the heuristic consistent. */
  lemma PenaltyKeepsConsistency(g: Graph, goal: int, opt: Options, used: set<nat>)
    requires g.WellFormed() && InRange(g, goal) && NonNegative(g, opt) && ConsistentEstimate(g, goal, opt)
    ensures ConsistentEstimate(g, goal, Penalise(opt, used))
  {
    var pen := Penalise(opt, used);
    forall e: nat, f: nat | e < g.NumEdges() && f < g.NumEdges() && g.to[e] == g.from[f] && pen.Allows(e) && pen.Allows(f)
      ensures Estimate(g, goal, pen, e) <= pen.Turn(e, f) + pen.edgeCost(f) + Estimate(g, goal, pen, f)
    {
      assert Estimate(g, goal, opt, e) <= opt.Turn(e, f) + opt.edgeCost(f) + Estimate(g, goal, opt, f);
    }
  }

  /** Penalties change costs only: which routes exist, what they spend and which fit stays the same. */
  lemma {:induction false} PenaltyKeepsSpend(g: Graph, opt: Options, used: set<nat>, p: seq<nat>)
    ensures OverLength(g, Penalise(opt, used), p) == OverLength(g, opt, p)
  {
    if p != [] {
      PenaltyKeepsSpend(g, opt, used, Init(p));
    }
  }

  lemma {:induction false} PenaltyKeepsUnits(g: Graph, opt: Options, used: set<nat>, p: seq<nat>)
    requires g.WellFormed()
    ensures Units(g, Penalise(opt, used), p) == Units(g, opt, p)
  {
    if p != [] {
      PenaltyKeepsUnits(g, opt, used, Init(p));
    }
  }

  lemma PenaltyKeepsFit(g: Graph, opt: Options, used: set<nat>, p: seq<nat>)
    requires g.WellFormed()
    ensures Fits(g, Penalise(opt, used), p) <==> Fits(g, opt, p)
  {
    PenaltyKeepsUnits(g, opt, used, p);
    assert BudgetBuckets(Penalise(opt, used)) == BudgetBuckets(opt);
  }

  // -------------------------------------------------------------- used edges

  /** The edge lies on the route, or is the reverse twin of one that does. */
  ghost predicate Covers(g: Graph, p: seq<nat>, e: nat)
    requires g.WellFormed() && e < g.NumEdges()
  {
    exists i {:trigger p[i]} :: 0 <= i < |p| && p[i] < g.NumEdges() && (p[i] == e || g.IsReverseOf(p[i], e))
  }

  ghost function Covered(g: Graph, p: seq<nat>): set<nat>
    requires g.WellFormed()
  {
    set e: nat | e < g.NumEdges() && Covers(g, p, e)
  }

  class UsedEdges {
    var edges: set<nat>

    constructor ()
      ensures edges == {}
    {
      edges := {};
    }

    /**
     Record a route's edges and their reverses. Only edges leaving the far end
     are looked at, yet no reverse twin is missed.
     */
    method MarkUsed(g: Graph, p: seq<nat>)
      requires g.WellFormed() && forall i :: 0 <= i < |p| ==> p[i] < g.NumEdges()
      modifies this
      ensures edges == old(edges) + Covered(g, p)
    {
      for i := 0 to |p|
        invariant edges == old(edges) + Covered(g, p[..i])
      {
        MarkEdge(g, p[i]);
        CoveredStep(g, p, i);
      }
      assert p[..|p|] == p;
    }

    method MarkEdge(g: Graph, e: nat)
      requires g.WellFormed() && e < g.NumEdges()
      modifies this
      ensures edges == old(edges) + {e} + Twins(g, e)
    {
      edges := edges + {e};
      var (lo, hi) := g.OutEdges(g.to[e]);
      for f := lo to hi
        invariant edges == old(edges) + {e} + (set x: nat | lo <= x < f && g.IsReverseOf(e, x))
      {
        if g.IsReverseOf(e, f) {
          edges := edges + {f};
        }
      }
      assert Twins(g, e) == set x: nat | lo <= x < hi && g.IsReverseOf(e, x);
    }
  }

  /** Every edge of the graph that is edge `e` driven the other way. */
  ghost function Twins(g: Graph, e: nat): set<nat>
    requires g.WellFormed() && e < g.NumEdges()
  {
    set x: nat | x < g.NumEdges() && g.IsReverseOf(e, x)
  }

  lemma CoveredStep(g: Graph, p: seq<nat>, i: nat)
    requires g.WellFormed() && i < |p| && p[i] < g.NumEdges()
    ensures Covered(g, p[..i + 1]) == Covered(g, p[..i]) + {p[i]} + Twins(g, p[i])
  {
    var left := Covered(g, p[..i + 1]);
    var right := Covered(g, p[..i]) + {p[i]} + Twins(g, p[i]);
    forall e: nat | e < g.NumEdges() ensures e in left <==> e in right {
      if e in left {
        assert Covers(g, p[..i + 1], e);
        var k :| 0 <= k < i + 1 && p[..i + 1][k] < g.NumEdges() && (p[..i + 1][k] == e || g.IsReverseOf(p[..i + 1][k], e));
        if k < i {
          assert p[..i][k] == p[..i + 1][k];
        }
      }
      if e in right {
        if e in Covered(g, p[..i]) {
          assert Covers(g, p[..i], e);
          var k :| 0 <= k < i && p[..i][k] < g.NumEdges() && (p[..i][k] == e || g.IsReverseOf(p[..i][k], e));
          assert p[..i + 1][k] == p[..i][k];
        } else {
          assert p[..i + 1][i] == p[i];
        }
      }
    }
  }

  // ------------------------------------------------------------- distinctness

  /** How much of `p`'s own length runs on edges of `q`. */
  function SharedLength(g: Graph, p: seq<nat>, q: seq<nat>): real {
    if p == [] then 0.0
    else SharedLength(g, Init(p), q) + if Last(p) in q then EdgeLength(g, Last(p)) else 0.0
  }

  /** Enough of the candidate is new with respect to one accepted route. */
  predicate Differs(g: Graph, cand: Path, r: Path) {
    SharedLength(g, cand.edges, r.edges) <= MAX_OVERLAP * cand.lengthM
  }

  /** A candidate worth showing beside these routes. */
  predicate Distinct(g: Graph, cand: Path, accepted: seq<Path>) {
    0.0 < cand.lengthM && forall j :: 0 <= j < |accepted| ==> Differs(g, cand, accepted[j])
  }

  method IsDistinct(g: Graph, cand: Path, accepted: seq<Path>) returns (distinct: bool)
    ensures distinct <==> Distinct(g, cand, accepted)
  {
    var candLen := cand.lengthM;
    if candLen <= 0.0 {
      return false;
    }
    for j := 0 to |accepted|
      invariant forall k :: 0 <= k < j ==> Differs(g, cand, accepted[k])
    {
      var inR := set e | e in accepted[j].edges;
      var shared := 0.0;
      for i := 0 to |cand.edges|
        invariant shared == SharedLength(g, cand.edges[..i], accepted[j].edges)
      {
        if cand.edges[i] in inR {
          shared := shared + EdgeLength(g, cand.edges[i]);
        }
        assert Init(cand.edges[..i + 1]) == cand.edges[..i];
      }
      assert cand.edges[..|cand.edges|] == cand.edges;
      RatioExceeds(shared, candLen, MAX_OVERLAP);
      if shared / candLen > MAX_OVERLAP {
        return false;
      }
    }
    return true;
  }

  lemma RatioExceeds(a: real, b: real, r: real)
    requires 0.0 < b
    ensures a / b > r <==> a > r * b
  {
    assert a / b * b == a;
    if a / b > r {
      assert (a / b - r) * b > 0.0;
    } else {
      assert (r - a / b) * b >= 0.0;
    }
  }

  /** Recompute a route's cost under the unmodified cost functions. */
  method ScorePath(opt: Options, edges: seq<nat>) returns (total: real)
    ensures total == WalkCost(opt, edges)
  {
    total := 0.0;
    for i := 0 to |edges|
      invariant total == WalkCost(opt, edges[..i])
    {
      total := total + opt.edgeCost(edges[i]);
      if i > 0 && opt.turnCost.Some? {
        total := total + opt.turnCost.value(edges[i - 1], edges[i]);
      }
      assert Init(edges[..i + 1]) == edges[..i];
    }
    assert edges[..|edges|] == edges;
  }

  // ------------------------------------------------------------- alternatives

  /** No negative price, and an estimate that stays consistent: what the cost bounds need, whatever the budget. */
  ghost predicate Priced(g: Graph, goal: int, opt: Options)
    requires g.WellFormed()
  {
    InRange(g, goal) && NonNegative(g, opt) && ConsistentEstimate(g, goal, opt)
  }

  /**
   A candidate at its true cost is within twice the primary if the primary
   fits, and no cheaper than the primary if it fits itself.
   */
  ghost predicate WithinTwice(g: Graph, opt: Options, primary: Path, c: Path)
    requires g.WellFormed()
  {
    && (Fits(g, opt, primary.edges) ==> c.cost <= ALTERNATIVE_PENALTY * primary.cost)
    && (Fits(g, opt, c.edges) ==> primary.cost <= c.cost)
  }

  /** What makes `routes[k]` worth offering: a sound route at its true cost, not much worse, and different from every earlier one. */
  ghost predicate WorthOffering(g: Graph, start: int, goal: int, opt: Options, routes: seq<Path>, k: nat)
    requires g.WellFormed() && 1 <= k < |routes|
  {
    && Sound(g, start, goal, opt, routes[k])
    && routes[k].cost <= MAX_COST_RATIO * routes[0].cost
    && 0.0 < routes[k].lengthM
    && forall j :: 0 <= j < k ==> Differs(g, routes[k], routes[j])
  }

  /** A path found under penalties is sound under the real options once it is scored with them. */
  lemma RescoredIsSound(g: Graph, start: int, goal: int, opt: Options, used: set<nat>, cand: Path)
    requires g.WellFormed() && Sound(g, start, goal, Penalise(opt, used), cand)
    ensures Sound(g, start, goal, opt, cand.(cost := WalkCost(opt, cand.edges)))
  {
    PenaltyKeepsSpend(g, opt, used, cand.edges);
    assert BudgetBuckets(Penalise(opt, used)) == BudgetBuckets(opt);
  }

  /** Searching with doubled prices cannot lead further astray than doubling the primary. */
  lemma CandidateIsWithinTwice(g: Graph, start: int, goal: int, opt: Options, used: set<nat>, primary: Path, cand: Path)
    requires g.WellFormed() && Priced(g, goal, opt)
    requires SearchSpec(g, start, goal, opt, Found(primary)) && SearchSpec(g, start, goal, Penalise(opt, used), Found(cand))
    ensures WithinTwice(g, opt, primary, cand.(cost := WalkCost(opt, cand.edges)))
  {
    var pen := Penalise(opt, used);
    PenaltyKeepsConsistency(g, goal, opt, used);
    PenaltyKeepsFit(g, opt, used, primary.edges);
    assert IsRoute(g, start, goal, cand.edges) && Permitted(opt, cand.edges);
    assert IsRoute(g, start, goal, primary.edges) && Permitted(pen, primary.edges);
    PenaltyIsBounded(g, opt, used, primary.edges);
    PenaltyIsBounded(g, opt, used, cand.edges);
  }

  /** `c` is what searching under these penalties finds, carrying its true cost instead of the penalised one. */
  ghost predicate IsAttempt(g: Graph, start: int, goal: int, opt: Options, used: set<nat>, c: Path)
    requires g.WellFormed()
  {
    && c.edges != [] && c.cost == WalkCost(opt, c.edges)
    && SearchSpec(g, start, goal, Penalise(opt, used), Found(c.(cost := WalkCost(Penalise(opt, used), c.edges))))
  }

  /** Searching under these penalties can come back with nothing. */
  ghost predicate ComesUpEmpty(g: Graph, start: int, goal: int, opt: Options, used: set<nat>)
    requires g.WellFormed()
  {
    || start == goal
    || SearchSpec(g, start, goal, Penalise(opt, used), Unroutable)
    || SearchSpec(g, start, goal, Penalise(opt, used), CapHit)
    || SearchSpec(g, start, goal, Penalise(opt, used), BadIndex)
  }

  /** One penalised search, its result rescored with the real costs. */
  method Candidate(w: Workspaces.Workspace, g: Graph, start: int, goal: int, opt: Options, used: set<nat>)
    returns (cand: Option<Path>)
    requires g.WellFormed() && w.Valid()
    modifies w.Repr
    ensures if cand.Some? then IsAttempt(g, start, goal, opt, used, cand.value) else ComesUpEmpty(g, start, goal, opt, used)
    ensures w.Valid() && fresh(w.Repr - old(w.Repr))
  {
    var o := SearchOn(w, g, start, goal, Penalise(opt, used));
    if o.Found? && o.path.edges != [] {
      var trueCost := ScorePath(opt, o.path.edges);
      return Some(o.path.(cost := trueCost));
    }
    cand := None;
  }

  /** What has been collected after some attempts. */
  ghost predicate Collected(g: Graph, start: int, goal: int, opt: Options, routes: seq<Path>, tried: seq<Path>)
    requires g.WellFormed()
  {
    && routes != []
    && (forall k :: 1 <= k < |routes| ==> WorthOffering(g, start, goal, opt, routes, k) && routes[k] in tried)
    && (forall i :: 0 <= i < |tried| ==> Sound(g, start, goal, opt, tried[i]))
    && (Priced(g, goal, opt) ==> forall i :: 0 <= i < |tried| ==> WithinTwice(g, opt, routes[0], tried[i]))
  }

  lemma CollectTried(g: Graph, start: int, goal: int, opt: Options, routes: seq<Path>, tried: seq<Path>, c: Path)
    requires g.WellFormed() && Collected(g, start, goal, opt, routes, tried)
    requires Sound(g, start, goal, opt, c) && (Priced(g, goal, opt) ==> WithinTwice(g, opt, routes[0], c))
    ensures Collected(g, start, goal, opt, routes, tried + [c])
  {
  }

  lemma CollectRoute(g: Graph, start: int, goal: int, opt: Options, routes: seq<Path>, tried: seq<Path>, c: Path)
    requires g.WellFormed() && Collected(g, start, goal, opt, routes, tried)
    requires c in tried && c.cost <= MAX_COST_RATIO * routes[0].cost
    requires 0.0 < c.lengthM && forall j :: 0 <= j < |routes| ==> Differs(g, c, routes[j])
    ensures Collected(g, start, goal, opt, routes + [c], tried)
  {
    var all := routes + [c];
    forall k | 1 <= k < |all| ensures WorthOffering(g, start, goal, opt, all, k) && all[k] in tried {
      if k < |routes| {
        assert WorthOffering(g, start, goal, opt, routes, k);
      }
    }
  }

  // -------------------------------------------------------------- the attempts

  predicate TooDear(primary: Path, c: Path) {
    c.cost > primary.cost * MAX_COST_RATIO
  }

  /** Which of the candidates tried are kept: those not too dear and distinct from everything kept before. */
  function Chosen(g: Graph, primary: Path, tried: seq<Path>): seq<Path> {
    if tried == [] then [primary]
    else
      var kept := Chosen(g, primary, tried[..|tried| - 1]);
      var c := tried[|tried| - 1];
      if !TooDear(primary, c) && Distinct(g, c, kept) then kept + [c] else kept
  }

  /** The edges penalised after these attempts: the primary's and every candidate's, kept or not, in both directions. */
  ghost function PenalisedBy(g: Graph, primary: Path, tried: seq<Path>): set<nat>
    requires g.WellFormed()
  {
    if tried == [] then Covered(g, primary.edges)
    else PenalisedBy(g, primary, tried[..|tried| - 1]) + Covered(g, tried[|tried| - 1].edges)
  }

  /** Each candidate was found under the penalties of those before it, while more routes were wanted and nothing had become too dear. */
  ghost predicate Hunted(g: Graph, start: int, goal: int, opt: Options, n: int, primary: Path, tried: seq<Path>)
    requires g.WellFormed()
  {
    tried != [] ==>
      var init, c := tried[..|tried| - 1], tried[|tried| - 1];
      && Hunted(g, start, goal, opt, n, primary, init)
      && (init != [] ==> !TooDear(primary, init[|init| - 1]))
      && |Chosen(g, primary, init)| <= n
      && IsAttempt(g, start, goal, opt, PenalisedBy(g, primary, init), c)
  }

  /** Why no further attempt is made. */
  ghost predicate Ended(g: Graph, start: int, goal: int, opt: Options, n: int, primary: Path, tried: seq<Path>)
    requires g.WellFormed()
  {
    || |tried| == MAX_ATTEMPTS
    || |Chosen(g, primary, tried)| == n + 1
    || (tried != [] && TooDear(primary, tried[|tried| - 1]))
    || ComesUpEmpty(g, start, goal, opt, PenalisedBy(g, primary, tried))
  }

  lemma HuntedStep(g: Graph, start: int, goal: int, opt: Options, n: int, primary: Path, tried: seq<Path>, c: Path)
    requires g.WellFormed() && Hunted(g, start, goal, opt, n, primary, tried)
    requires tried != [] ==> !TooDear(primary, tried[|tried| - 1])
    requires |Chosen(g, primary, tried)| <= n && IsAttempt(g, start, goal, opt, PenalisedBy(g, primary, tried), c)
    ensures Hunted(g, start, goal, opt, n, primary, tried + [c])
  {
    assert (tried + [c])[..|tried|] == tried;
  }

  lemma StepUnfolds(g: Graph, primary: Path, tried: seq<Path>, c: Path)
    requires g.WellFormed()
    ensures PenalisedBy(g, primary, tried + [c]) == PenalisedBy(g, primary, tried) + Covered(g, c.edges)
    ensures Chosen(g, primary, tried + [c]) ==
              Chosen(g, primary, tried) + if !TooDear(primary, c) && Distinct(g, c, Chosen(g, primary, tried)) then [c] else []
  {
    assert (tried + [c])[..|tried|] == tried;
  }

  /** Every candidate kept is worth offering, and every candidate tried, kept or not, stays within twice the primary. */
  lemma {:induction false} ChosenAreWorthOffering(g: Graph, start: int, goal: int, opt: Options, n: nat, primary: Path, tried: seq<Path>)
    requires g.WellFormed() && SearchSpec(g, start, goal, opt, Found(primary)) && Hunted(g, start, goal, opt, n, primary, tried)
    ensures |Chosen(g, primary, tried)| <= n + 1
    ensures Collected(g, start, goal, opt, Chosen(g, primary, tried), tried)
    decreases |tried|
  {
    if tried != [] {
      var init := tried[..|tried| - 1];
      ChosenAreWorthOffering(g, start, goal, opt, n, primary, init);
      ChosenStartsWithPrimary(g, primary, init);
      AttemptIsGood(g, start, goal, opt, PenalisedBy(g, primary, init), primary, tried[|tried| - 1]);
      ChooseNext(g, start, goal, opt, primary, tried);
    } else {
      NothingCollected(g, start, goal, opt, primary);
    }
  }

  lemma NothingCollected(g: Graph, start: int, goal: int, opt: Options, primary: Path)
    requires g.WellFormed()
    ensures Collected(g, start, goal, opt, [primary], [])
  {
  }

  /** One more candidate, kept or not, leaves everything kept worth offering. */
  lemma ChooseNext(g: Graph, start: int, goal: int, opt: Options, primary: Path, tried: seq<Path>)
    requires g.WellFormed() && tried != []
    requires var c := tried[|tried| - 1]; Sound(g, start, goal, opt, c) && (Priced(g, goal, opt) ==> WithinTwice(g, opt, primary, c))
    requires var init := tried[..|tried| - 1]; Chosen(g, primary, init) != [] && Chosen(g, primary, init)[0] == primary
    requires var init := tried[..|tried| - 1]; Collected(g, start, goal, opt, Chosen(g, primary, init), init)
    ensures Collected(g, start, goal, opt, Chosen(g, primary, tried), tried)
  {
    var init, c := tried[..|tried| - 1], tried[|tried| - 1];
    var kept := Chosen(g, primary, init);
    CollectTried(g, start, goal, opt, kept, init, c);
    assert init + [c] == tried;
    if !TooDear(primary, c) && Distinct(g, c, kept) {
      CollectRoute(g, start, goal, opt, kept, tried, c);
    }
  }

  lemma {:induction false} ChosenStartsWithPrimary(g: Graph, primary: Path, tried: seq<Path>)
    ensures Chosen(g, primary, tried) != [] && Chosen(g, primary, tried)[0] == primary
  {
    if tried != [] {
      ChosenStartsWithPrimary(g, primary, tried[..|tried| - 1]);
    }
  }

  lemma AttemptIsGood(g: Graph, start: int, goal: int, opt: Options, used: set<nat>, primary: Path, c: Path)
    requires g.WellFormed() && SearchSpec(g, start, goal, opt, Found(primary)) && IsAttempt(g, start, goal, opt, used, c)
    ensures Sound(g, start, goal, opt, c) && (Priced(g, goal, opt) ==> WithinTwice(g, opt, primary, c))
  {
    var raw := c.(cost := WalkCost(Penalise(opt, used), c.edges));
    assert raw.(cost := WalkCost(opt, raw.edges)) == c;
    RescoredIsSound(g, start, goal, opt, used, raw);
    if Priced(g, goal, opt) {
      CandidateIsWithinTwice(g, start, goal, opt, used, primary, raw);
    }
  }

  /** The loop's whole state, as functions of the candidates tried so far. */
  ghost predicate Hunting(g: Graph, start: int, goal: int, opt: Options, n: int, primary: Path, tried: seq<Path>, routes: seq<Path>, used: set<nat>)
    requires g.WellFormed()
  {
    && routes == Chosen(g, primary, tried) && |routes| <= n + 1
    && used == PenalisedBy(g, primary, tried)
    && Hunted(g, start, goal, opt, n, primary, tried)
    && (tried != [] ==> !TooDear(primary, tried[|tried| - 1]))
  }

  /** The hunt is over: these are the routes kept, and there is a reason to stop. */
  ghost predicate HuntOver(g: Graph, start: int, goal: int, opt: Options, n: int, primary: Path, tried: seq<Path>, routes: seq<Path>)
    requires g.WellFormed()
  {
    && |tried| <= MAX_ATTEMPTS && routes == Chosen(g, primary, tried)
    && Hunted(g, start, goal, opt, n, primary, tried) && Ended(g, start, goal, opt, n, primary, tried)
  }

  lemma HuntingStarts(g: Graph, start: int, goal: int, opt: Options, n: int, primary: Path)
    requires g.WellFormed() && 0 <= n
    ensures Hunting(g, start, goal, opt, n, primary, [], [primary], Covered(g, primary.edges))
  {
  }

  lemma HuntingStep(g: Graph, start: int, goal: int, opt: Options, n: int, primary: Path, tried: seq<Path>, routes: seq<Path>, used: set<nat>, c: Path)
    requires g.WellFormed() && Hunting(g, start, goal, opt, n, primary, tried, routes, used)
    requires |routes| <= n && |tried| < MAX_ATTEMPTS && IsAttempt(g, start, goal, opt, used, c)
    ensures TooDear(primary, c) ==> HuntOver(g, start, goal, opt, n, primary, tried + [c], routes)
    ensures forall i :: 0 <= i < |c.edges| ==> c.edges[i] < g.NumEdges()
    ensures !TooDear(primary, c) ==>
              Hunting(g, start, goal, opt, n, primary, tried + [c], if Distinct(g, c, routes) then routes + [c] else routes, used + Covered(g, c.edges))
  {
    HuntedStep(g, start, goal, opt, n, primary, tried, c);
    StepUnfolds(g, primary, tried, c);
    RouteEdges(g, start, goal, c.edges);
  }

  lemma HuntingStops(g: Graph, start: int, goal: int, opt: Options, n: int, primary: Path, tried: seq<Path>, routes: seq<Path>, used: set<nat>)
    requires g.WellFormed() && Hunting(g, start, goal, opt, n, primary, tried, routes, used) && |tried| <= MAX_ATTEMPTS
    requires |tried| == MAX_ATTEMPTS || |routes| == n + 1 || ComesUpEmpty(g, start, goal, opt, used)
    ensures HuntOver(g, start, goal, opt, n, primary, tried, routes)
  {
  }

  /** One attempt: search again, keep the candidate if it is different and not much worse, and penalise it. */
  method Attempt(w: Workspaces.Workspace, g: Graph, start: int, goal: int, opt: Options, n: int, primary: Path,
    routes: seq<Path>, ghost tried: seq<Path>, penalised: UsedEdges)
    returns (more: seq<Path>, ghost tried': seq<Path>, stop: bool)
    requires g.WellFormed() && w.Valid() && penalised !in w.Repr
    requires Hunting(g, start, goal, opt, n, primary, tried, routes, penalised.edges)
    requires |tried| < MAX_ATTEMPTS && |routes| <= n
    modifies w.Repr, penalised
    ensures stop ==> HuntOver(g, start, goal, opt, n, primary, tried', more)
    ensures !stop ==> Hunting(g, start, goal, opt, n, primary, tried', more, penalised.edges) && |tried'| == |tried| + 1
    ensures w.Valid() && fresh(w.Repr - old(w.Repr))
  {
    more, tried', stop := routes, tried, true;
    var cand := NextCandidate(w, g, start, goal, opt, n, primary, routes, tried, penalised.edges);
    if cand.None? {
      return;
    }
    tried' := tried + [cand.value];
    if cand.value.cost > primary.cost * MAX_COST_RATIO {
      return;
    }
    stop := false;
    more := Consider(g, routes, cand.value, penalised);
  }

  /** What the next candidate will mean for the hunt, whether it ends it or is considered. */
  method NextCandidate(w: Workspaces.Workspace, g: Graph, start: int, goal: int, opt: Options, n: int, primary: Path,
    ghost routes: seq<Path>, ghost tried: seq<Path>, used: set<nat>)
    returns (cand: Option<Path>)
    requires g.WellFormed() && w.Valid() && Hunting(g, start, goal, opt, n, primary, tried, routes, used)
    requires |tried| < MAX_ATTEMPTS && |routes| <= n
    modifies w.Repr
    ensures cand.None? ==> HuntOver(g, start, goal, opt, n, primary, tried, routes)
    ensures cand.Some? && TooDear(primary, cand.value) ==> HuntOver(g, start, goal, opt, n, primary, tried + [cand.value], routes)
    ensures cand.Some? ==> forall i :: 0 <= i < |cand.value.edges| ==> cand.value.edges[i] < g.NumEdges()
    ensures cand.Some? && !TooDear(primary, cand.value) ==>
              Hunting(g, start, goal, opt, n, primary, tried + [cand.value],
                if Distinct(g, cand.value, routes) then routes + [cand.value] else routes, used + Covered(g, cand.value.edges))
    ensures w.Valid() && fresh(w.Repr - old(w.Repr))
  {
    cand := Candidate(w, g, start, goal, opt, used);
    if cand.None? {
      HuntingStops(g, start, goal, opt, n, primary, tried, routes, used);
    } else {
      HuntingStep(g, start, goal, opt, n, primary, tried, routes, used, cand.value);
    }
  }

  /** Keep a candidate that is distinct; penalise its edges either way. */
  method Consider(g: Graph, routes: seq<Path>, cand: Path, penalised: UsedEdges) returns (more: seq<Path>)
    requires g.WellFormed() && forall i :: 0 <= i < |cand.edges| ==> cand.edges[i] < g.NumEdges()
    modifies penalised
    ensures more == if Distinct(g, cand, routes) then routes + [cand] else routes
    ensures penalised.edges == old(penalised.edges) + Covered(g, cand.edges)
  {
    more := routes;
    var distinct := IsDistinct(g, cand, routes);
    if distinct {
      more := routes + [cand];
    }
    penalised.MarkUsed(g, cand.edges);
  }

  /** Penalise, search again, keep what is different and not much worse. */
  method Hunt(w: Workspaces.Workspace, g: Graph, start: int, goal: int, opt: Options, n: int, primary: Path)
    returns (routes: seq<Path>, ghost tried: seq<Path>)
    requires g.WellFormed() && IsRoute(g, start, goal, primary.edges) && w.Valid() && 0 < n
    modifies w.Repr
    ensures HuntOver(g, start, goal, opt, n, primary, tried, routes)
    ensures w.Valid() && fresh(w.Repr - old(w.Repr))
  {
    routes, tried := [primary], [];
    var penalised := new UsedEdges();
    RouteEdges(g, start, goal, primary.edges);
    penalised.MarkUsed(g, primary.edges);
    HuntingStarts(g, start, goal, opt, n, primary);
    var attempt := 0;
    while attempt < MAX_ATTEMPTS && |routes| < n + 1
      invariant |tried| == attempt <= MAX_ATTEMPTS && |routes| <= n + 1
      invariant Hunting(g, start, goal, opt, n, primary, tried, routes, penalised.edges)
      invariant w.Valid() && fresh(w.Repr - old(w.Repr))
      invariant fresh(penalised) && penalised !in w.Repr
    {
      var stop;
      routes, tried, stop := Attempt(w, g, start, goal, opt, n, primary, routes, tried, penalised);
      if stop {
        return;
      }
      attempt := attempt + 1;
    }
    HuntingStops(g, start, goal, opt, n, primary, tried, routes, penalised.edges);
  }

  lemma RouteEdges(g: Graph, start: int, goal: int, p: seq<nat>)
    requires g.WellFormed() && IsRoute(g, start, goal, p)
    ensures forall i :: 0 <= i < |p| ==> p[i] < g.NumEdges()
  {
  }

  /** What is offered: the best route first, then exactly the candidates kept by a hunt that ran until it had reason to stop. */
  ghost predicate Offered(g: Graph, start: int, goal: int, opt: Options, n: int, routes: seq<Path>, tried: seq<Path>)
    requires g.WellFormed()
  {
    && routes != [] && SearchSpec(g, start, goal, opt, Found(routes[0]))
    && routes == Chosen(g, routes[0], tried)
    && (if n <= 0 || routes[0].edges == [] then tried == []
        else HuntOver(g, start, goal, opt, n, routes[0], tried, routes))
  }

  lemma HuntIsOffered(g: Graph, start: int, goal: int, opt: Options, n: int, primary: Path, tried: seq<Path>, routes: seq<Path>)
    requires g.WellFormed() && SearchSpec(g, start, goal, opt, Found(primary)) && 0 < n && primary.edges != []
    requires HuntOver(g, start, goal, opt, n, primary, tried, routes)
    ensures Offered(g, start, goal, opt, n, routes, tried)
  {
    ChosenStartsWithPrimary(g, primary, tried);
  }

  /** Whatever is offered: at most `n` extras, each sound at its true cost, not much worse than the primary and different from those before it. */
  lemma OfferedAreWorthOffering(g: Graph, start: int, goal: int, opt: Options, n: int, routes: seq<Path>, tried: seq<Path>)
    requires g.WellFormed() && Offered(g, start, goal, opt, n, routes, tried)
    ensures 1 <= |routes| <= 1 + (if n < 0 then 0 else n)
    ensures Collected(g, start, goal, opt, routes, tried)
  {
    if tried != [] {
      ChosenAreWorthOffering(g, start, goal, opt, n, routes[0], tried);
    }
  }

  /** Behind a filter that lets nothing over the threshold through, every candidate tried costs between once and twice the primary. */
  lemma FilteredAreWithinTwice(g: Graph, start: int, goal: int, opt: Options, n: int, routes: seq<Path>, tried: seq<Path>)
    requires g.WellFormed() && Offered(g, start, goal, opt, n, routes, tried)
    requires Priced(g, goal, opt) && SearchResults.NothingOver(g, opt)
    ensures forall i :: 0 <= i < |tried| ==> routes[0].cost <= tried[i].cost <= ALTERNATIVE_PENALTY * routes[0].cost
  {
    OfferedAreWorthOffering(g, start, goal, opt, n, routes, tried);
    SearchResults.PermittedFits(g, start, goal, opt, routes[0].edges);
    forall i | 0 <= i < |tried| ensures routes[0].cost <= tried[i].cost <= ALTERNATIVE_PENALTY * routes[0].cost {
      SearchResults.PermittedFits(g, start, goal, opt, tried[i].edges);
    }
  }

  /**
   The best route plus up to `n` others. `tried` records every candidate the
   attempts produced, accepted or not, at its true cost.
   */
  method Alternatives(w: Workspaces.Workspace, g: Graph, start: int, goal: int, opt: Options, n: int)
    returns (r: Result<seq<Path>, Outcome>, ghost tried: seq<Path>)
    requires g.WellFormed() && w.Valid()
    modifies w.Repr
    ensures r.Err? ==> !r.error.Found? && SearchSpec(g, start, goal, opt, r.error)
    ensures r.Ok? ==> Offered(g, start, goal, opt, n, r.value, tried)
    ensures w.Valid() && fresh(w.Repr - old(w.Repr))
  {
    var o := SearchOn(w, g, start, goal, opt);
    if !o.Found? {
      r, tried := Err(o), [];
    } else if n <= 0 || o.path.edges == [] {
      r, tried := Ok([o.path]), [];
    } else {
      var routes;
      routes, tried := Hunt(w, g, start, goal, opt, n, o.path);
      HuntIsOffered(g, start, goal, opt, n, o.path, tried, routes);
      r := Ok(routes);
    }
  }
}
