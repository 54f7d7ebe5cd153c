/**
 What the search promises its callers, derived from its specification alone:
 the results behind the comments of internal/routing/search.go and the tests in
 internal/routing/astar_test.go and internal/routing/budget_test.go.
 */
module SearchResults {
  import opened Wrappers
  import opened RoadGraph
  import opened Walks
  import opened StateSpace
  import opened Search

  // ------------------------------------------------------------ without a budget

  lemma {:induction false} NoOverNoUnits(g: Graph, opt: Options, p: seq<nat>)
    requires g.WellFormed()
    requires NoneOver(opt, p)
    ensures Units(g, opt, p) == 0 && OverLength(g, opt, p) == 0.0
  {
    if p != [] {
      NoOverNoUnits(g, opt, Init(p));
    }
  }

  /** The filter lets no over-threshold edge through: there is no threshold, or a hard filter enforces it. */
  ghost predicate NothingOver(g: Graph, opt: Options) {
    forall e {:trigger opt.Allows(e)} :: 0 <= e < g.NumEdges() && opt.Allows(e) ==> !opt.IsOver(e)
  }

  /** Behind such a filter every permitted route fits. */
  lemma PermittedFits(g: Graph, start: int, goal: int, opt: Options, p: seq<nat>)
    requires g.WellFormed() && NothingOver(g, opt)
    requires IsRoute(g, start, goal, p) && Permitted(opt, p)
    ensures Fits(g, opt, p) && OverLength(g, opt, p) == 0.0
  {
    forall i | 0 <= i < |p| ensures !opt.IsOver(p[i]) {
      assert p[i] < g.NumEdges() && opt.Allows(p[i]);
    }
    NoOverNoUnits(g, opt, p);
  }

  /**
   When no permitted edge is over the threshold the answer is exact: a found
   route costs the minimum over all permitted routes, and an unroutable request
   has none.
   */
  lemma UnbudgetedIsOptimal(g: Graph, start: int, goal: int, opt: Options, o: Outcome, p: seq<nat>)
    requires g.WellFormed() && SearchSpec(g, start, goal, opt, o) && NothingOver(g, opt)
    requires IsRoute(g, start, goal, p) && Permitted(opt, p)
    ensures o != Unroutable
    ensures o.Found? && InRange(g, goal) && ConsistentEstimate(g, goal, opt) ==> o.path.cost <= WalkCost(opt, p)
  {
    PermittedFits(g, start, goal, opt, p);
  }

  /** Plain Dijkstra's estimate is consistent as soon as no step is negative. */
  lemma DijkstraIsConsistent(g: Graph, goal: int, opt: Options)
    requires g.WellFormed() && InRange(g, goal) && opt.noHeuristic
    requires forall e, f {:trigger opt.Turn(e, f)} :: 0 <= e < g.NumEdges() && 0 <= f < g.NumEdges() && g.to[e] == g.from[f] ==>
               0.0 <= opt.Turn(e, f) + opt.edgeCost(f)
    ensures ConsistentEstimate(g, goal, opt)
  {
  }

  lemma {:induction false} CostIgnoresHeuristic(opt: Options, p: seq<nat>)
    ensures WalkCost(opt.(noHeuristic := true), p) == WalkCost(opt, p)
  {
    if p != [] {
      CostIgnoresHeuristic(opt, Init(p));
    }
  }

  lemma FilterIgnoresHeuristic(g: Graph, opt: Options)
    requires NothingOver(g, opt)
    ensures NothingOver(g, opt.(noHeuristic := true))
  {
    assert forall e :: opt.(noHeuristic := true).Allows(e) ==> opt.Allows(e);
  }

  /** Guided and unguided search agree: the same requests are routable, at the same cost. */
  lemma AStarMatchesDijkstra(g: Graph, start: int, goal: int, opt: Options, guided: Outcome, plain: Outcome)
    requires g.WellFormed() && InRange(g, goal) && NothingOver(g, opt)
    requires ConsistentEstimate(g, goal, opt) && ConsistentEstimate(g, goal, opt.(noHeuristic := true))
    requires SearchSpec(g, start, goal, opt, guided)
    requires SearchSpec(g, start, goal, opt.(noHeuristic := true), plain)
    requires guided != CapHit && plain != CapHit
    ensures guided.Found? <==> plain.Found?
    ensures guided.Found? ==> guided.path.cost == plain.path.cost
  {
    var opt' := opt.(noHeuristic := true);
    FilterIgnoresHeuristic(g, opt);
    if guided.Found? {
      var p := guided.path.edges;
      CostIgnoresHeuristic(opt, p);
      assert IsRoute(g, start, goal, p) && Permitted(opt', p);
      UnbudgetedIsOptimal(g, start, goal, opt', plain, p);
    }
    if plain.Found? {
      var p := plain.path.edges;
      CostIgnoresHeuristic(opt, p);
      assert IsRoute(g, start, goal, p) && Permitted(opt, p);
      UnbudgetedIsOptimal(g, start, goal, opt, guided, p);
    }
  }

  // --------------------------------------------------------------- with a budget

  /** Every over-threshold edge is a whole number of buckets long. */
  ghost predicate Quantised(g: Graph, opt: Options)
    requires g.WellFormed()
  {
    forall e :: 0 <= e < g.NumEdges() && opt.IsOver(e) ==> exists k: nat :: g.lengthM[e] == Widths(k, BudgetBuckets(opt).1)
  }

  lemma CeilOfWidths(k: nat, step: real)
    requires 0.0 < step && 0.0 <= Widths(k, step)
    ensures CeilSteps(Widths(k, step), step) == k
  {
    var c := CeilSteps(Widths(k, step), step);
    if c < k {
      WidthsGrow(c + 1, k, step);
    } else if k < c {
      WidthsGrow(k, c - 1, step);
    }
  }

  /** On quantised lengths nothing is lost to rounding. */
  lemma {:induction false} QuantisedUnits(g: Graph, opt: Options, p: seq<nat>)
    requires g.WellFormed() && Quantised(g, opt) && BudgetBuckets(opt).1 > 0.0
    requires forall i :: 0 <= i < |p| ==> p[i] < g.NumEdges()
    ensures OverLength(g, opt, p) == Widths(Units(g, opt, p), BudgetBuckets(opt).1)
  {
    if p != [] {
      var step := BudgetBuckets(opt).1;
      var e := Last(p);
      QuantisedUnits(g, opt, Init(p));
      assert e < g.NumEdges();
      if opt.IsOver(e) {
        var k: nat :| g.lengthM[e] == Widths(k, step);
        CeilOfWidths(k, step);
      }
      WidthsSum(Units(g, opt, Init(p)), EdgeUnits(g, opt, e), step);
    }
  }

  /** On quantised lengths a route fits exactly when it leaves one bucket of the budget unspent. */
  lemma QuantisedFits(g: Graph, opt: Options, start: int, goal: int, p: seq<nat>)
    requires g.WellFormed() && Quantised(g, opt) && BudgetBuckets(opt).1 > 0.0
    requires IsRoute(g, start, goal, p)
    ensures Fits(g, opt, p) <==> OverLength(g, opt, p) <= opt.budgetM - BudgetBuckets(opt).1
  {
    var (nb, step) := BudgetBuckets(opt);
    QuantisedUnits(g, opt, p);
    var u := Units(g, opt, p);
    if u <= nb - 1 {
      WidthsGrow(u, nb - 1, step);
    } else {
      WidthsGrow(nb, u, step);
    }
  }

  /**
   The quantised sandwich: the returned route is one of those within the full
   budget, no route that leaves one bucket unspent is cheaper, and "unroutable"
   means no such route exists.
   */
  lemma QuantisedSandwich(g: Graph, start: int, goal: int, opt: Options, o: Outcome, p: seq<nat>)
    requires g.WellFormed() && SearchSpec(g, start, goal, opt, o)
    requires Quantised(g, opt) && BudgetBuckets(opt).1 > 0.0
    requires IsRoute(g, start, goal, p) && Permitted(opt, p)
    requires OverLength(g, opt, p) <= opt.budgetM - BudgetBuckets(opt).1
    ensures o != Unroutable
    ensures o.Found? ==> IsRoute(g, start, goal, o.path.edges) && OverLength(g, opt, o.path.edges) <= opt.budgetM
    ensures o.Found? && InRange(g, goal) && ConsistentEstimate(g, goal, opt) ==> o.path.cost <= WalkCost(opt, p)
  {
    QuantisedFits(g, opt, start, goal, p);
  }

  /**
   On quantised lengths a guided answer that does not spend the last bucket is
   never beaten by not being guided: the unguided search finds a route too, no
   dearer, and as dear if it does not spend the last bucket either.
   */
  lemma QuantisedIsExact(g: Graph, start: int, goal: int, opt: Options, o: Outcome, other: Outcome)
    requires g.WellFormed() && InRange(g, goal) && Quantised(g, opt) && BudgetBuckets(opt).1 > 0.0
    requires ConsistentEstimate(g, goal, opt) && ConsistentEstimate(g, goal, opt.(noHeuristic := true))
    requires SearchSpec(g, start, goal, opt, o) && SearchSpec(g, start, goal, opt.(noHeuristic := true), other)
    requires o.Found? && o.path.budgetUsedM < opt.budgetM
    ensures other != Unroutable && (other.Found? ==> other.path.cost <= o.path.cost)
    ensures other.Found? && other.path.budgetUsedM < opt.budgetM ==> other.path.cost == o.path.cost
  {
    var opt' := opt.(noHeuristic := true);
    assert Quantised(g, opt');
    CostIgnoresHeuristic(opt, o.path.edges);
    SpendIgnoresHeuristic(g, opt, o.path.edges);
    SpentBelowBudget(g, opt, start, goal, o.path.edges);
    QuantisedSandwich(g, start, goal, opt', other, o.path.edges);
    if other.Found? && other.path.budgetUsedM < opt.budgetM {
      CostIgnoresHeuristic(opt, other.path.edges);
      SpendIgnoresHeuristic(g, opt, other.path.edges);
      SpentBelowBudget(g, opt, start, goal, other.path.edges);
      QuantisedSandwich(g, start, goal, opt, o, other.path.edges);
    }
  }

  lemma {:induction false} SpendIgnoresHeuristic(g: Graph, opt: Options, p: seq<nat>)
    ensures OverLength(g, opt.(noHeuristic := true), p) == OverLength(g, opt, p)
  {
    if p != [] {
      SpendIgnoresHeuristic(g, opt, Init(p));
    }
  }

  lemma SpentBelowBudget(g: Graph, opt: Options, start: int, goal: int, p: seq<nat>)
    requires g.WellFormed() && Quantised(g, opt) && BudgetBuckets(opt).1 > 0.0
    requires IsRoute(g, start, goal, p) && OverLength(g, opt, p) < opt.budgetM
    ensures OverLength(g, opt, p) <= opt.budgetM - BudgetBuckets(opt).1
  {
    var (nb, step) := BudgetBuckets(opt);
    QuantisedUnits(g, opt, p);
    var u := Units(g, opt, p);
    if u >= nb {
      WidthsGrow(nb, u, step);
    } else {
      WidthsGrow(u, nb - 1, step);
    }
  }

  /** A budget never hurts: whatever the lengths and buckets, the answer is at least as good as the best route with no over-threshold edge. */
  lemma BudgetNeverHurts(g: Graph, start: int, goal: int, opt: Options, o: Outcome, p: seq<nat>)
    requires g.WellFormed() && SearchSpec(g, start, goal, opt, o)
    requires IsRoute(g, start, goal, p) && Permitted(opt, p)
    requires NoneOver(opt, p)
    ensures o != Unroutable
    ensures o.Found? && InRange(g, goal) && ConsistentEstimate(g, goal, opt) ==> o.path.cost <= WalkCost(opt, p)
  {
    NoOverNoUnits(g, opt, p);
  }

  lemma {:induction false} OverLengthDetects(g: Graph, opt: Options, p: seq<nat>, i: nat)
    requires g.WellFormed() && i < |p| && opt.IsOver(p[i]) && p[i] < g.NumEdges() && 0.0 < g.lengthM[p[i]]
    ensures 0.0 < OverLength(g, opt, p)
  {
    if i < |p| - 1 {
      OverLengthDetects(g, opt, Init(p), i);
    } else {
      OverLengthNonNegative(g, opt, Init(p));
    }
  }

  /**
   A zero budget is the hard filter, not "no tracking": the returned route has
   no over-threshold edge at all, and is the cheapest such route.
   */
  lemma ZeroBudgetIsHardFilter(g: Graph, start: int, goal: int, opt: Options, o: Outcome)
    requires g.WellFormed() && SearchSpec(g, start, goal, opt, o) && opt.budgetM <= 0.0
    requires forall e :: 0 <= e < g.NumEdges() ==> 0.0 < g.lengthM[e]
    ensures o.Found? ==> NoneOver(opt, o.path.edges)
    ensures o.Found? && InRange(g, goal) && ConsistentEstimate(g, goal, opt) ==>
              forall p {:trigger WalkCost(opt, p)} :: IsRoute(g, start, goal, p) && Permitted(opt, p) && NoneOver(opt, p) ==>
                o.path.cost <= WalkCost(opt, p)
    ensures o == Unroutable ==>
              forall p {:trigger IsRoute(g, start, goal, p)} :: IsRoute(g, start, goal, p) && Permitted(opt, p) ==>
                !NoneOver(opt, p)
  {
    if o.Found? {
      forall i | 0 <= i < |o.path.edges| ensures !opt.IsOver(o.path.edges[i]) {
        if opt.IsOver(o.path.edges[i]) {
          OverLengthDetects(g, opt, o.path.edges, i);
        }
      }
    }
    forall p | IsRoute(g, start, goal, p) && Permitted(opt, p) && NoneOver(opt, p)
      ensures o != Unroutable
      ensures o.Found? && InRange(g, goal) && ConsistentEstimate(g, goal, opt) ==> o.path.cost <= WalkCost(opt, p)
    {
      BudgetNeverHurts(g, start, goal, opt, o, p);
    }
  }

  // ------------------------------------------------ a zero budget and Dijkstra

  /** A permitted route, over the threshold or not, that no other permitted route beats. */
  ghost predicate IsCheapestRoute(g: Graph, start: int, goal: int, opt: Options, p: seq<nat>)
    requires g.WellFormed()
  {
    && IsRoute(g, start, goal, p) && Permitted(opt, p)
    && forall q {:trigger WalkCost(opt, q)} :: IsRoute(g, start, goal, q) && Permitted(opt, q) ==> WalkCost(opt, p) <= WalkCost(opt, q)
  }

  lemma {:induction false} CostIgnoresThreshold(opt: Options, p: seq<nat>)
    ensures WalkCost(opt.(over := None), p) == WalkCost(opt, p)
  {
    if p != [] {
      CostIgnoresThreshold(opt, Init(p));
    }
  }

  lemma ConsistencyIgnoresThreshold(g: Graph, goal: int, opt: Options)
    requires g.WellFormed() && InRange(g, goal) && ConsistentEstimate(g, goal, opt)
    ensures ConsistentEstimate(g, goal, opt.(over := None))
  {
    var opt' := opt.(over := None);
    forall e, f | 0 <= e < g.NumEdges() && 0 <= f < g.NumEdges() && g.to[e] == g.from[f] && opt'.Allows(e) && opt'.Allows(f)
      ensures Estimate(g, goal, opt', e) <= opt'.Turn(e, f) + opt'.edgeCost(f) + Estimate(g, goal, opt', f)
    {
      assert Estimate(g, goal, opt, e) <= opt.Turn(e, f) + opt.edgeCost(f) + Estimate(g, goal, opt, f);
    }
  }

  /** With the threshold removed, the answer is a cheapest permitted route. */
  lemma PlainIsCheapest(g: Graph, start: int, goal: int, opt: Options, plain: Outcome, p: seq<nat>)
    requires g.WellFormed() && InRange(g, goal) && ConsistentEstimate(g, goal, opt)
    requires SearchSpec(g, start, goal, opt.(over := None), plain)
    requires IsRoute(g, start, goal, p) && Permitted(opt, p)
    ensures plain != Unroutable && (plain.Found? ==> plain.path.cost <= WalkCost(opt, p))
  {
    ConsistencyIgnoresThreshold(g, goal, opt);
    CostIgnoresThreshold(opt, p);
    assert Permitted(opt.(over := None), p);
    UnbudgetedIsOptimal(g, start, goal, opt.(over := None), plain, p);
  }

  /**
   When leaving the budget at zero does no harm: the answer costs what it costs
   with the threshold removed exactly when some cheapest permitted route has no
   over-threshold edge.
   */
  lemma ZeroBudgetMatchesDijkstra(g: Graph, start: int, goal: int, opt: Options, filtered: Outcome, plain: Outcome)
    requires g.WellFormed() && InRange(g, goal) && ConsistentEstimate(g, goal, opt) && opt.budgetM <= 0.0
    requires forall e :: 0 <= e < g.NumEdges() ==> 0.0 < g.lengthM[e]
    requires SearchSpec(g, start, goal, opt, filtered) && SearchSpec(g, start, goal, opt.(over := None), plain)
    requires filtered != CapHit && plain != CapHit
    ensures filtered.Found? ==> plain.Found?
    ensures plain.Found? ==>
              (filtered.Found? && filtered.path.cost == plain.path.cost
               <==> exists p :: IsCheapestRoute(g, start, goal, opt, p) && NoneOver(opt, p))
  {
    ZeroBudgetIsHardFilter(g, start, goal, opt, filtered);
    if filtered.Found? {
      PlainIsCheapest(g, start, goal, opt, plain, filtered.path.edges);
    }
    if plain.Found? {
      CostIgnoresThreshold(opt, plain.path.edges);
      assert Permitted(opt, plain.path.edges);
      if filtered.Found? && filtered.path.cost == plain.path.cost {
        forall q | IsRoute(g, start, goal, q) && Permitted(opt, q) ensures filtered.path.cost <= WalkCost(opt, q) {
          PlainIsCheapest(g, start, goal, opt, plain, q);
        }
        assert IsCheapestRoute(g, start, goal, opt, filtered.path.edges) && NoneOver(opt, filtered.path.edges);
      }
      if p :| IsCheapestRoute(g, start, goal, opt, p) && NoneOver(opt, p) {
        BudgetNeverHurts(g, start, goal, opt, filtered, p);
        assert WalkCost(opt, p) <= WalkCost(opt, plain.path.edges);
      }
    }
  }

  /** One street, from node 0 to node 1. */
  ghost predicate IsOneStreet(g: Graph) {
    && |g.loc| == 2 && g.from == [0] && g.to == [1] && |g.lengthM| == 1 && 0.0 < g.lengthM[0] && g.offs == [0, 1, 1]
  }

  lemma OneStreetIsRoute(g: Graph)
    requires IsOneStreet(g)
    ensures g.WellFormed() && IsRoute(g, 0, 1, [0])
  {
  }

  lemma OneStreetIsOnlyRoute(g: Graph, p: seq<nat>)
    requires IsOneStreet(g) && g.WellFormed() && IsRoute(g, 0, 1, p)
    ensures p != [] && p[0] == 0
  {
    assert p[0] < g.NumEdges();
  }

  /** With every street over the threshold and the budget at zero, that street is closed; with the threshold removed it is the route. */
  method ZeroBudgetIsNotDijkstra(g: Graph, opt: Options) returns (filtered: Outcome, plain: Outcome)
    requires IsOneStreet(g) && opt.over.Some? && opt.over.value(0) && opt.allow.None? && opt.budgetM == 0.0 && opt.maxExpansions <= 0
    ensures filtered == Unroutable && plain.Found?
  {
    OneStreetIsRoute(g);
    var released;
    ghost var final;
    filtered, released, final := Search.Search(null, g, 0, 1, opt);
    plain, released, final := Search.Search(null, g, 0, 1, opt.(over := None));
    OneStreetOutcomes(g, opt, filtered, plain);
  }

  lemma OneStreetOutcomes(g: Graph, opt: Options, filtered: Outcome, plain: Outcome)
    requires IsOneStreet(g) && g.WellFormed() && IsRoute(g, 0, 1, [0])
    requires opt.over.Some? && opt.over.value(0) && opt.allow.None? && opt.budgetM == 0.0 && opt.maxExpansions <= 0
    requires SearchSpec(g, 0, 1, opt, filtered) && SearchSpec(g, 0, 1, opt.(over := None), plain)
    ensures filtered == Unroutable && plain.Found?
  {
    ZeroBudgetIsHardFilter(g, 0, 1, opt, filtered);
    if filtered.Found? {
      OneStreetIsOnlyRoute(g, filtered.path.edges);
    }
    UnbudgetedIsOptimal(g, 0, 1, opt.(over := None), plain, [0]);
    assert NumStates(1, 1) == 1;
  }
}
