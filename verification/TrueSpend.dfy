/**
 When the search answers as if it kept every spend apart: for routes that are
 the only cheapest way onto each of their edges
 (internal/routing/search.go:113-127, 230-237).
 */
module TrueSpend {
  import opened RoadGraph
  import opened Walks
  import opened StateSpace
  import opened ExactBudget
  import opened Search

  /** No other permitted walk onto any of its edges is as cheap, nor dearer by `eps` a step or less. */
  ghost predicate OnlyCheapest(g: Graph, start: int, opt: Options, p: seq<nat>, eps: real)
    requires g.WellFormed()
  {
    && IsWalk(g, start, p) && Permitted(opt, p)
    && forall i, w {:trigger p[..i], IsWalk(g, start, w)} ::
         1 <= i <= |p| && IsWalk(g, start, w) && Permitted(opt, w) && Last(w) == Last(p[..i]) && WalkCost(opt, w) <= WalkCost(opt, p[..i]) + Widths(i, eps) ==> w == p[..i]
  }

  lemma OnlyCheapestIsUnrivalled(g: Graph, start: int, opt: Options, p: seq<nat>, eps: real)
    requires g.WellFormed() && OnlyCheapest(g, start, opt, p, eps) && Affordable(g, opt, p)
    ensures Unrivalled(g, start, opt, p, eps)
  {
  }

  /** The cheapest route of all, when nothing on the way is as cheap and its true spend is within the budget, has the answer's cost but for `eps` a step, however its lengths round. */
  lemma OnlyCheapestIsTheAnswer(g: Graph, start: int, goal: int, opt: Options, o: Outcome, p: seq<nat>, eps: real)
    requires g.WellFormed() && start != goal && InRange(g, goal) && NearlyConsistentEstimate(g, goal, opt, eps)
    requires SearchSpec(g, start, goal, opt, o) && BudgetIsExact(g, start, goal, opt, o) && o != CapHit
    requires IsRoute(g, start, goal, p) && OnlyCheapest(g, start, opt, p, eps) && Affordable(g, opt, p)
    requires forall w :: IsRoute(g, start, goal, w) && Permitted(opt, w) ==> WalkCost(opt, p) <= WalkCost(opt, w)
    ensures o.Found? && WalkCost(opt, p) <= o.path.cost <= WalkCost(opt, p) + Widths(|p|, eps)
    ensures eps == 0.0 ==> o.path.cost == WalkCost(opt, p)
  {
    OnlyCheapestIsUnrivalled(g, start, opt, p, eps);
    NoWidth(|p|);
  }

  // ------------------------------------------------------------- two stretches

  /** Two streets in a row, of 150 and 210 metres. */
  ghost predicate IsTwoStreets(g: Graph) {
    |g.loc| == 3 && g.from == [0, 1] && g.to == [1, 2] && g.lengthM == [150.0, 210.0] && g.offs == [0, 1, 2, 2]
  }

  /** Both are over the threshold, the budget is 400 in the default buckets, and nothing else matters. */
  ghost predicate OverBoth(opt: Options) {
    && opt.over.Some? && opt.over.value(0) && opt.over.value(1) && opt.allow.None? && opt.budgetM == 400.0 && opt.budgetSteps == 0
    && 0.0 <= opt.Turn(0, 1) + opt.edgeCost(1) && opt.noHeuristic && opt.maxExpansions == 0
  }

  lemma TwoStreetsWellFormed(g: Graph)
    requires IsTwoStreets(g)
    ensures g.WellFormed()
  {
    TwoStreetOffsets(g.from, g.offs);
  }

  lemma TwoStreetOffsets(from: seq<nat>, offs: seq<nat>)
    requires from == [0, 1] && offs == [0, 1, 2, 2]
    ensures ExactOffsets(from, 3, offs)
  {
  }

  /** There is one way onto each street. */
  lemma WaysOnto(g: Graph, w: seq<nat>)
    requires IsTwoStreets(g) && g.WellFormed() && IsWalk(g, 0, w)
    ensures w == if Last(w) == 0 then [0] else [0, 1]
  {
    StreetAt(g, w, |w| - 1);
    StreetAt(g, w, 0);
  }

  lemma {:induction false} StreetAt(g: Graph, w: seq<nat>, i: nat)
    requires IsTwoStreets(g) && g.WellFormed() && IsWalk(g, 0, w) && i < |w|
    ensures i < 2 && w[i] == i
  {
    assert w[i] < 2;
    if i > 0 {
      StreetAt(g, w, i - 1);
      assert g.from[w[i]] == g.to[w[i - 1]];
    }
  }

  lemma TwoStreetsOnlyCheapest(g: Graph, opt: Options)
    requires IsTwoStreets(g) && g.WellFormed() && OverBoth(opt)
    ensures IsRoute(g, 0, 2, [0, 1]) && OnlyCheapest(g, 0, opt, [0, 1], 0.0)
  {
    forall i, w | 1 <= i <= 2 && IsWalk(g, 0, w) && Last(w) == Last([0, 1][..i]) ensures w == [0, 1][..i] {
      WaysOnto(g, w);
    }
  }

  lemma TwoStreetsSpend(g: Graph, opt: Options)
    requires IsTwoStreets(g) && OverBoth(opt)
    ensures OverLength(g, opt, [0, 1]) == 360.0
  {
    assert OverM(g, opt, 0) == 150.0 && OverM(g, opt, 1) == 210.0;
    assert [0, 1] == [] + [0] + [1] && OverLength(g, opt, []) == 0.0;
    Snoc([], 0);
    Snoc([] + [0], 1);
  }

  lemma TwoStreetsFound(g: Graph, opt: Options, o: Outcome)
    requires IsTwoStreets(g) && g.WellFormed() && OverBoth(opt)
    requires SearchSpec(g, 0, 2, opt, o) && BudgetIsExact(g, 0, 2, opt, o)
    ensures o.Found? && o.path.edges == [0, 1]
  {
    TwoStreetsOnlyCheapest(g, opt);
    TwoStreetsSpend(g, opt);
    assert NumStates(2, 4) == 8;
    forall w | IsRoute(g, 0, 2, w) ensures w == [0, 1] {
      WaysOnto(g, w);
    }
    OnlyCheapestIsTheAnswer(g, 0, 2, opt, o, [0, 1], 0.0);
  }

  /** Stretches of 150 and 210 round up to five of four buckets of 100, yet they are found: 360 is within 400. */
  method TwoStretchesAreFound(g: Graph, opt: Options) returns (o: Outcome)
    requires IsTwoStreets(g) && OverBoth(opt)
    ensures g.WellFormed() && o.Found? && o.path.edges == [0, 1]
    ensures !Fits(g, opt, [0, 1])
  {
    TwoStreetsWellFormed(g);
    TwoStreetsRoundUp(g, opt);
    var released;
    ghost var final;
    o, released, final := Search.Search(null, g, 0, 2, opt);
    TwoStreetsFound(g, opt, o);
  }

  lemma TwoStreetsRoundUp(g: Graph, opt: Options)
    requires IsTwoStreets(g) && g.WellFormed() && OverBoth(opt)
    ensures !Fits(g, opt, [0, 1])
  {
    assert BudgetBuckets(opt) == (4, 100.0);
    assert Widths(1, 100.0) == Widths(0, 100.0) + 100.0 && Widths(2, 100.0) == Widths(1, 100.0) + 100.0;
    MoreThan(150.0, 1);
    MoreThan(210.0, 2);
    assert EdgeUnits(g, opt, 0) >= 2 && EdgeUnits(g, opt, 1) >= 3;
    Snoc([], 0);
    Snoc([] + [0], 1);
    assert Units(g, opt, [] + [0] + [1]) == Units(g, opt, []) + EdgeUnits(g, opt, 0) + EdgeUnits(g, opt, 1);
    assert [0, 1] == [] + [0] + [1];
  }

  lemma MoreThan(l: real, k: nat)
    requires 0.0 <= l && Widths(k, 100.0) < l
    ensures CeilSteps(l, 100.0) > k
  {
    if CeilSteps(l, 100.0) <= k {
      WidthsGrow(CeilSteps(l, 100.0), k, 100.0);
    }
  }
}
