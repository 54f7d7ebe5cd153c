/**
 The budget is checked in exact metres (internal/routing/search.go:230-237):
 rounding decides which labels compete, never which edges are affordable. So a
 route is found for what it really spends, as long as nothing that is as cheap
 and has spent more can take its place on the way.
 */
module ExactBudget {
  import opened RoadGraph
  import opened Walks
  import opened StateSpace

  /** No stressful edge on the way takes the walk over the budget. */
  ghost predicate Affordable(g: Graph, opt: Options, p: seq<nat>) {
    NoneOver(opt, p) || OverLength(g, opt, p) <= opt.budgetM
  }

  /** Among the affordable walks onto its last edge, none that is no dearer, but for `eps` a step, has spent more. */
  ghost predicate Frugal(g: Graph, start: int, opt: Options, q: seq<nat>, eps: real)
    requires g.WellFormed() && q != []
  {
    forall w {:trigger IsWalk(g, start, w)} ::
      && IsWalk(g, start, w) && Permitted(opt, w) && OverLength(g, opt, w) <= Allowance(opt.budgetM)
      && Last(w) == Last(q) && WalkCost(opt, w) <= WalkCost(opt, q) + Widths(|q|, eps)
      ==> OverLength(g, opt, w) <= OverLength(g, opt, q)
  }

  /** An affordable walk that is frugal all along. */
  ghost predicate Unrivalled(g: Graph, start: int, opt: Options, p: seq<nat>, eps: real)
    requires g.WellFormed()
  {
    && IsWalk(g, start, p) && Permitted(opt, p) && Affordable(g, opt, p)
    && forall i {:trigger p[..i]} :: 1 <= i <= |p| ==> Frugal(g, start, opt, p[..i], eps)
  }

  lemma UnrivalledInit(g: Graph, start: int, opt: Options, p: seq<nat>, eps: real)
    requires g.WellFormed() && Unrivalled(g, start, opt, p, eps) && |p| > 1
    ensures Unrivalled(g, start, opt, Init(p), eps) && g.from[Last(p)] == g.to[Last(Init(p))]
  {
    WalkInit(g, start, p);
    forall i | 1 <= i <= |p| - 1 ensures Frugal(g, start, opt, Init(p)[..i], eps) {
      assert Init(p)[..i] == p[..i];
    }
  }

  lemma UnrivalledIsFrugal(g: Graph, start: int, opt: Options, p: seq<nat>, eps: real)
    requires g.WellFormed() && Unrivalled(g, start, opt, p, eps)
    ensures Frugal(g, start, opt, p, eps)
  {
    assert p[..|p|] == p;
  }

  /** Whoever has spent no more than the walk up to its last edge can afford that edge. */
  lemma NextIsAffordable(g: Graph, start: int, opt: Options, spent: real, p: seq<nat>, eps: real)
    requires g.WellFormed() && Unrivalled(g, start, opt, p, eps) && spent <= OverLength(g, opt, Init(p))
    ensures opt.IsOver(Last(p)) ==> spent + EdgeLength(g, Last(p)) <= opt.budgetM
  {
  }
}
