/**
 The cap on expansions (internal/routing/search.go:136-139, 208-211). The
 original reports a search that hits it as unroutable, although a route may
 exist.
 */
module ExpansionCap {
  import opened RoadGraph
  import opened Walks
  import opened SearchInvariant
  import opened Search
  import Geo
  import Wrappers
  import Guidance
  import Outcomes
  import SearchResults
  import StateSpace

  /** A street of `m` edges from node 0 to node `m`. */
  function Street(m: nat): Graph {
    Graph(
      (a: Geo.LatLon, b: Geo.LatLon) => 0.0,
      seq(m + 1, _ => Geo.LatLon(0.0, 0.0)), [], [],
      seq(m, e => e), seq(m, e requires 0 <= e => e + 1), seq(m, _ => 1.0),
      [], [], [], [], [], [], [], [],
      seq(m + 2, v requires 0 <= v => if v <= m then v else m))
  }

  /** No filter, no threshold, no guidance: only the cap. */
  function Capped(cap: nat): Options {
    Options((e: nat) => 1.0, Wrappers.None, Wrappers.None, Wrappers.None, 0.0, 0, cap, true)
  }

  function WholeStreet(m: nat): seq<nat> {
    seq(m, e => e)
  }

  lemma StreetWellFormed(m: nat)
    ensures Street(m).WellFormed() && Street(m).NumEdges() == m && Street(m).NumNodes() == m + 1
  {
  }

  lemma WholeStreetIsRoute(m: nat, cap: nat)
    requires 1 <= m && Street(m).WellFormed()
    ensures IsRoute(Street(m), 0, m, WholeStreet(m)) && Permitted(Capped(cap), WholeStreet(m))
  {
  }

  /** State `e` is edge `e`, which leads from node `e` to the next. */
  ghost predicate OnStreet(P: Problem, m: nat) {
    && P.Ok() && 0.0 <= P.opt.budgetM && P.start == 0 && P.goal == m && P.numStates == m && P.g.NumEdges() == m
    && forall e {:trigger P.edgeOf(e)} :: 0 <= e < m ==> P.edgeOf(e) == e && P.g.from[e] == e && P.g.to[e] == e + 1
  }

  /** Before a state of the street is labelled all states before it are settled. */
  lemma {:induction false} AllBeforeSettled(P: Problem, r: Run, m: nat, st: nat)
    requires OnStreet(P, m) && Inv(P, r, IDLE, 0) && Reached(r, st) && st < m
    ensures forall u :: 0 <= u < st ==> r.done[u]
    decreases st
  {
    var src := StreetBefore(P, r, m, st);
    if src != NO_SOURCE {
      AllBeforeSettled(P, r, m, src);
    }
  }

  /** A label extends that of the street before. */
  lemma StreetBefore(P: Problem, r: Run, m: nat, st: nat) returns (src: int)
    requires OnStreet(P, m) && Inv(P, r, IDLE, 0) && Reached(r, st) && st < m
    ensures if src == NO_SOURCE then st == 0 else 0 <= src && src == st - 1 && Reached(r, src) && r.done[src]
  {
    src := Guidance.LastStep(P, r, st);
    assert P.edgeOf(st) == st;
    if src != NO_SOURCE {
      assert P.edgeOf(src) == src;
    }
  }

  lemma {:induction false} DoneCountCovers(done: seq<bool>, k: nat)
    requires k <= |done| && forall u :: 0 <= u < k ==> done[u]
    ensures DoneCount(done) >= k
  {
    if done != [] {
      DoneCountCovers(done[..|done| - 1], if k < |done| then k else |done| - 1);
    }
  }

  lemma GoalTakesAll(P: Problem, r: Run, m: nat, path: Path)
    requires 1 <= m && OnStreet(P, m) && Inv(P, r, IDLE, 0) && Popped(P, r, path)
    ensures DoneCount(r.done) + 1 >= m
  {
    var x :| IsLeast(r, x) && IsOpenGoal(P, r, x.state) && r.walk[x.state] == path.edges;
    assert P.edgeOf(x.state) == x.state;
    AllBeforeSettled(P, r, m, x.state);
    DoneCountCovers(r.done, m - 1);
  }

  lemma StreetRequest(m: nat, cap: nat)
    requires 1 <= m && Street(m).WellFormed()
    ensures OnStreet(MakeProblem(Street(m), 0, m, Capped(cap)), m)
  {
    MakeProblemReady(Street(m), 0, m, Capped(cap));
  }

  /** With a cap below the street's length every outcome is the cap, although the street is a route. */
  lemma ShortCapIsHit(m: nat, cap: nat, o: Outcome, final: Run)
    requires 1 <= cap < m && Street(m).WellFormed()
    requires SearchSpec(Street(m), 0, m, Capped(cap), o) && Explained(Street(m), 0, m, Capped(cap), o, final)
    ensures o == CapHit
  {
    WholeStreetIsRoute(m, cap);
    SearchResults.UnbudgetedIsOptimal(Street(m), 0, m, Capped(cap), o, WholeStreet(m));
    if o.Found? {
      StreetRequest(m, cap);
      GoalTakesAll(MakeProblem(Street(m), 0, m, Capped(cap)), final, m, o.path);
    }
  }

  /** No search without a threshold, on a graph of `m` edges and under this cap, ever hits the cap. */
  ghost predicate NeverCapped(m: nat, cap: nat) {
    forall g: Graph, start: nat, goal: nat, opt: Options, o: Outcome, final: Run {:trigger Explained(g, start, goal, opt, o, final)} ::
      && g.WellFormed() && g.NumEdges() == m && start < g.NumNodes() && goal < g.NumNodes() && start != goal
      && opt.over.None? && MaxExpansions(opt) == cap
      && SearchSpec(g, start, goal, opt, o) && Explained(g, start, goal, opt, o, final)
      ==> o != CapHit
  }

  /** Without a threshold the cap is harmless on every graph of `m` edges if and only if it is at least `m`. */
  lemma CapHarmlessExactlyWhenItCoversEdges(m: nat, cap: nat)
    requires 1 <= m && 1 <= cap
    ensures NeverCapped(m, cap) <==> m <= cap
  {
    if cap < m {
      StreetWellFormed(m);
      var o, final := Outcomes.SomeOutcome(Street(m), 0, m, Capped(cap));
      ShortCapIsHit(m, cap, o, final);
    }
  }

  /** Two streets in a row and a cap of one expansion: there is a route, and the search stops at the cap. */
  method CappedDespiteRoute() returns (o: Outcome)
    ensures Street(2).WellFormed() && IsRoute(Street(2), 0, 2, WholeStreet(2)) && Permitted(Capped(1), WholeStreet(2))
    ensures o == CapHit
  {
    StreetWellFormed(2);
    WholeStreetIsRoute(2, 1);
    var released;
    ghost var final;
    o, released, final := Search.Search(null, Street(2), 0, 2, Capped(1));
    ShortCapIsHit(2, 1, o, final);
  }
}
