/**
 Why hunting for alternatives stops (internal/routing/alternatives.go:70-72).
 The first candidate that costs too much ends the hunt, on the remark that
 every later attempt would be worse still. Under the penalties that is so; but
 a candidate's true cost can fall again, because penalties hide cheap routes
 that share streets with the primary behind dear ones that do not.
 */
module LaterAttempts {
  import opened Wrappers
  import opened RoadGraph
  import opened Walks
  import opened StateSpace
  import opened Search
  import opened Alternatives
  import SearchResults
  import Workspaces

  // ------------------------------------------------- what holds: penalised costs rise

  lemma {:induction false} PenaltiesOnlyRaise(g: Graph, opt: Options, used: set<nat>, more: set<nat>, p: seq<nat>)
    requires NonNegative(g, opt) && used <= more && forall i :: 0 <= i < |p| ==> p[i] < g.NumEdges()
    ensures WalkCost(Penalise(opt, used), p) <= WalkCost(Penalise(opt, more), p)
  {
    if p != [] {
      PenaltiesOnlyRaise(g, opt, used, more, Init(p));
      assert 0.0 <= opt.edgeCost(Last(p));
    }
  }

  lemma {:induction false} PenalisedByGrows(g: Graph, primary: Path, tried: seq<Path>, i: nat)
    requires g.WellFormed() && i <= |tried|
    ensures PenalisedBy(g, primary, tried[..i]) <= PenalisedBy(g, primary, tried)
    decreases |tried|
  {
    if i < |tried| {
      var init := tried[..|tried| - 1];
      PenalisedByGrows(g, primary, init, i);
      assert init[..i] == tried[..i];
    } else {
      assert tried[..i] == tried;
    }
  }

  /** The cost of the best route under the penalties never falls as penalties are added. */
  lemma PenalisedOptimumRises(g: Graph, start: int, goal: int, opt: Options, used: set<nat>, more: set<nat>, c: Path, later: Path)
    requires g.WellFormed() && Priced(g, goal, opt) && used <= more && Fits(g, opt, later.edges)
    requires SearchSpec(g, start, goal, Penalise(opt, used), Found(c)) && SearchSpec(g, start, goal, Penalise(opt, more), Found(later))
    ensures c.cost <= later.cost
  {
    PenaltyKeepsConsistency(g, goal, opt, used);
    PenaltyKeepsFit(g, opt, used, later.edges);
    RouteEdges(g, start, goal, later.edges);
    PenaltiesOnlyRaise(g, opt, used, more, later.edges);
    assert IsRoute(g, start, goal, later.edges) && Permitted(Penalise(opt, used), later.edges);
  }

  // ------------------------------------------------- what does not: true costs

  /**
   Two ways from node 0 to node 2: one street of 17, or a street of 6 to node 1
   and from there one of 4 or one of 6.

       0 --0--> 1 ==2,3==> 2
       0 --1-------------> 2
   */
  ghost predicate IsFork(g: Graph) {
    && |g.loc| == 3 && g.from == [0, 0, 1, 1] && g.to == [1, 2, 2, 2] && g.offs == [0, 2, 4, 4]
    && g.lengthM == [6.0, 17.0, 4.0, 6.0]
  }

  /** Edges cost their length, and twice that when used; nothing else matters. */
  ghost predicate PricedByLength(g: Graph, opt: Options, used: set<nat>) {
    && opt.turnCost.None? && opt.allow.None? && opt.over.None? && opt.noHeuristic && opt.maxExpansions <= 0
    && forall e: nat {:trigger opt.edgeCost(e)} :: opt.edgeCost(e) == Price(g.lengthM, used, e)
  }

  function Price(lengthM: seq<real>, used: set<nat>, e: nat): real {
    if e >= |lengthM| then 0.0 else if e in used then lengthM[e] * 2.0 else lengthM[e]
  }

  lemma ForkOffsets(from: seq<nat>, offs: seq<nat>)
    requires from == [0, 0, 1, 1] && offs == [0, 2, 4, 4]
    ensures ExactOffsets(from, 3, offs)
  {
  }

  lemma ForkWellFormed(g: Graph)
    requires IsFork(g)
    ensures g.WellFormed()
  {
    ForkOffsets(g.from, g.offs);
  }

  lemma ForkRoutes(g: Graph, p: seq<nat>)
    requires IsFork(g) && g.WellFormed() && IsRoute(g, 0, 2, p)
    ensures p == [1] || p == [0, 2] || p == [0, 3]
  {
    assert p[0] < 4;
    if |p| >= 2 {
      Consecutive(g, p, 0);
      if |p| >= 3 {
        Consecutive(g, p, 1);
      }
    }
  }

  lemma Consecutive(g: Graph, p: seq<nat>, i: nat)
    requires g.WellFormed() && IsWalk(g, 0, p) && i + 1 < |p|
    ensures p[i] < g.NumEdges() && p[i + 1] < g.NumEdges() && g.from[p[i + 1]] == g.to[p[i]]
  {
  }

  lemma ForkAreRoutes(g: Graph)
    requires IsFork(g) && g.WellFormed()
    ensures IsRoute(g, 0, 2, [1]) && IsRoute(g, 0, 2, [0, 2]) && IsRoute(g, 0, 2, [0, 3])
  {
  }

  lemma OneStreet(g: Graph, opt: Options, used: set<nat>, e: nat)
    requires PricedByLength(g, opt, used)
    ensures WalkCost(opt, [e]) == Price(g.lengthM, used, e)
  {
    assert Init([e]) == [] && Last([e]) == e;
  }

  lemma TwoStreets(g: Graph, opt: Options, used: set<nat>, e: nat, f: nat)
    requires PricedByLength(g, opt, used)
    ensures WalkCost(opt, [e, f]) == Price(g.lengthM, used, e) + Price(g.lengthM, used, f)
  {
    OneStreet(g, opt, used, e);
    assert Init([e, f]) == [e] && Last([e, f]) == f;
  }

  lemma ForkIsPriced(g: Graph, opt: Options, used: set<nat>)
    requires IsFork(g) && g.WellFormed() && PricedByLength(g, opt, used)
    ensures Priced(g, 2, opt) && SearchResults.NothingOver(g, opt)
  {
    forall e: nat | e < g.NumEdges() ensures 0.0 <= opt.edgeCost(e) {
      assert 0.0 <= g.lengthM[e];
    }
  }

  /** What the search finds on the fork: the cheapest of the three routes at these prices. */
  lemma ForkFinds(g: Graph, opt: Options, used: set<nat>, o: Outcome)
    requires IsFork(g) && g.WellFormed() && PricedByLength(g, opt, used) && SearchSpec(g, 0, 2, opt, o)
    ensures o.Found? && o.path.cost == WalkCost(opt, o.path.edges)
    ensures o.path.edges == [1] || o.path.edges == [0, 2] || o.path.edges == [0, 3]
    ensures o.path.cost <= WalkCost(opt, [1]) && o.path.cost <= WalkCost(opt, [0, 2]) && o.path.cost <= WalkCost(opt, [0, 3])
  {
    ForkAreRoutes(g);
    ForkIsPriced(g, opt, used);
    SearchResults.UnbudgetedIsOptimal(g, 0, 2, opt, o, [1]);
    SearchResults.UnbudgetedIsOptimal(g, 0, 2, opt, o, [0, 2]);
    SearchResults.UnbudgetedIsOptimal(g, 0, 2, opt, o, [0, 3]);
    assert NumStates(4, 1) == 4;
    if o.Found? {
      ForkRoutes(g, o.path.edges);
    }
  }

  /** At the plain prices the best route is 10 long. */
  lemma ForkFirst(g: Graph, opt: Options, primary: Path)
    requires IsFork(g) && g.WellFormed() && PricedByLength(g, opt, {}) && SearchSpec(g, 0, 2, opt, Found(primary))
    ensures primary.edges == [0, 2] && primary.cost == 10.0
  {
    ForkFinds(g, opt, {}, Found(primary));
    OneStreet(g, opt, {}, 1);
    TwoStreets(g, opt, {}, 0, 2);
    TwoStreets(g, opt, {}, 0, 3);
  }

  /** With the primary's streets penalised, the street of 17 wins. */
  lemma ForkSecond(g: Graph, opt: Options, o: Outcome)
    requires IsFork(g) && g.WellFormed() && PricedByLength(g, opt, {0, 2}) && SearchSpec(g, 0, 2, opt, o)
    ensures o.Found? && o.path.edges == [1]
  {
    ForkFinds(g, opt, {0, 2}, o);
    OneStreet(g, opt, {0, 2}, 1);
    TwoStreets(g, opt, {0, 2}, 0, 2);
    TwoStreets(g, opt, {0, 2}, 0, 3);
  }

  /** With that one penalised too, the route of 12 does. */
  lemma ForkThird(g: Graph, opt: Options, o: Outcome)
    requires IsFork(g) && g.WellFormed() && PricedByLength(g, opt, {0, 1, 2}) && SearchSpec(g, 0, 2, opt, o)
    ensures o.Found? && o.path.edges == [0, 3]
  {
    ForkFinds(g, opt, {0, 1, 2}, o);
    OneStreet(g, opt, {0, 1, 2}, 1);
    TwoStreets(g, opt, {0, 1, 2}, 0, 2);
    TwoStreets(g, opt, {0, 1, 2}, 0, 3);
  }

  /** No street of the fork has a reverse twin. */
  lemma ForkCovered(g: Graph, p: seq<nat>)
    requires IsFork(g) && g.WellFormed() && forall i :: 0 <= i < |p| ==> p[i] < 4
    ensures Covered(g, p) == set e | e in p
  {
    forall e: nat ensures e in Covered(g, p) <==> e in p {
      if e in p {
        var i :| 0 <= i < |p| && p[i] == e;
        assert Covers(g, p, e);
      }
    }
  }

  lemma PenalisedByLength(g: Graph, opt: Options, used: set<nat>)
    requires PricedByLength(g, opt, {})
    ensures PricedByLength(g, Penalise(opt, used), used)
  {
    forall e: nat ensures Penalise(opt, used).edgeCost(e) == Price(g.lengthM, used, e) {
      assert opt.edgeCost(e) == Price(g.lengthM, {}, e);
    }
  }

  /** The three searches, one after the other: the second answer ends the hunt, and the third would have been worth offering. */
  method LaterAttemptIsBetter(w: Workspaces.Workspace, g: Graph, opt: Options) returns (primary: Path, a: Path, b: Path)
    requires IsFork(g) && PricedByLength(g, opt, {}) && w.Valid()
    modifies w.Repr
    ensures g.WellFormed() && SearchSpec(g, 0, 2, opt, Found(primary)) && primary.cost == 10.0
    ensures IsAttempt(g, 0, 2, opt, PenalisedBy(g, primary, []), a) && a.cost == 17.0 && TooDear(primary, a)
    ensures IsAttempt(g, 0, 2, opt, PenalisedBy(g, primary, [a]), b) && b.cost == 12.0
    ensures !TooDear(primary, b) && Distinct(g, b, [primary])
    ensures w.Valid() && fresh(w.Repr - old(w.Repr))
  {
    ForkWellFormed(g);
    var o := SearchOn(w, g, 0, 2, opt);
    ForkFinds(g, opt, {}, o);
    primary := o.path;
    ForkFirst(g, opt, primary);
    a := FindOnFork(w, g, opt, {0, 2});
    b := FindOnFork(w, g, opt, {0, 1, 2});
    ForkHunt(g, opt, primary, a, b);
  }

  /** One attempt on the fork. */
  method FindOnFork(w: Workspaces.Workspace, g: Graph, opt: Options, used: set<nat>) returns (c: Path)
    requires IsFork(g) && g.WellFormed() && PricedByLength(g, opt, {}) && w.Valid()
    modifies w.Repr
    ensures IsAttempt(g, 0, 2, opt, used, c)
    ensures w.Valid() && fresh(w.Repr - old(w.Repr))
  {
    PenalisedByLength(g, opt, used);
    var o := SearchOn(w, g, 0, 2, Penalise(opt, used));
    ForkFinds(g, Penalise(opt, used), used, o);
    var trueCost := ScorePath(opt, o.path.edges);
    c := o.path.(cost := trueCost);
  }

  lemma ForkHunt(g: Graph, opt: Options, primary: Path, a: Path, b: Path)
    requires IsFork(g) && g.WellFormed() && PricedByLength(g, opt, {}) && primary.edges == [0, 2] && primary.cost == 10.0
    requires IsAttempt(g, 0, 2, opt, {0, 2}, a) && IsAttempt(g, 0, 2, opt, {0, 1, 2}, b)
    ensures PenalisedBy(g, primary, []) == {0, 2} && PenalisedBy(g, primary, [a]) == {0, 1, 2}
    ensures a.cost == 17.0 && b.cost == 12.0 && TooDear(primary, a) && !TooDear(primary, b) && Distinct(g, b, [primary])
  {
    PenalisedByLength(g, opt, {0, 2});
    PenalisedByLength(g, opt, {0, 1, 2});
    ForkSecond(g, Penalise(opt, {0, 2}), Found(a.(cost := WalkCost(Penalise(opt, {0, 2}), a.edges))));
    ForkThird(g, Penalise(opt, {0, 1, 2}), Found(b.(cost := WalkCost(Penalise(opt, {0, 1, 2}), b.edges))));
    OneStreet(g, opt, {}, 1);
    TwoStreets(g, opt, {}, 0, 3);
    ForkCovered(g, [0, 2]);
    ForkCovered(g, [1]);
    HalfShared(g, b, primary);
    assert [a][..0] == [];
  }

  /** The route of 12 shares 6 with the primary. */
  lemma HalfShared(g: Graph, b: Path, primary: Path)
    requires IsFork(g) && b.edges == [0, 3] && b.lengthM == WalkLength(g, b.edges) && primary.edges == [0, 2]
    ensures Distinct(g, b, [primary])
  {
    assert Init([0, 3]) == [0] && Last([0, 3]) == 3 && Init([0]) == [] && Last([0]) == 0;
    assert SharedLength(g, [], [0, 2]) == 0.0 && WalkLength(g, []) == 0.0;
    assert SharedLength(g, [0], [0, 2]) == 6.0 && WalkLength(g, [0]) == 6.0;
    assert 3 !in [0, 2];
  }
}
