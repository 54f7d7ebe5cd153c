/**
 Routes as edge walks, what they cost, and the options that price them
 (internal/routing/search.go, Options and scorePath).

 These definitions mention neither states, buckets, labels nor queues: they are
 the independent yardstick the search is measured against.
 */
module Walks {
  import opened Wrappers
  import opened RoadGraph

  datatype Options = Options(
    edgeCost: nat -> real,
    turnCost: Option<(nat, nat) -> real>,
    allow: Option<nat -> bool>,
    over: Option<nat -> bool>,
    budgetM: real,
    budgetSteps: int,
    maxExpansions: int,
    noHeuristic: bool)
  {
    /** The price of turning from `e` onto `f`; turns are free when no function is given. */
    function Turn(e: nat, f: nat): real {
      if turnCost.Some? then turnCost.value(e, f) else 0.0
    }

    predicate Allows(e: nat) {
      allow.Some? ==> allow.value(e)
    }

    predicate IsOver(e: nat) {
      over.Some? && over.value(e)
    }
  }

  function Last(p: seq<nat>): nat
    requires p != []
  {
    p[|p| - 1]
  }

  function Init(p: seq<nat>): seq<nat>
    requires p != []
  {
    p[..|p| - 1]
  }

  /** A non-empty run of edges leaving `start`, each beginning where the last one ended. */
  ghost predicate IsWalk(g: Graph, start: int, p: seq<nat>)
    requires g.WellFormed()
  {
    && p != []
    && (forall i :: 0 <= i < |p| ==> p[i] < g.NumEdges())
    && g.from[p[0]] == start
    && (forall i, j {:trigger p[i], p[j]} :: 0 <= i < j < |p| && j == i + 1 ==> g.from[p[j]] == g.to[p[i]])
  }

  /** A way of getting from `start` to `goal`; staying put uses no edge. */
  ghost predicate IsRoute(g: Graph, start: int, goal: int, p: seq<nat>)
    requires g.WellFormed()
  {
    if start == goal then p == [] else IsWalk(g, start, p) && g.to[Last(p)] == goal
  }

  /** The cost of entering the last edge of a walk, turn included. */
  function LastStepCost(opt: Options, p: seq<nat>): real
    requires p != []
  {
    opt.edgeCost(Last(p)) + if |p| > 1 then opt.Turn(p[|p| - 2], Last(p)) else 0.0
  }

  function WalkCost(opt: Options, p: seq<nat>): real {
    if p == [] then 0.0 else WalkCost(opt, Init(p)) + LastStepCost(opt, p)
  }

  /** The length of edge `e`, or nothing for an index outside the graph. */
  function EdgeLength(g: Graph, e: nat): real {
    if e < |g.lengthM| then g.lengthM[e] else 0.0
  }

  function WalkLength(g: Graph, p: seq<nat>): real {
    if p == [] then 0.0 else WalkLength(g, Init(p)) + EdgeLength(g, Last(p))
  }

  /** What an edge draws from the stress budget. */
  function OverM(g: Graph, opt: Options, e: nat): real {
    if opt.IsOver(e) then EdgeLength(g, e) else 0.0
  }

  /** Total over-threshold distance of a walk. */
  function OverLength(g: Graph, opt: Options, p: seq<nat>): real {
    if p == [] then 0.0 else OverLength(g, opt, Init(p)) + OverM(g, opt, Last(p))
  }

  /** No edge of the walk is over the threshold. */
  predicate NoneOver(opt: Options, p: seq<nat>) {
    forall i :: 0 <= i < |p| ==> !opt.IsOver(p[i])
  }

  /** No edge of the walk is removed by the hard filter. */
  predicate Permitted(opt: Options, p: seq<nat>) {
    forall i :: 0 <= i < |p| ==> opt.Allows(p[i])
  }

  lemma Snoc(p: seq<nat>, e: nat)
    ensures Last(p + [e]) == e && Init(p + [e]) == p
  {
  }

  lemma WalkExtend(g: Graph, start: int, p: seq<nat>, e: nat)
    requires g.WellFormed() && IsWalk(g, start, p)
    requires e < g.NumEdges() && g.from[e] == g.to[Last(p)]
    ensures IsWalk(g, start, p + [e])
  {
  }

  /** The last edge of a longer walk leaves the node the rest of it reaches. */
  lemma WalkInit(g: Graph, start: int, p: seq<nat>)
    requires g.WellFormed() && IsWalk(g, start, p) && |p| > 1
    ensures IsWalk(g, start, Init(p)) && g.from[Last(p)] == g.to[Last(Init(p))]
  {
    WalkPrefix(g, start, p, |p| - 1);
    assert g.from[p[|p| - 1]] == g.to[p[|p| - 2]];
  }

  lemma WalkPrefix(g: Graph, start: int, p: seq<nat>, i: nat)
    requires g.WellFormed() && IsWalk(g, start, p) && 1 <= i <= |p|
    ensures IsWalk(g, start, p[..i])
  {
  }

  lemma {:induction false} OverLengthNonNegative(g: Graph, opt: Options, p: seq<nat>)
    requires g.WellFormed()
    ensures 0.0 <= OverLength(g, opt, p)
  {
    if p != [] {
      OverLengthNonNegative(g, opt, Init(p));
    }
  }
}
