/**
 What the alternatives offered have to do with one another
 (internal/routing/alternatives.go:60-129): no two are one route, and every
 candidate found is offered or was dropped for a reason.
 */
module Offers {
  import opened Wrappers
  import opened RoadGraph
  import opened Walks
  import opened Search
  import opened Alternatives

  // ------------------------------------------------------------- shared length

  /** Shared length adds up along the candidate. */
  lemma {:induction false} SharedOfConcat(g: Graph, p: seq<nat>, p': seq<nat>, q: seq<nat>)
    ensures SharedLength(g, p + p', q) == SharedLength(g, p, q) + SharedLength(g, p', q)
  {
    if p' == [] {
      assert p + p' == p;
    } else {
      SharedOfConcat(g, p, Init(p'), q);
      assert Init(p + p') == p + Init(p');
    }
  }

  /** A candidate all of whose edges are on the other route shares all of its length. */
  lemma {:induction false} SharedByAll(g: Graph, p: seq<nat>, q: seq<nat>)
    requires forall i :: 0 <= i < |p| ==> p[i] in q
    ensures SharedLength(g, p, q) == WalkLength(g, p)
  {
    if p != [] {
      SharedByAll(g, Init(p), q);
    }
  }

  /** One none of whose edges is shares nothing. */
  lemma {:induction false} SharedByNone(g: Graph, p: seq<nat>, q: seq<nat>)
    requires forall i :: 0 <= i < |p| ==> p[i] !in q
    ensures SharedLength(g, p, q) == 0.0
  {
    if p != [] {
      SharedByNone(g, Init(p), q);
    }
  }

  // ------------------------------------------------------------- what is offered

  /** Every route offered leaves every earlier one somewhere. */
  lemma OfferedIsNew(g: Graph, start: int, goal: int, opt: Options, n: int, routes: seq<Path>, tried: seq<Path>, j: nat, k: nat)
    requires g.WellFormed() && Offered(g, start, goal, opt, n, routes, tried) && j < k < |routes|
    ensures exists i :: 0 <= i < |routes[k].edges| && routes[k].edges[i] !in routes[j].edges
    ensures routes[j].edges != routes[k].edges
  {
    OfferedAreWorthOffering(g, start, goal, opt, n, routes, tried);
    assert WorthOffering(g, start, goal, opt, routes, k);
    assert Differs(g, routes[k], routes[j]);
    if forall i :: 0 <= i < |routes[k].edges| ==> routes[k].edges[i] in routes[j].edges {
      SharedByAll(g, routes[k].edges, routes[j].edges);
    }
  }

  /** Why a candidate is not offered: too dear, without length, or on the streets of a route that is. */
  ghost predicate NotWorthIt(g: Graph, routes: seq<Path>, c: Path)
    requires routes != []
  {
    TooDear(routes[0], c) || c.lengthM <= 0.0 || exists j :: 0 <= j < |routes| && !Differs(g, c, routes[j])
  }

  lemma NotWorthItStays(g: Graph, routes: seq<Path>, more: seq<Path>, c: Path)
    requires routes != [] && routes <= more && NotWorthIt(g, routes, c)
    ensures NotWorthIt(g, more, c)
  {
    if j :| 0 <= j < |routes| && !Differs(g, c, routes[j]) {
      assert more[j] == routes[j];
    }
  }

  /** Nothing worth offering is dropped. */
  lemma {:induction false} DroppedForAReason(g: Graph, primary: Path, tried: seq<Path>, i: nat)
    requires i < |tried|
    ensures var routes := Chosen(g, primary, tried);
            routes != [] && routes[0] == primary && (tried[i] in routes || NotWorthIt(g, routes, tried[i]))
    decreases |tried|
  {
    var init, routes := tried[..|tried| - 1], Chosen(g, primary, tried);
    ChosenStartsWithPrimary(g, primary, init);
    ChosenStartsWithPrimary(g, primary, tried);
    var kept := Chosen(g, primary, init);
    assert kept <= routes;
    if i < |init| {
      DroppedForAReason(g, primary, init, i);
      if NotWorthIt(g, kept, tried[i]) {
        NotWorthItStays(g, kept, routes, tried[i]);
      }
    } else if tried[i] !in routes {
      assert !Distinct(g, tried[i], kept) || TooDear(primary, tried[i]);
      NotWorthItStays(g, kept, routes, tried[i]);
    }
  }

  /** Of what is offered: every candidate tried is offered or not worth it. */
  lemma EveryCandidateIsOfferedOrNotWorthIt(g: Graph, start: int, goal: int, opt: Options, n: int, routes: seq<Path>, tried: seq<Path>, i: nat)
    requires g.WellFormed() && Offered(g, start, goal, opt, n, routes, tried) && i < |tried|
    ensures tried[i] in routes || NotWorthIt(g, routes, tried[i])
  {
    DroppedForAReason(g, routes[0], tried, i);
  }

  // ------------------------------------------------------------- what is penalised

  /** One edge is the reverse of another exactly when riding both ends where it began. */
  lemma ReverseComesBack(g: Graph, a: nat, b: nat)
    requires g.WellFormed() && a < g.NumEdges() && b < g.NumEdges()
    ensures g.IsReverseOf(a, b) <==> IsWalk(g, g.from[a], [a, b]) && g.to[b] == g.from[a]
  {
    assert IsWalk(g, g.from[a], [a, b]) ==> g.from[[a, b][1]] == g.to[[a, b][0]];
  }

  /** On penalised edges alone, the penalty is the price of the edges once more; turns cost what they did. */
  lemma {:induction false} PenaltyIsEdgesAgain(opt: Options, used: set<nat>, q: seq<nat>)
    requires forall i :: 0 <= i < |q| ==> q[i] in used
    ensures WalkCost(Penalise(opt, used), q) == WalkCost(opt, q) + WalkCost(opt.(turnCost := None), q)
  {
    if q != [] {
      PenaltyIsEdgesAgain(opt, used, Init(q));
    }
  }

  /** So riding a penalised route back on the other side of its streets pays for every edge twice. */
  lemma RidingBackPaysTwice(g: Graph, opt: Options, p: seq<nat>, q: seq<nat>)
    requires g.WellFormed() && |q| == |p| && forall i :: 0 <= i < |p| ==> p[i] < g.NumEdges()
    requires forall i :: 0 <= i < |p| ==> q[i] < g.NumEdges() && g.IsReverseOf(p[|p| - 1 - i], q[i])
    ensures WalkCost(Penalise(opt, Covered(g, p)), q) == WalkCost(opt, q) + WalkCost(opt.(turnCost := None), q)
    ensures WalkCost(Penalise(opt, Covered(g, p)), p) == WalkCost(opt, p) + WalkCost(opt.(turnCost := None), p)
  {
    forall i | 0 <= i < |p| ensures p[i] in Covered(g, p) && q[i] in Covered(g, p) {
      assert Covers(g, p, p[i]) && Covers(g, p, q[i]);
    }
    PenaltyIsEdgesAgain(opt, Covered(g, p), q);
    PenaltyIsEdgesAgain(opt, Covered(g, p), p);
  }

  /** The penalised edges are exactly those the primary or some candidate runs on, in either direction. */
  lemma {:induction false} PenalisedExactly(g: Graph, primary: Path, tried: seq<Path>, e: nat)
    requires g.WellFormed() && e < g.NumEdges()
    ensures e in PenalisedBy(g, primary, tried) <==>
            Covers(g, primary.edges, e) || exists i :: 0 <= i < |tried| && Covers(g, tried[i].edges, e)
  {
    if tried != [] {
      var init := tried[..|tried| - 1];
      PenalisedExactly(g, primary, init, e);
      if i :| 0 <= i < |tried| && Covers(g, tried[i].edges, e) {
        assert i < |init| ==> init[i] == tried[i];
      }
      if i :| 0 <= i < |init| && Covers(g, init[i].edges, e) {
        assert tried[i] == init[i];
      }
    }
  }
}
