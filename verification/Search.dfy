/**
 The budgeted edge-based A* search (internal/routing/search.go:91-329).

 The loops below work in place on a pooled workspace, as the original does.
 Each of them also carries the ghost `Run` of module SearchInvariant and keeps
 the arrays equal to it.
 */
module Search {
  import opened Wrappers
  import opened RoadGraph
  import opened Walks
  import opened StateSpace
  import opened StateQueue
  import opened SearchInvariant
  import opened ExactBudget
  import opened Workspaces

  const DEFAULT_MAX_EXPANSIONS: nat := 4_000_000

  datatype Path = Path(edges: seq<nat>, cost: real, lengthM: real, budgetUsedM: real, expansions: nat)

  /**
   How a search ends. The original reports `CapHit` as unroutable; here it is
   kept apart because it says nothing about which routes exist.
   */
  datatype Outcome = Found(path: Path) | Unroutable | CapHit | BadIndex

  function MaxExpansions(opt: Options): nat {
    if opt.maxExpansions <= 0 then DEFAULT_MAX_EXPANSIONS else opt.maxExpansions
  }

  /** Straight-line distance from node `n` to the goal. */
  function CrowDistance(g: Graph, n: nat, goal: nat): real {
    if n < |g.loc| && goal < |g.loc| then g.metric(g.loc[n], g.loc[goal]) else 0.0
  }

  /** The heuristic for an edge: how far its end is from the goal, or nothing in plain Dijkstra. */
  function Estimate(g: Graph, goal: nat, opt: Options, e: nat): real {
    if opt.noHeuristic || e >= |g.to| then 0.0 else CrowDistance(g, g.to[e], goal)
  }

  function StateIndex(edge: nat, bucket: nat, nb: nat): nat {
    edge * nb + bucket
  }

  function EdgeOf(state: nat, nb: nat): nat
    requires nb > 0
  {
    state / nb
  }

  function BucketAt(state: nat, nb: nat): nat
    requires nb > 0
  {
    state % nb
  }

  function NumStates(numEdges: nat, nb: nat): nat {
    numEdges * nb
  }

  lemma {:induction false} ProductGrows(a: nat, b: nat, nb: nat)
    requires a < b
    ensures a * nb + nb <= b * nb
    decreases b
  {
    assert b * nb == (b - 1) * nb + nb;
    if a < b - 1 {
      ProductGrows(a, b - 1, nb);
    }
  }

  /** `edgeOf` undoes `stateIndex`, and the bucket is the remainder. */
  lemma StateIndexInverts(edge: nat, bucket: nat, nb: nat)
    requires bucket < nb
    ensures EdgeOf(StateIndex(edge, bucket, nb), nb) == edge
    ensures BucketAt(StateIndex(edge, bucket, nb), nb) == bucket
  {
    var st := StateIndex(edge, bucket, nb);
    var q := st / nb;
    var r := st % nb;
    assert st == q * nb + r;
    if q < edge {
      ProductGrows(q, edge, nb);
    } else if edge < q {
      ProductGrows(edge, q, nb);
    }
  }

  /** States of real edges and buckets are real states. */
  lemma StateIndexBound(edge: nat, bucket: nat, nb: nat, numEdges: nat)
    requires bucket < nb && edge < numEdges
    ensures StateIndex(edge, bucket, nb) < NumStates(numEdges, nb)
  {
    ProductGrows(edge, numEdges, nb);
  }

  lemma EdgeOfBound(state: nat, nb: nat, numEdges: nat)
    requires 0 < nb && state < NumStates(numEdges, nb)
    ensures EdgeOf(state, nb) < numEdges
  {
    var q := state / nb;
    assert q * nb <= state;
    if numEdges < q {
      ProductGrows(numEdges, q, nb);
    }
  }

  /** The 32-bit two's complement value of `v`. */
  function Wrap32(v: int): int {
    (v + 0x8000_0000) % 0x1_0000_0000 - 0x8000_0000
  }

  /** The state index as 32-bit arithmetic computes it. */
  function StateIndex32(edge: nat, bucket: nat, nb: nat): int {
    Wrap32(Wrap32(edge * nb) + bucket)
  }

  /** The 32-bit index is the true one for every edge and bucket exactly when there are at most 2^31 states. */
  lemma StateIndexFits32(numEdges: nat, nb: nat)
    requires 0 < nb
    ensures (forall e: nat, b: nat {:trigger StateIndex32(e, b, nb)} :: e < numEdges && b < nb ==> StateIndex32(e, b, nb) == StateIndex(e, b, nb))
            <==> NumStates(numEdges, nb) <= 0x8000_0000
  {
    if NumStates(numEdges, nb) <= 0x8000_0000 {
      forall e: nat, b: nat | e < numEdges && b < nb ensures StateIndex32(e, b, nb) == StateIndex(e, b, nb) {
        StateIndexBound(e, b, nb, numEdges);
        WrapKeeps(StateIndex(e, 0, nb));
        WrapKeeps(StateIndex(e, b, nb));
      }
    } else {
      LastState(numEdges, nb);
      WrapBelow(Wrap32((numEdges - 1) * nb) + (nb - 1));
      assert StateIndex32(numEdges - 1, nb - 1, nb) < 0x8000_0000;
    }
  }

  lemma WrapKeeps(v: nat)
    ensures v < 0x8000_0000 ==> Wrap32(v) == v
  {
  }

  lemma WrapBelow(v: int)
    ensures Wrap32(v) < 0x8000_0000
  {
  }

  lemma LastState(numEdges: nat, nb: nat)
    requires 0 < numEdges && 0 < nb
    ensures StateIndex(numEdges - 1, nb - 1, nb) == NumStates(numEdges, nb) - 1
  {
    assert numEdges * nb == (numEdges - 1) * nb + nb;
  }

  /** The request, with the index arithmetic and bucketing this search uses. */
  function MakeProblem(g: Graph, start: nat, goal: nat, opt: Options): Problem {
    var (nb, step) := BudgetBuckets(opt);
    Problem(
      g, opt, start, goal, NumStates(g.NumEdges(), nb), nb,
      (st: nat) => EdgeOf(st, nb),
      (e: nat, b: nat) => StateIndex(e, b, nb),
      (st: nat) => BucketAt(st, nb),
      (used: real) => if used < 0.0 then 0 else BucketOf(used, step, nb),
      (e: nat) => if EdgeLength(g, e) < 0.0 then 0 else EdgeUnits(g, opt, e),
      (e: nat) => Estimate(g, goal, opt, e))
  }

  lemma MakeProblemOk(g: Graph, start: nat, goal: nat, opt: Options)
    requires g.WellFormed() && start < g.NumNodes() && goal < g.NumNodes() && start != goal
    ensures MakeProblem(g, start, goal, opt).Ok()
  {
    var P := MakeProblem(g, start, goal, opt);
    var nb := P.buckets;
    forall st: nat | st < P.numStates ensures P.edgeOf(st) < g.NumEdges() {
      EdgeOfBound(st, nb, g.NumEdges());
    }
    forall e: nat, b: nat | e < g.NumEdges() && b < nb
      ensures P.stateOf(e, b) < P.numStates && P.edgeOf(P.stateOf(e, b)) == e && P.bucketAt(P.stateOf(e, b)) == b
    {
      StateIndexInverts(e, b, nb);
      StateIndexBound(e, b, nb, g.NumEdges());
    }
  }

  lemma MakeProblemAdvances(g: Graph, start: nat, goal: nat, opt: Options)
    requires g.WellFormed() && start < g.NumNodes() && goal < g.NumNodes() && start != goal
    ensures MakeProblem(g, start, goal, opt).BucketsAdvance()
  {
    var P := MakeProblem(g, start, goal, opt);
    var (nb, step) := BudgetBuckets(opt);
    forall spent: real, b: nat, f: nat | f < g.NumEdges() && opt.IsOver(f) ensures P.Advances(spent, b, f) {
      if 0.0 <= spent <= Allowance(P.opt.budgetM) && P.bucketOf(spent) <= b && b + P.units(f) <= P.buckets - 1 {
        BucketAdvance(spent, b, EdgeLength(g, f), nb, step, opt.budgetM);
      }
    }
    assert P.bucketOf(0.0) == BucketOf(0.0, step, nb);
  }

  // ------------------------------------------------------- arrays and the run

  /** The distance array holds the cost of each state's walk. */
  ghost function DistOf(P: Problem, p: seq<nat>): Option<real> {
    if p == [] then None else Some(WalkCost(P.opt, p))
  }

  /** The arrays say what the run says. Only reached states have a meaningful `usedM`. */
  ghost predicate Mirrors(P: Problem, r: Run, w: Workspace)
    requires w.Fits(P.numStates, P.g.NumNodes()) && Shaped(P, r)
    reads w, w.dist, w.usedM, w.prev, w.done
  {
    && (forall st {:trigger r.walk[st]} {:trigger w.dist[st]} :: 0 <= st < P.numStates ==> w.dist[st] == DistOf(P, r.walk[st]))
    && (forall st {:trigger r.walk[st]} {:trigger w.usedM[st]} :: 0 <= st < P.numStates && r.walk[st] != [] ==> w.usedM[st] == P.Spent(r.walk[st]))
    && (forall st {:trigger r.prev[st]} {:trigger w.prev[st]} :: 0 <= st < P.numStates ==> w.prev[st] == r.prev[st])
    && (forall st {:trigger r.done[st]} {:trigger w.done[st]} :: 0 <= st < P.numStates ==> w.done[st] == r.done[st])
  }

  ghost predicate QueueMirrors(r: Run, w: Workspace)
    reads w.queue
  {
    HeapOrdered(w.queue.items) && multiset(w.queue.items) == r.queue
  }

  /** A memoised estimate is the estimate for this goal. */
  ghost predicate CacheOk(P: Problem, w: Workspace)
    requires P.g.NumNodes() <= w.hcache.Length
    reads w, w.hcache
  {
    forall n {:trigger w.hcache[n]} :: 0 <= n < P.g.NumNodes() && 0.0 <= w.hcache[n] ==> w.hcache[n] == CrowDistance(P.g, n, P.goal)
  }

  ghost predicate Tracks(P: Problem, r: Run, w: Workspace)
    reads w, w.dist, w.usedM, w.prev, w.done, w.hcache, w.queue
  {
    && w.Valid() && w.Fits(P.numStates, P.g.NumNodes()) && Shaped(P, r)
    && Mirrors(P, r, w) && QueueMirrors(r, w) && CacheOk(P, w)
  }

  // -------------------------------------------------------------- operations

  /** The heuristic, memoised per node. */
  method Heuristic(P: Problem, w: Workspace, e: nat) returns (d: real)
    requires P.Ok() && e < P.g.NumEdges() && P.g.NumNodes() <= w.hcache.Length && CacheOk(P, w)
    modifies w.hcache
    ensures d == Estimate(P.g, P.goal, P.opt, e) && CacheOk(P, w)
  {
    if P.opt.noHeuristic {
      return 0.0;
    }
    var n := P.g.to[e];
    if w.hcache[n] >= 0.0 {
      return w.hcache[n];
    }
    d := P.g.metric(P.g.loc[n], P.g.loc[P.goal]);
    w.hcache[n] := d;
  }

  /** Write a better label into an open state. */
  method WriteLabel(P: Problem, w: Workspace, ghost r: Run, src: int, st: nat, cost: real, used: real, ghost p: seq<nat>)
    requires Tracks(P, r, w) && st < P.numStates
    requires p != [] && cost == WalkCost(P.opt, p) && used == P.Spent(p)
    requires src == NO_SOURCE ==> r.prev[st] == NO_SOURCE
    modifies w.dist, w.usedM, w.prev
    ensures Tracks(P, Labelled(P, r, src, st, p).(queue := r.queue), w)
  {
    w.dist[st] := Some(cost);
    w.usedM[st] := used;
    if src != NO_SOURCE {
      w.prev[st] := src;
    }
  }

  /** Write a better label into an open state and queue it: the update both loops share. */
  method Label(P: Problem, w: Workspace, ghost r: Run, src: int, st: nat, cost: real, used: real, f: nat, ghost p: seq<nat>)
    requires P.Ok() && Tracks(P, r, w) && st < P.numStates && f < P.g.NumEdges()
    requires P.h(f) == Estimate(P.g, P.goal, P.opt, f)
    requires p != [] && Last(p) == f && cost == WalkCost(P.opt, p) && used == P.Spent(p)
    requires src == NO_SOURCE ==> r.prev[st] == NO_SOURCE
    modifies w.dist, w.usedM, w.prev, w.hcache, w.queue
    ensures Tracks(P, Labelled(P, r, src, st, p), w)
  {
    ghost var written := Labelled(P, r, src, st, p).(queue := r.queue);
    LabelledIs(P, r, src, st, cost, f, p);
    WriteLabel(P, w, r, src, st, cost, used, p);
    Enqueue(P, w, written, st, cost, f);
  }

  lemma LabelledIs(P: Problem, r: Run, src: int, st: nat, cost: real, f: nat, p: seq<nat>)
    requires Shaped(P, r) && st < P.numStates && p != [] && Last(p) == f && cost == WalkCost(P.opt, p)
    requires P.h(f) == Estimate(P.g, P.goal, P.opt, f)
    ensures var written := Labelled(P, r, src, st, p).(queue := r.queue);
            && Shaped(P, written)
            && Labelled(P, r, src, st, p) == written.(queue := written.queue + multiset{Item(st, cost + Estimate(P.g, P.goal, P.opt, f))})
  {
  }

  /** Queue a state at its cost plus the estimate of what remains. */
  method Enqueue(P: Problem, w: Workspace, ghost r: Run, st: nat, cost: real, f: nat)
    requires P.Ok() && Tracks(P, r, w) && f < P.g.NumEdges()
    modifies w.hcache, w.queue
    ensures Tracks(P, r.(queue := r.queue + multiset{Item(st, cost + Estimate(P.g, P.goal, P.opt, f))}), w)
  {
    var estimate := Heuristic(P, w, f);
    w.queue.Push(Item(st, cost + estimate));
  }

  predicate Less(cost: real, dist: Option<real>) {
    dist.None? || cost < dist.value
  }

  /** Spend and cost of the walk a relaxation proposes. */
  lemma ExtensionNumbers(P: Problem, q: seq<nat>, f: nat)
    ensures var p := q + [f];
            && Last(p) == f && P.Spent(p) == P.Spent(q) + OverM(P.g, P.opt, f)
            && WalkCost(P.opt, p) == WalkCost(P.opt, q) + P.opt.edgeCost(f) + (if q == [] then 0.0 else P.opt.Turn(Last(q), f))
  {
    Snoc(q, f);
  }

  /** The effect of relaxing `f` from `src`, in the terms the loops compute. */
  ghost predicate RelaxesTo(P: Problem, r: Run, src: int, f: nat, r': Run) {
    && Shaped(P, r) && (src == NO_SOURCE || (0 <= src < P.numStates && r.walk[src] != []))
    && var q := WalkTo(r, src);
       if !P.CanTake(P.Spent(q), f) then r' == r
       else
         var p := q + [f];
         var st := P.stateOf(f, P.bucketOf(P.Spent(p)));
         && st < P.numStates
         && r' == if !r.done[st] && Less(WalkCost(P.opt, p), DistOf(P, r.walk[st])) then Labelled(P, r, src, st, p) else r
  }

  lemma RelaxedIs(P: Problem, r: Run, src: int, f: nat)
    requires CanRelax(P, r, src, f)
    ensures RelaxesTo(P, r, src, f, Relaxed(P, r, src, f))
  {
    if P.CanTake(P.Spent(WalkTo(r, src)), f) {
      ExtensionLabel(P, r, src, f);
      ImprovesIs(P, r, src, f);
    }
  }

  lemma ImprovesIs(P: Problem, r: Run, src: int, f: nat)
    requires P.Ok() && Shaped(P, r) && IsSource(r, src)
    requires P.CanTake(P.Spent(WalkTo(r, src)), f)
    requires P.StateOfWalk(WalkTo(r, src) + [f]) < P.numStates
    ensures RelaxesTo(P, r, src, f, Relaxed(P, r, src, f))
  {
    assert Last(WalkTo(r, src) + [f]) == f;
  }

  /** Seed one edge leaving the start node. There is no turn onto the first edge. */
  method SeedEdge(P: Problem, w: Workspace, ghost r: Run, e: nat, ghost r': Run)
    requires P.Ok() && Tracks(P, r, w) && e < P.g.NumEdges()
    requires RelaxesTo(P, r, NO_SOURCE, e, r')
    requires P.h(e) == Estimate(P.g, P.goal, P.opt, e)
    requires forall st :: 0 <= st < P.numStates ==> !r.done[st] && r.prev[st] == NO_SOURCE
    modifies w.dist, w.usedM, w.prev, w.hcache, w.queue
    ensures Tracks(P, r', w)
  {
    ExtensionNumbers(P, [], e);
    if !P.opt.Allows(e) {
      return;
    }
    var used := 0.0;
    if P.opt.IsOver(e) {
      used := P.g.lengthM[e];
      if used > P.opt.budgetM {
        return;
      }
    }
    var st := P.stateOf(e, P.bucketOf(used));
    var c := P.opt.edgeCost(e);
    if Less(c, w.dist[st]) {
      Label(P, w, r, NO_SOURCE, st, c, used, e, [] + [e]);
    }
  }

  /** Relax one edge out of the state being expanded. */
  method RelaxEdge(P: Problem, w: Workspace, ghost r: Run, st: nat, f: nat, ghost r': Run)
    requires P.Ok() && Tracks(P, r, w) && st < P.numStates && f < P.g.NumEdges()
    requires RelaxesTo(P, r, st, f, r')
    requires P.h(f) == Estimate(P.g, P.goal, P.opt, f)
    requires Last(r.walk[st]) == P.edgeOf(st)
    modifies w.dist, w.usedM, w.prev, w.hcache, w.queue
    ensures Tracks(P, r', w)
  {
    ExtensionNumbers(P, r.walk[st], f);
    if !P.opt.Allows(f) {
      return;
    }
    var nextUsed := w.usedM[st];
    if P.opt.IsOver(f) {
      nextUsed := nextUsed + P.g.lengthM[f];
      if nextUsed > P.opt.budgetM {
        return;
      }
    }
    var nst := P.stateOf(f, P.bucketOf(nextUsed));
    if w.done[nst] {
      return;
    }
    var e := P.edgeOf(st);
    var nd := w.dist[st].value + P.opt.edgeCost(f);
    if P.opt.turnCost.Some? {
      nd := nd + P.opt.turnCost.value(e, f);
    }
    if Less(nd, w.dist[nst]) {
      Label(P, w, r, st, nst, nd, nextUsed, f, r.walk[st] + [f]);
    }
  }

  /** The heuristic of the request is the one `Heuristic` computes. */
  ghost predicate HasEstimate(P: Problem) {
    forall e {:trigger P.h(e)} :: P.h(e) == Estimate(P.g, P.goal, P.opt, e)
  }

  /** Queue every usable edge leaving the start node. */
  method SeedAll(P: Problem, w: Workspace) returns (ghost r: Run)
    requires P.Ok() && HasEstimate(P) && Tracks(P, Blank(P), w)
    modifies w.dist, w.usedM, w.prev, w.hcache, w.queue
    ensures Inv(P, r, IDLE, 0) && Tracks(P, r, w)
    ensures forall st :: 0 <= st < P.numStates ==> !r.done[st]
  {
    var (lo, hi) := P.g.OutEdges(P.start);
    r := Blank(P);
    BlankInv(P, lo);
    for e := lo to hi
      invariant Inv(P, r, NO_SOURCE, e) && Tracks(P, r, w)
      invariant forall st :: 0 <= st < P.numStates ==> !r.done[st]
    {
      ghost var r' := Relaxed(P, r, NO_SOURCE, e);
      RelaxInv(P, r, NO_SOURCE, e);
      RelaxedIs(P, r, NO_SOURCE, e);
      SeedsHaveNoPredecessor(P, r, e);
      SeedEdge(P, w, r, e, r');
      r := r';
    }
    FinishInv(P, r, NO_SOURCE, hi);
  }

  lemma SeedsHaveNoPredecessor(P: Problem, r: Run, e: nat)
    requires Inv(P, r, NO_SOURCE, e)
    requires forall st :: 0 <= st < P.numStates ==> !r.done[st]
    ensures forall st :: 0 <= st < P.numStates ==> r.prev[st] == NO_SOURCE
  {
  }

  /** Relax every edge leaving the node the settled state `st` arrives at. */
  method Expand(P: Problem, w: Workspace, ghost r0: Run, st: nat) returns (ghost r: Run)
    requires HasEstimate(P) && st < P.numStates
    requires P.Ok() && Inv(P, r0, st, P.g.OutEdges(P.g.to[P.edgeOf(st)]).0) && IsSource(r0, st) && Tracks(P, r0, w)
    modifies w.dist, w.usedM, w.prev, w.hcache, w.queue
    ensures Inv(P, r, IDLE, 0) && Tracks(P, r, w) && r.done == r0.done
  {
    var (flo, fhi) := P.g.OutEdges(P.g.to[P.edgeOf(st)]);
    r := r0;
    for f := flo to fhi
      invariant Inv(P, r, st, f) && IsSource(r, st) && Tracks(P, r, w) && r.done == r0.done
    {
      ghost var r' := Relaxed(P, r, st, f);
      RelaxInv(P, r, st, f);
      RelaxedIs(P, r, st, f);
      assert LabelOk(P, st, r.walk[st]);
      RelaxKeepsDone(P, r, st, f);
      RelaxEdge(P, w, r, st, f, r');
      r := r';
    }
    FinishInv(P, r, st, fhi);
  }

  ghost predicate IsReversal(rev: seq<nat>, p: seq<nat>) {
    |rev| == |p| && forall i :: 0 <= i < |rev| ==> rev[i] == p[|p| - 1 - i]
  }

  /**
   Follow the predecessor chain from `last` until it leaves the start. Each
   link shortens the walk by one edge, so the chain ends.
   */
  method ChainBack(P: Problem, w: Workspace, ghost r: Run, last: nat) returns (rev: seq<nat>)
    requires P.Ok() && Shaped(P, r) && PredecessorsOk(P, r) && Reached(r, last)
    requires w.Fits(P.numStates, P.g.NumNodes()) && Mirrors(P, r, w)
    ensures IsReversal(rev, r.walk[last])
  {
    ghost var p := r.walk[last];
    ghost var k := |p|;
    rev := [];
    var st: int := last;
    while st != NO_SOURCE
      invariant st == NO_SOURCE || Reached(r, st)
      invariant 0 <= k <= |p| && p[..k] == WalkTo(r, st)
      invariant IsReversal(rev, p[k..])
      decreases k
    {
      PredecessorShortens(P, r, st, p, k);
      ReversalGrows(rev, p, k);
      rev := rev + [P.edgeOf(st)];
      st := w.prev[st];
      k := k - 1;
    }
    assert p[k..] == p;
  }

  lemma ReversalGrows(rev: seq<nat>, p: seq<nat>, k: nat)
    requires 0 < k <= |p| && IsReversal(rev, p[k..])
    ensures IsReversal(rev + [p[k - 1]], p[k - 1..])
  {
  }

  /** One link of the chain drops exactly the last edge. */
  lemma PredecessorShortens(P: Problem, r: Run, st: nat, p: seq<nat>, k: nat)
    requires P.Ok() && Shaped(P, r) && PredecessorsOk(P, r) && Reached(r, st)
    requires k <= |p| && p[..k] == r.walk[st]
    ensures var src := r.prev[st];
            && (src == NO_SOURCE || Reached(r, src))
            && 0 < k && p[..k - 1] == WalkTo(r, src) && p[k - 1] == P.edgeOf(st)
  {
    var q := WalkTo(r, r.prev[st]);
    assert r.walk[st] == q + [P.edgeOf(st)];
    assert p[..k][..k - 1] == q && p[..k][k - 1] == P.edgeOf(st);
    assert p[..k][..k - 1] == p[..k - 1];
  }

  /** Turn the collected chain round, adding up lengths on the way. */
  method TurnRound(g: Graph, rev: seq<nat>, ghost p: seq<nat>) returns (edges: seq<nat>, length: real)
    requires IsReversal(rev, p)
    ensures edges == p && length == WalkLength(g, p)
  {
    edges := seq(|rev|, _ => 0);
    length := 0.0;
    assert p[..|p|] == p;
    for i := 0 to |rev|
      invariant |edges| == |rev|
      invariant forall k :: |p| - i <= k < |p| ==> edges[k] == p[k]
      invariant length == WalkLength(g, p) - WalkLength(g, p[..|p| - i])
    {
      var e := rev[i];
      edges := edges[|rev| - 1 - i := e];
      assert Init(p[..|p| - i]) == p[..|p| - i - 1];
      length := length + EdgeLength(g, e);
    }
  }

  /** The route a settled state stands for. */
  method BuildPath(P: Problem, w: Workspace, ghost r: Run, last: nat, cost: real, used: real, expansions: nat) returns (path: Path)
    requires P.Ok() && Shaped(P, r) && PredecessorsOk(P, r) && Reached(r, last)
    requires w.Fits(P.numStates, P.g.NumNodes()) && Mirrors(P, r, w)
    ensures path == Path(r.walk[last], cost, WalkLength(P.g, r.walk[last]), used, expansions)
  {
    var rev := ChainBack(P, w, r, last);
    var edges, length := TurnRound(P.g, rev, r.walk[last]);
    path := Path(edges, cost, length, used, expansions);
  }

  // ------------------------------------------------------------- termination

  ghost function DoneCount(done: seq<bool>): nat {
    if done == [] then 0 else DoneCount(done[..|done| - 1]) + if done[|done| - 1] then 1 else 0
  }

  lemma {:induction false} DoneCountBound(done: seq<bool>)
    ensures DoneCount(done) <= |done|
  {
    if done != [] {
      DoneCountBound(done[..|done| - 1]);
    }
  }

  lemma {:induction false} DoneCountRises(done: seq<bool>, st: nat)
    requires st < |done| && !done[st]
    ensures DoneCount(done[st := true]) == DoneCount(done) + 1
  {
    var n := |done| - 1;
    if st < n {
      DoneCountRises(done[..n], st);
      assert done[st := true][..n] == done[..n][st := true];
    } else {
      assert done[st := true][..n] == done[..n];
    }
  }

  lemma {:induction false} DoneCountZero(done: seq<bool>)
    requires forall st :: 0 <= st < |done| ==> !done[st]
    ensures DoneCount(done) == 0
  {
    if done != [] {
      DoneCountZero(done[..|done| - 1]);
    }
  }

  // ------------------------------------------------------------- the search

  /** The heuristic never exceeds one step plus the next estimate, and is zero at the goal. */
  ghost predicate ConsistentEstimate(g: Graph, goal: int, opt: Options)
    requires g.WellFormed() && 0 <= goal < g.NumNodes()
  {
    && (forall e, f {:trigger opt.Turn(e, f)} :: 0 <= e < g.NumEdges() && 0 <= f < g.NumEdges() && g.to[e] == g.from[f] && opt.Allows(e) && opt.Allows(f) ==>
          Estimate(g, goal, opt, e) <= opt.Turn(e, f) + opt.edgeCost(f) + Estimate(g, goal, opt, f))
    && (forall e :: 0 <= e < g.NumEdges() && g.to[e] == goal ==> Estimate(g, goal, opt, e) == 0.0)
  }

  /** The heuristic exceeds one step plus the next estimate by at most `eps`, and is zero at the goal. */
  ghost predicate NearlyConsistentEstimate(g: Graph, goal: int, opt: Options, eps: real)
    requires g.WellFormed() && 0 <= goal < g.NumNodes()
  {
    && 0.0 <= eps
    && (forall e, f {:trigger opt.Turn(e, f)} :: 0 <= e < g.NumEdges() && 0 <= f < g.NumEdges() && g.to[e] == g.from[f] && opt.Allows(e) && opt.Allows(f) ==>
          Estimate(g, goal, opt, e) <= opt.Turn(e, f) + opt.edgeCost(f) + Estimate(g, goal, opt, f) + eps)
    && (forall e :: 0 <= e < g.NumEdges() && g.to[e] == goal ==> Estimate(g, goal, opt, e) == 0.0)
  }

  /** The returned path is a permitted route, and every number on it is that route's own. */
  ghost predicate Sound(g: Graph, start: int, goal: int, opt: Options, path: Path)
    requires g.WellFormed()
  {
    && IsRoute(g, start, goal, path.edges) && Permitted(opt, path.edges)
    && path.cost == WalkCost(opt, path.edges)
    && path.lengthM == WalkLength(g, path.edges)
    && path.budgetUsedM == OverLength(g, opt, path.edges)
    && path.budgetUsedM <= Allowance(opt.budgetM)
    && path.expansions <= NumStates(g.NumEdges(), BudgetBuckets(opt).0) && path.expansions <= MaxExpansions(opt)
  }

  /** No permitted route that still fits after rounding up is cheaper. */
  ghost predicate Cheapest(g: Graph, start: int, goal: int, opt: Options, cost: real)
    requires g.WellFormed()
  {
    forall p {:trigger WalkCost(opt, p)} :: IsRoute(g, start, goal, p) && Permitted(opt, p) && Fits(g, opt, p) ==> cost <= WalkCost(opt, p)
  }

  /** No permitted route that fits is cheaper by more than `eps` a step. */
  ghost predicate NearlyCheapest(g: Graph, start: int, goal: int, opt: Options, cost: real, eps: real)
    requires g.WellFormed()
  {
    forall p {:trigger WalkCost(opt, p)} :: IsRoute(g, start, goal, p) && Permitted(opt, p) && Fits(g, opt, p) ==> cost <= WalkCost(opt, p) + Widths(|p|, eps)
  }

  ghost predicate NoneFits(g: Graph, start: int, goal: int, opt: Options)
    requires g.WellFormed()
  {
    forall p {:trigger IsRoute(g, start, goal, p)} :: IsRoute(g, start, goal, p) && Permitted(opt, p) ==> !Fits(g, opt, p)
  }

  ghost predicate InRange(g: Graph, n: int) {
    0 <= n < g.NumNodes()
  }

  /** What an outcome means, in terms of routes alone. */
  ghost predicate SearchSpec(g: Graph, start: int, goal: int, opt: Options, o: Outcome)
    requires g.WellFormed()
  {
    match o
    case Found(path) =>
      && Sound(g, start, goal, opt, path)
      && (InRange(g, goal) && ConsistentEstimate(g, goal, opt) ==> Cheapest(g, start, goal, opt, path.cost))
      && (InRange(g, goal) ==> forall eps {:trigger NearlyConsistentEstimate(g, goal, opt, eps)} ::
            NearlyConsistentEstimate(g, goal, opt, eps) ==> NearlyCheapest(g, start, goal, opt, path.cost, eps))
    case Unroutable => start != goal && InRange(g, start) && InRange(g, goal) && NoneFits(g, start, goal, opt)
    case CapHit => start != goal && InRange(g, start) && InRange(g, goal) && MaxExpansions(opt) < NumStates(g.NumEdges(), BudgetBuckets(opt).0)
    case BadIndex => start != goal && (!InRange(g, start) || !InRange(g, goal))
  }

  lemma ConsistentIsNearly(g: Graph, goal: int, opt: Options)
    requires g.WellFormed() && 0 <= goal < g.NumNodes()
    ensures ConsistentEstimate(g, goal, opt) <==> NearlyConsistentEstimate(g, goal, opt, 0.0)
  {
  }

  lemma NearConsistencyCarries(P: Problem, eps: real)
    requires P.Ok() && HasEstimate(P)
    ensures P.NearlyConsistent(eps) <==> NearlyConsistentEstimate(P.g, P.goal, P.opt, eps)
  {
  }

  lemma ConsistencyCarries(P: Problem)
    requires P.Ok() && HasEstimate(P)
    ensures P.Consistent() <==> ConsistentEstimate(P.g, P.goal, P.opt)
  {
  }

  lemma {:induction false} UnitsAgree(g: Graph, start: nat, goal: nat, opt: Options, p: seq<nat>)
    requires g.WellFormed()
    ensures MakeProblem(g, start, goal, opt).Units(p) == Units(g, opt, p)
  {
    if p != [] {
      UnitsAgree(g, start, goal, opt, Init(p));
    }
  }

  lemma CleanTracks(P: Problem, w: Workspace)
    requires P.Ok() && w.Valid() && w.Fits(P.numStates, P.g.NumNodes()) && w.Clean(P.numStates, P.g.NumNodes())
    ensures Tracks(P, Blank(P), w)
  {
  }

  /** Pop the cheapest entry and settle its state, unless a cheaper entry already did. */
  method PopAndSettle(P: Problem, w: Workspace, ghost r: Run) returns (item: Item, open: bool)
    requires Shaped(P, r) && QueueOk(P, r) && Tracks(P, r, w) && w.queue.items != []
    modifies w.done, w.queue
    ensures IsLeast(r, item) && Reached(r, item.state) && open == !r.done[item.state]
    ensures Tracks(P, Settled(r, item), w)
    ensures |w.queue.items| == |old(w.queue.items)| - 1
  {
    item := w.queue.Pop();
    assert r.queue[item] > 0;
    open := !w.done[item.state];
    if open {
      w.done[item.state] := true;
    }
  }

  /** The path is the label of an open goal state that is the least of all that is queued. */
  ghost predicate Popped(P: Problem, r: Run, path: Path)
    requires P.Ok()
  {
    exists x {:trigger IsLeast(r, x)} :: IsLeast(r, x) && IsOpenGoal(P, r, x.state) && r.walk[x.state] == path.edges
  }

  ghost predicate IsOpenGoal(P: Problem, r: Run, st: nat)
    requires P.Ok()
  {
    Reached(r, st) && st < P.numStates && st < |r.done| && !r.done[st] && P.g.to[P.edgeOf(st)] == P.goal
  }

  /** No contender that reaches the goal beats this cost by more than `eps` a step. */
  ghost predicate Unbeaten(P: Problem, cost: real, eps: real)
    requires P.Ok()
  {
    forall p {:trigger WalkCost(P.opt, p)} :: Contender(P, p, eps) && P.g.to[Last(p)] == P.goal ==> cost <= WalkCost(P.opt, p) + Widths(|p|, eps)
  }

  /** A found path, in terms of competitors of an abstract request. */
  ghost predicate IsAnswer(P: Problem, maxExp: nat, path: Path)
    requires P.Ok()
  {
    && Admissible(P, path.edges) && P.g.to[Last(path.edges)] == P.goal
    && path.cost == WalkCost(P.opt, path.edges)
    && path.lengthM == WalkLength(P.g, path.edges)
    && path.budgetUsedM == P.Spent(path.edges)
    && path.expansions <= P.numStates && path.expansions <= maxExp
    && (forall eps {:trigger P.NearlyConsistent(eps)} :: P.NearlyConsistent(eps) ==> Unbeaten(P, path.cost, eps))
  }

  /** What the search loop establishes. */
  ghost predicate Answers(P: Problem, maxExp: nat, final: Run, o: Outcome)
    requires P.Ok()
  {
    match o
    case Found(path) => IsAnswer(P, maxExp, path) && Inv(P, final, IDLE, 0) && Popped(P, final, path) && path.expansions == DoneCount(final.done) + 1
    case Unroutable => Inv(P, final, IDLE, 0) && final.queue == multiset{} && DoneCount(final.done) <= maxExp
    case CapHit => maxExp < P.numStates && Inv(P, final, IDLE, 0) && DoneCount(final.done) == maxExp
    case BadIndex => false
  }

  lemma GoalAnswers(P: Problem, maxExp: nat, r: Run, x: Item, path: Path)
    requires Inv(P, r, IDLE, 0) && P.BucketsAdvance() && IsLeast(r, x) && !r.done[x.state]
    requires P.g.to[P.edgeOf(x.state)] == P.goal
    requires path.edges == r.walk[x.state] && path.cost == WalkCost(P.opt, path.edges)
    requires path.lengthM == WalkLength(P.g, path.edges) && path.budgetUsedM == P.Spent(path.edges)
    requires path.expansions <= P.numStates && path.expansions <= maxExp && path.expansions == DoneCount(r.done) + 1
    ensures Answers(P, maxExp, r, Found(path))
  {
    assert LabelOk(P, x.state, r.walk[x.state]);
    forall eps | P.NearlyConsistent(eps) ensures Unbeaten(P, path.cost, eps) {
      forall p | Contender(P, p, eps) && P.g.to[Last(p)] == P.goal ensures path.cost <= WalkCost(P.opt, p) + Widths(|p|, eps) {
        PoppedGoalIsCheapest(P, r, x, p, eps);
      }
    }
  }

  /** Finish at a freshly settled goal state, or expand the state. Testing the goal here, on pop, is what makes the answer cheapest. */
  method FinishOrExpand(P: Problem, w: Workspace, ghost r: Run, item: Item, expansions: nat, ghost maxExp: nat)
    returns (found: Option<Path>, ghost next: Run)
    requires Inv(P, r, IDLE, 0) && P.BucketsAdvance() && HasEstimate(P)
    requires IsLeast(r, item) && !r.done[item.state] && Tracks(P, Settled(r, item), w)
    requires expansions <= P.numStates && expansions <= maxExp && expansions == DoneCount(r.done) + 1
    modifies w.dist, w.usedM, w.prev, w.hcache, w.queue
    ensures found.Some? ==> Answers(P, maxExp, r, Found(found.value))
    ensures found.None? ==> Inv(P, next, IDLE, 0) && Tracks(P, next, w) && next.done == Settled(r, item).done
  {
    var st := item.state;
    ghost var r' := Settled(r, item);
    var e := P.edgeOf(st);
    if P.g.to[e] == P.goal {
      SettledKeepsPredecessors(P, r, item);
      var path := BuildPath(P, w, r', st, w.dist[st].value, w.usedM[st], expansions);
      GoalAnswers(P, maxExp, r, item, path);
      return Some(path), r';
    }
    SettleInv(P, r, item, P.g.OutEdges(P.g.to[e]).0);
    found := None;
    next := Expand(P, w, r', st);
  }

  /** The search loop: every turn settles a state or shortens the queue. */
  method Drive(P: Problem, w: Workspace, maxExp: nat) returns (o: Outcome, ghost final: Run)
    requires P.Ok() && P.BucketsAdvance() && HasEstimate(P)
    requires w.Valid() && w.Fits(P.numStates, P.g.NumNodes()) && w.Clean(P.numStates, P.g.NumNodes())
    modifies w.dist, w.usedM, w.prev, w.done, w.hcache, w.queue
    ensures Answers(P, maxExp, final, o)
  {
    CleanTracks(P, w);
    final := SeedAll(P, w);
    DoneCountZero(final.done);
    var expansions := 0;
    while w.queue.items != []
      invariant Inv(P, final, IDLE, 0) && Tracks(P, final, w)
      invariant expansions == DoneCount(final.done) <= maxExp
      decreases P.numStates - expansions, |w.queue.items|
    {
      var ended;
      ghost var next;
      ended, expansions, next := LoopStep(P, w, final, expansions, maxExp);
      if ended.Some? {
        return ended.value, final;
      }
      final := next;
    }
    o := Unroutable;
  }

  /** One turn of the loop: an outcome, or one state more settled, or one stale entry less. */
  method LoopStep(P: Problem, w: Workspace, ghost r: Run, expansions: nat, maxExp: nat)
    returns (ended: Option<Outcome>, more: nat, ghost next: Run)
    requires Inv(P, r, IDLE, 0) && P.BucketsAdvance() && HasEstimate(P) && Tracks(P, r, w) && w.queue.items != []
    requires expansions == DoneCount(r.done) <= maxExp
    modifies w.dist, w.usedM, w.prev, w.done, w.hcache, w.queue
    ensures ended.Some? ==> Answers(P, maxExp, r, ended.value)
    ensures ended.None? ==> Inv(P, next, IDLE, 0) && Tracks(P, next, w) && more == DoneCount(next.done) <= maxExp
    ensures ended.None? ==> expansions < more <= P.numStates || (more == expansions && |w.queue.items| < |old(w.queue.items)|)
  {
    ended, more, next := None, expansions, r;
    var item, open := PopAndSettle(P, w, r);
    SettledCount(P, r, item);
    if !open {
      StaleDropped(P, r, item);
      next := Settled(r, item);
      return;
    }
    more := expansions + 1;
    if more > maxExp {
      CapReached(P, r, item, maxExp);
      ended := Some(CapHit);
      return;
    }
    var found;
    found, next := FinishOrExpand(P, w, r, item, more, maxExp);
    if found.Some? {
      ended := Some(Found(found.value));
    }
  }

  /** Dropping a stale entry changes nothing but the queue. */
  lemma StaleDropped(P: Problem, r: Run, x: Item)
    requires Inv(P, r, IDLE, 0) && IsLeast(r, x) && r.done[x.state]
    ensures Inv(P, Settled(r, x), IDLE, 0) && DoneCount(Settled(r, x).done) == DoneCount(r.done)
  {
    DiscardInv(P, r, x);
    SettledCount(P, r, x);
  }

  /** With as many states settled as allowed and one more to settle the search stops. */
  lemma CapReached(P: Problem, r: Run, x: Item, maxExp: nat)
    requires Inv(P, r, IDLE, 0) && IsLeast(r, x) && !r.done[x.state] && DoneCount(r.done) == maxExp
    ensures Answers(P, maxExp, r, CapHit)
  {
    SettledCount(P, r, x);
  }

  lemma SettledCount(P: Problem, r: Run, x: Item)
    requires Shaped(P, r) && x.state < P.numStates
    ensures DoneCount(Settled(r, x).done) == DoneCount(r.done) + (if r.done[x.state] then 0 else 1)
    ensures DoneCount(Settled(r, x).done) <= P.numStates
  {
    DoneCountBound(Settled(r, x).done);
    if r.done[x.state] {
      assert Settled(r, x).done == r.done;
    } else {
      DoneCountRises(r.done, x.state);
    }
  }

  /** A route the caller could ask about is a competitor of the request's problem. */
  lemma RouteCompetes(P: Problem, p: seq<nat>)
    requires P.Ok() && P == MakeProblem(P.g, P.start, P.goal, P.opt)
    requires IsRoute(P.g, P.start, P.goal, p) && Permitted(P.opt, p) && Fits(P.g, P.opt, p)
    ensures Competitor(P, p) && P.g.to[Last(p)] == P.goal
  {
    UnitsAgree(P.g, P.start, P.goal, P.opt, p);
  }

  /** An exhausted search leaves no fitting route. */
  lemma ExhaustedMeansNoneFits(P: Problem, final: Run)
    requires P.BucketsAdvance() && Inv(P, final, IDLE, 0) && final.queue == multiset{}
    requires P == MakeProblem(P.g, P.start, P.goal, P.opt)
    ensures NoneFits(P.g, P.start, P.goal, P.opt)
  {
    forall p | IsRoute(P.g, P.start, P.goal, p) && Permitted(P.opt, p) ensures !Fits(P.g, P.opt, p) {
      if Fits(P.g, P.opt, p) {
        RouteCompetes(P, p);
        ExhaustedMeansUnroutable(P, final, p, 0.0);
      }
    }
  }

  /** A cost that no competitor beats is one that no fitting route beats. */
  lemma UnbeatenMeansNearlyCheapest(P: Problem, cost: real, eps: real)
    requires P.Ok() && P == MakeProblem(P.g, P.start, P.goal, P.opt) && Unbeaten(P, cost, eps)
    ensures NearlyCheapest(P.g, P.start, P.goal, P.opt, cost, eps)
  {
    forall p | IsRoute(P.g, P.start, P.goal, p) && Permitted(P.opt, p) && Fits(P.g, P.opt, p)
      ensures cost <= WalkCost(P.opt, p) + Widths(|p|, eps)
    {
      RouteCompetes(P, p);
    }
  }

  /** Nothing to spare a step is nothing to spare at all. */
  lemma NearlyIsCheapest(g: Graph, start: int, goal: int, opt: Options, cost: real)
    requires g.WellFormed() && NearlyCheapest(g, start, goal, opt, cost, 0.0)
    ensures Cheapest(g, start, goal, opt, cost)
  {
    forall p | IsRoute(g, start, goal, p) && Permitted(opt, p) && Fits(g, opt, p) ensures cost <= WalkCost(opt, p) {
      NoWidth(|p|);
    }
  }

  lemma AnswerMeansSpec(P: Problem, path: Path)
    requires P.Ok() && HasEstimate(P) && P == MakeProblem(P.g, P.start, P.goal, P.opt)
    requires IsAnswer(P, MaxExpansions(P.opt), path)
    ensures SearchSpec(P.g, P.start, P.goal, P.opt, Found(path))
  {
    forall eps | NearlyConsistentEstimate(P.g, P.goal, P.opt, eps)
      ensures NearlyCheapest(P.g, P.start, P.goal, P.opt, path.cost, eps)
    {
      NearConsistencyCarries(P, eps);
      UnbeatenMeansNearlyCheapest(P, path.cost, eps);
    }
    if ConsistentEstimate(P.g, P.goal, P.opt) {
      ConsistentIsNearly(P.g, P.goal, P.opt);
      NearlyIsCheapest(P.g, P.start, P.goal, P.opt, path.cost);
    }
  }

  lemma AnswersMeanSpec(P: Problem, final: Run, o: Outcome)
    requires P.Ok() && P.BucketsAdvance() && HasEstimate(P) && P == MakeProblem(P.g, P.start, P.goal, P.opt)
    requires Answers(P, MaxExpansions(P.opt), final, o)
    ensures SearchSpec(P.g, P.start, P.goal, P.opt, o)
  {
    match o
    case Found(path) =>
      AnswerMeansSpec(P, path);
    case Unroutable =>
      ExhaustedMeansNoneFits(P, final);
    case CapHit =>
  }

  lemma NoExit(g: Graph, start: nat, goal: int, opt: Options)
    requires g.WellFormed() && start < g.NumNodes() && start != goal
    requires forall e :: 0 <= e < g.NumEdges() ==> g.from[e] != start
    ensures InRange(g, goal) ==> SearchSpec(g, start, goal, opt, Unroutable) && BudgetIsExact(g, start, goal, opt, Unroutable)
  {
  }

  /** The search works with what routes really spend: it finds a route no dearer than any unrivalled one, but for `eps` a step. */
  ghost predicate BudgetIsExact(g: Graph, start: int, goal: int, opt: Options, o: Outcome)
    requires g.WellFormed() && InRange(g, goal)
  {
    o != CapHit ==> forall p, eps {:trigger Unrivalled(g, start, opt, p, eps)} ::
      NearlyConsistentEstimate(g, goal, opt, eps) && IsRoute(g, start, goal, p) && Unrivalled(g, start, opt, p, eps) ==>
        o.Found? && o.path.cost <= WalkCost(opt, p) + Widths(|p|, eps)
  }

  /** The run behind an answer: an unroutable request has nothing left to expand, a found path is the label of the goal state popped, and a capped one settled exactly as many states as allowed. */
  ghost predicate Explained(g: Graph, start: int, goal: int, opt: Options, o: Outcome, final: Run)
    requires g.WellFormed() && InRange(g, start) && InRange(g, goal)
  {
    match o
    case Found(path) =>
      && Inv(MakeProblem(g, start, goal, opt), final, IDLE, 0) && Popped(MakeProblem(g, start, goal, opt), final, path)
      && path.expansions == DoneCount(final.done) + 1
    case Unroutable =>
      || (forall e :: 0 <= e < g.NumEdges() ==> g.from[e] != start)
      || (Inv(MakeProblem(g, start, goal, opt), final, IDLE, 0) && final.queue == multiset{})
    case CapHit => Inv(MakeProblem(g, start, goal, opt), final, IDLE, 0) && DoneCount(final.done) == MaxExpansions(opt)
    case BadIndex => false
  }

  lemma AnswersAreExact(P: Problem, final: Run, o: Outcome)
    requires P.Ok() && P.BucketsAdvance() && HasEstimate(P) && Answers(P, MaxExpansions(P.opt), final, o) && P.start != P.goal
    ensures BudgetIsExact(P.g, P.start, P.goal, P.opt, o)
  {
    if o != CapHit {
      forall p, eps | NearlyConsistentEstimate(P.g, P.goal, P.opt, eps) && IsRoute(P.g, P.start, P.goal, p) && Unrivalled(P.g, P.start, P.opt, p, eps)
        ensures o.Found? && o.path.cost <= WalkCost(P.opt, p) + Widths(|p|, eps)
      {
        NearConsistencyCarries(P, eps);
        AnswerIsExact(P, final, o, p, eps);
      }
    }
  }

  lemma AnswerIsExact(P: Problem, final: Run, o: Outcome, p: seq<nat>, eps: real)
    requires P.Ok() && P.BucketsAdvance() && P.NearlyConsistent(eps) && Answers(P, MaxExpansions(P.opt), final, o) && o != CapHit
    requires Unrivalled(P.g, P.start, P.opt, p, eps) && P.g.to[Last(p)] == P.goal
    ensures o.Found? && o.path.cost <= WalkCost(P.opt, p) + Widths(|p|, eps)
  {
    assert Contender(P, p, eps);
    if o.Found? {
      assert Unbeaten(P, o.path.cost, eps);
    } else {
      ExhaustedMeansUnroutable(P, final, p, eps);
    }
  }

  /** Run a valid request on a pooled or new workspace and hand the workspace back. */
  method RunPooled(pooled: Workspace?, P: Problem) returns (o: Outcome, w: Workspace, ghost final: Run)
    requires P.Ok() && P.BucketsAdvance() && HasEstimate(P)
    requires pooled != null ==> pooled.Valid()
    modifies if pooled == null then {} else pooled.Repr
    ensures Answers(P, MaxExpansions(P.opt), final, o)
    ensures w.Valid() && (if pooled == null then fresh(w) else w == pooled)
    ensures fresh(w.Repr - if pooled == null then {} else old(pooled.Repr))
  {
    w := GetWorkspace(pooled, P.numStates, P.g.NumNodes());
    o, final := Drive(P, w, MaxExpansions(P.opt));
    w.Release();
  }

  lemma MakeProblemReady(g: Graph, start: nat, goal: nat, opt: Options)
    requires g.WellFormed() && start < g.NumNodes() && goal < g.NumNodes() && start != goal
    ensures var P := MakeProblem(g, start, goal, opt);
            P.Ok() && P.BucketsAdvance() && HasEstimate(P) && P.g == g && P.opt == opt && P.start == start && P.goal == goal
  {
    MakeProblemOk(g, start, goal, opt);
    MakeProblemAdvances(g, start, goal, opt);
  }

  lemma OutcomeMeansSpec(g: Graph, start: nat, goal: nat, opt: Options, final: Run, o: Outcome)
    requires g.WellFormed() && start < g.NumNodes() && goal < g.NumNodes() && start != goal
    requires MakeProblem(g, start, goal, opt).Ok() && Answers(MakeProblem(g, start, goal, opt), MaxExpansions(opt), final, o)
    ensures SearchSpec(g, start, goal, opt, o)
    ensures Explained(g, start, goal, opt, o, final) && BudgetIsExact(g, start, goal, opt, o)
  {
    MakeProblemReady(g, start, goal, opt);
    AnswersAreExact(MakeProblem(g, start, goal, opt), final, o);
    AnswersMeanSpec(MakeProblem(g, start, goal, opt), final, o);
  }

  /** Staying put is the only route from a node to itself. */
  lemma StayingPut(g: Graph, start: int, opt: Options)
    requires g.WellFormed()
    ensures SearchSpec(g, start, start, opt, Found(Path([], 0.0, 0.0, 0.0, 0)))
  {
  }

  /** A search between two distinct nodes of the graph. */
  method SearchBetween(pooled: Workspace?, g: Graph, start: nat, goal: nat, opt: Options)
    returns (o: Outcome, released: Workspace, ghost final: Run)
    requires g.WellFormed() && start < g.NumNodes() && goal < g.NumNodes() && start != goal
    requires pooled != null ==> pooled.Valid()
    modifies if pooled == null then {} else pooled.Repr
    ensures SearchSpec(g, start, goal, opt, o)
    ensures Explained(g, start, goal, opt, o, final) && BudgetIsExact(g, start, goal, opt, o)
    ensures released.Valid() && (if pooled == null then fresh(released) else released == pooled)
    ensures fresh(released.Repr - if pooled == null then {} else old(pooled.Repr))
  {
    MakeProblemReady(g, start, goal, opt);
    o, released, final := RunPooled(pooled, MakeProblem(g, start, goal, opt));
    OutcomeMeansSpec(g, start, goal, opt, final, o);
  }

  /**
   Find the cheapest route from `start` to `goal`. The pooled workspace may
   hold anything; it comes back as `released`.
   */
  method Search(pooled: Workspace?, g: Graph, start: int, goal: int, opt: Options)
    returns (o: Outcome, released: Workspace?, ghost final: Run)
    requires g.WellFormed()
    requires pooled != null ==> pooled.Valid()
    modifies if pooled == null then {} else pooled.Repr
    ensures SearchSpec(g, start, goal, opt, o)
    ensures start == goal ==> o == Found(Path([], 0.0, 0.0, 0.0, 0))
    ensures start != goal && InRange(g, start) && InRange(g, goal) ==>
              Explained(g, start, goal, opt, o, final) && BudgetIsExact(g, start, goal, opt, o)
    ensures if pooled != null then released == pooled else released == null || fresh(released)
    ensures released != null ==> released.Valid() && fresh(released.Repr - if pooled == null then {} else old(pooled.Repr))
  {
    released := pooled;
    final := Run([], [], [], multiset{});
    if start == goal {
      StayingPut(g, start, opt);
      o := Found(Path([], 0.0, 0.0, 0.0, 0));
    } else if start < 0 || start >= g.NumNodes() || goal < 0 || goal >= g.NumNodes() {
      o := BadIndex;
    } else if g.OutEdges(start).0 == g.OutEdges(start).1 {
      NoExit(g, start, goal, opt);
      o := Unroutable;
    } else {
      o, released, final := SearchBetween(pooled, g, start, goal, opt);
    }
  }

  /** A search on a workspace that stays with the caller. */
  method SearchOn(w: Workspace, g: Graph, start: int, goal: int, opt: Options) returns (o: Outcome)
    requires g.WellFormed() && w.Valid()
    modifies w.Repr
    ensures SearchSpec(g, start, goal, opt, o)
    ensures w.Valid() && fresh(w.Repr - old(w.Repr))
  {
    var released;
    ghost var final;
    o, released, final := Search(w, g, start, goal, opt);
  }
}
