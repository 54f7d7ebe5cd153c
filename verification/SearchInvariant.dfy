/**
 What one search keeps from step to step, on values.

 A `Run` is the search's scratch state with the numbers replaced by their
 meaning: `walk[st]` is the walk that the predecessor chain of state `st` spells
 out, so its cost and budget use are functions of it. The imperative search in
 module Search keeps its arrays equal to these functions; everything that makes
 its answer right is proved here.

 Source -1 stands for "not yet moving": seeding the start node's edges and
 expanding a settled state are then one operation, relaxing an edge from a
 source.
 */
module SearchInvariant {
  import opened RoadGraph
  import opened Walks
  import opened StateQueue
  import opened StateSpace
  import opened ExactBudget

  const NO_SOURCE: int := -1

  /**
   One request. Index arithmetic and bucketing are functions, of which
   only the laws in `Ok` matter; module Search supplies the real ones.
   */
  datatype Problem = Problem(
    g: Graph,
    opt: Options,
    start: nat,
    goal: nat,
    numStates: nat,
    buckets: nat,
    edgeOf: nat -> nat,
    stateOf: (nat, nat) -> nat,
    bucketAt: nat -> nat,
    bucketOf: real -> nat,
    units: nat -> nat,
    h: nat -> real)
  {
    ghost predicate Ok() {
      && g.WellFormed()
      && start < g.NumNodes() && goal < g.NumNodes() && start != goal
      && (forall st {:trigger edgeOf(st)} :: 0 <= st < numStates ==> edgeOf(st) < g.NumEdges())
      && (forall e, b {:trigger stateOf(e, b)} :: 0 <= e < g.NumEdges() && 0 <= b < buckets ==>
            stateOf(e, b) < numStates && edgeOf(stateOf(e, b)) == e && bucketAt(stateOf(e, b)) == b)
      && (forall u {:trigger bucketOf(u)} :: 0.0 <= u ==> bucketOf(u) < buckets)
    }

    /** Edge `f` may follow a walk that has spent `spent`. */
    predicate CanTake(spent: real, f: nat) {
      opt.Allows(f) && (opt.IsOver(f) ==> spent + EdgeLength(g, f) <= opt.budgetM)
    }

    /** Cost so far plus the estimate of what remains. */
    function Priority(p: seq<nat>): real
      requires p != []
    {
      WalkCost(opt, p) + h(Last(p))
    }

    function Spent(p: seq<nat>): real {
      OverLength(g, opt, p)
    }

    /** The state a walk arrives in. */
    function StateOfWalk(p: seq<nat>): nat
      requires p != []
    {
      stateOf(Last(p), bucketOf(Spent(p)))
    }

    /** The buckets a walk has paid for, each over-threshold edge rounded up. */
    function Units(p: seq<nat>): nat {
      if p == [] then 0 else Units(Init(p)) + units(Last(p))
    }

    /** Taking over-threshold edge `f` from a spend in bucket at most `b` is affordable and stays in bucket `b + units(f)`. */
    ghost predicate Advances(spent: real, b: nat, f: nat) {
      0.0 <= spent <= Allowance(opt.budgetM) && bucketOf(spent) <= b && b + units(f) <= buckets - 1 ==>
        spent + EdgeLength(g, f) <= opt.budgetM && bucketOf(spent + EdgeLength(g, f)) <= b + units(f)
    }

    /** Units bound how far an edge can advance a label. */
    ghost predicate BucketsAdvance() {
      && (forall spent, b, f {:trigger Advances(spent, b, f)} :: 0 <= f < g.NumEdges() && opt.IsOver(f) ==> Advances(spent, b, f))
      && (forall f {:trigger units(f)} :: !opt.IsOver(f) ==> units(f) == 0)
      && bucketOf(0.0) == 0
    }

    /** The estimate exceeds one step's cost plus the next estimate by at most `eps`, and is zero at the goal. */
    ghost predicate NearlyConsistent(eps: real)
      requires Ok()
    {
      && 0.0 <= eps
      && (forall e, f {:trigger opt.Turn(e, f)} :: 0 <= e < g.NumEdges() && 0 <= f < g.NumEdges() && g.to[e] == g.from[f] && opt.Allows(e) && opt.Allows(f) ==>
            h(e) <= opt.Turn(e, f) + opt.edgeCost(f) + h(f) + eps)
      && (forall e :: 0 <= e < g.NumEdges() && g.to[e] == goal ==> h(e) == 0.0)
    }

    ghost predicate Consistent()
      requires Ok()
    {
      NearlyConsistent(0.0)
    }
  }

  /** `walk[st]` is empty until `st` is reached; a done state is never written again. */
  datatype Run = Run(walk: seq<seq<nat>>, prev: seq<int>, done: seq<bool>, queue: multiset<Item>)

  ghost predicate Shaped(P: Problem, r: Run) {
    |r.walk| == |r.prev| == |r.done| == P.numStates
  }

  ghost predicate Reached(r: Run, st: int) {
    0 <= st < |r.walk| && r.walk[st] != []
  }

  ghost predicate IsSource(r: Run, src: int) {
    src == NO_SOURCE || (Reached(r, src) && src < |r.done| && r.done[src])
  }

  /** The walk on which source `src` is standing. */
  ghost function WalkTo(r: Run, src: int): seq<nat>
    requires src == NO_SOURCE || 0 <= src < |r.walk|
  {
    if src == NO_SOURCE then [] else r.walk[src]
  }

  /** The node at which source `src` is standing. */
  ghost function At(P: Problem, src: int): nat
    requires P.Ok() && (src == NO_SOURCE || 0 <= src < P.numStates)
  {
    if src == NO_SOURCE then P.start else P.g.to[P.edgeOf(src)]
  }

  /** A walk of the kind labels hold: permitted, and never past the budget. */
  ghost predicate Admissible(P: Problem, p: seq<nat>)
    requires P.Ok()
  {
    IsWalk(P.g, P.start, p) && Permitted(P.opt, p) && P.Spent(p) <= Allowance(P.opt.budgetM)
  }

  ghost predicate LabelOk(P: Problem, st: nat, p: seq<nat>)
    requires P.Ok() && st < P.numStates
  {
    && Admissible(P, p)
    && Last(p) == P.edgeOf(st)
    && st == P.StateOfWalk(p)
  }

  ghost predicate LabelsOk(P: Problem, r: Run)
    requires P.Ok() && Shaped(P, r)
  {
    forall st {:trigger r.walk[st]} :: 0 <= st < P.numStates && r.walk[st] != [] ==> LabelOk(P, st, r.walk[st])
  }

  /** Every label extends the final label of its predecessor by one edge. */
  ghost predicate PredecessorsOk(P: Problem, r: Run)
    requires P.Ok() && Shaped(P, r)
  {
    forall st {:trigger r.prev[st]} :: 0 <= st < P.numStates ==>
      if r.walk[st] == [] then r.prev[st] == NO_SOURCE
      else IsSource(r, r.prev[st]) && r.walk[st] == WalkTo(r, r.prev[st]) + [P.edgeOf(st)]
  }

  ghost predicate DoneOk(P: Problem, r: Run)
    requires P.Ok() && Shaped(P, r)
  {
    forall st {:trigger r.done[st]} :: 0 <= st < P.numStates && r.done[st] ==>
      r.walk[st] != [] && P.g.to[P.edgeOf(st)] != P.goal
  }

  /** Queue entries are never optimistic, and every open label has an exact one: lazy deletion is sound. */
  ghost predicate QueueOk(P: Problem, r: Run)
    requires Shaped(P, r)
  {
    && (forall x {:trigger r.queue[x]} :: x in r.queue ==> Reached(r, x.state) && P.Priority(r.walk[x.state]) <= x.priority)
    && (forall st {:trigger r.walk[st]} {:trigger r.done[st]} :: 0 <= st < P.numStates && r.walk[st] != [] && !r.done[st] ==>
          Item(st, P.Priority(r.walk[st])) in r.queue)
  }

  /** Edge `f` out of source `src` has been relaxed: its target is reached, and no dearer than through `src`. */
  ghost predicate Closed(P: Problem, r: Run, src: int, f: nat)
    requires P.Ok() && Shaped(P, r) && IsSource(r, src)
  {
    var p := WalkTo(r, src);
    P.CanTake(P.Spent(p), f) ==>
      var st := P.StateOfWalk(p + [f]);
      && Reached(r, st) && (r.done[st] || WalkCost(P.opt, r.walk[st]) <= WalkCost(P.opt, p + [f]))
      && (P.Consistent() ==> WalkCost(P.opt, r.walk[st]) <= WalkCost(P.opt, p + [f]))
  }

  /** Every edge out of every source has been relaxed, except for `cur`, where only those below `k` have. */
  ghost predicate ClosedUpTo(P: Problem, r: Run, cur: int, k: nat)
    requires P.Ok() && Shaped(P, r)
  {
    forall src: int, f: nat {:trigger Closed(P, r, src, f)} ::
      IsSource(r, src) && f < P.g.NumEdges() && P.g.from[f] == At(P, src) && (src == cur ==> f < k) ==> Closed(P, r, src, f)
  }

  /** Settled states never exceed what is still queued, nor the state being expanded. */
  ghost predicate SettledFirst(P: Problem, r: Run, cur: int)
    requires Shaped(P, r)
  {
    && (forall st, x {:trigger r.done[st], r.queue[x]} :: 0 <= st < P.numStates && r.done[st] && r.walk[st] != [] && x in r.queue ==>
          P.Priority(r.walk[st]) <= x.priority)
    && (cur == NO_SOURCE ==> forall st {:trigger r.done[st]} :: 0 <= st < P.numStates ==> !r.done[st])
    && (0 <= cur < P.numStates && r.walk[cur] != [] ==>
          forall st {:trigger r.done[st]} :: 0 <= st < P.numStates && r.done[st] && r.walk[st] != [] ==>
            P.Priority(r.walk[st]) <= P.Priority(r.walk[cur]))
  }

  /** A walk the rounded-up budget leaves room for. */
  ghost predicate Competitor(P: Problem, p: seq<nat>)
    requires P.Ok()
  {
    IsWalk(P.g, P.start, p) && Permitted(P.opt, p) && P.Units(p) <= P.buckets - 1
  }

  /** A walk the search cannot miss: its rounded spend fits, or its true spend does and nothing as cheap has spent more on the way. */
  ghost predicate Contender(P: Problem, p: seq<nat>, eps: real)
    requires P.Ok()
  {
    Competitor(P, p) || (P.NearlyConsistent(eps) && Unrivalled(P.g, P.start, P.opt, p, eps))
  }

  /** Label `t` costs no more than `p`, give or take `eps` a step. */
  ghost predicate Near(P: Problem, r: Run, t: nat, p: seq<nat>, eps: real)
    requires t < |r.walk|
  {
    WalkCost(P.opt, r.walk[t]) <= WalkCost(P.opt, p) + Widths(|p|, eps)
  }

  /** State `t` holds a label for the end of `p`, in a bucket `p` has paid for if it fits, and no dearer than `p` but for `eps` a step. */
  ghost predicate Dominates(P: Problem, r: Run, t: nat, p: seq<nat>, eps: real)
    requires P.Ok() && Shaped(P, r)
  {
    && p != [] && Reached(r, t) && LabelOk(P, t, r.walk[t])
    && P.edgeOf(t) == Last(p)
    && (Competitor(P, p) ==> P.bucketOf(P.Spent(r.walk[t])) <= P.Units(p))
    && (P.NearlyConsistent(eps) ==> Near(P, r, t, p, eps))
  }

  ghost predicate SettledDominator(P: Problem, r: Run, p: seq<nat>, eps: real)
    requires P.Ok() && Shaped(P, r)
  {
    exists t: nat {:trigger r.done[t]} :: t < P.numStates && r.done[t] && Dominates(P, r, t, p, eps)
  }

  /** Every settled label is near each contender for its edge, unless another settled label dominates that contender. */
  ghost predicate Vouched(P: Problem, r: Run, eps: real)
    requires P.Ok() && Shaped(P, r)
  {
    forall st, p {:trigger r.done[st], Contender(P, p, eps)} :: 0 <= st < P.numStates && r.done[st] && Contender(P, p, eps) && Last(p) == P.edgeOf(st) ==>
      Near(P, r, st, p, eps) || SettledDominator(P, r, p, eps)
  }

  ghost predicate AllVouched(P: Problem, r: Run)
    requires P.Ok() && Shaped(P, r)
  {
    P.BucketsAdvance() ==> forall eps {:trigger P.NearlyConsistent(eps)} :: P.NearlyConsistent(eps) ==> Vouched(P, r, eps)
  }

  /** No source is being expanded. */
  const IDLE: int := -2

  ghost predicate Inv(P: Problem, r: Run, cur: int, k: nat) {
    && P.Ok() && Shaped(P, r)
    && LabelsOk(P, r)
    && PredecessorsOk(P, r)
    && DoneOk(P, r)
    && QueueOk(P, r)
    && ClosedUpTo(P, r, cur, k)
    && (P.Consistent() ==> SettledFirst(P, r, cur))
    && AllVouched(P, r)
  }

  // ------------------------------------------------------------------ start

  ghost function Blank(P: Problem): Run {
    Run(seq(P.numStates, _ => []), seq(P.numStates, _ => NO_SOURCE), seq(P.numStates, _ => false), multiset{})
  }

  lemma BlankInv(P: Problem, lo: nat)
    requires P.Ok()
    requires forall f :: 0 <= f < P.g.NumEdges() && P.g.from[f] == P.start ==> lo <= f
    ensures Inv(P, Blank(P), NO_SOURCE, lo)
  {
  }

  // ------------------------------------------------------------- relaxation

  /** The relaxation of edge `f` from `src` improves on what its target holds. */
  ghost predicate Improves(P: Problem, r: Run, src: int, f: nat)
    requires P.Ok() && Shaped(P, r) && IsSource(r, src)
  {
    var p := WalkTo(r, src);
    P.CanTake(P.Spent(p), f) &&
    var st := P.StateOfWalk(p + [f]);
    st < P.numStates && !r.done[st] && (r.walk[st] == [] || WalkCost(P.opt, p + [f]) < WalkCost(P.opt, r.walk[st]))
  }

  /** Write label `p`, reached from `src`, into state `t` and queue it. */
  ghost function Labelled(P: Problem, r: Run, src: int, t: nat, p: seq<nat>): Run
    requires Shaped(P, r) && t < P.numStates && p != []
  {
    Run(r.walk[t := p], r.prev[t := src], r.done, r.queue + multiset{Item(t, P.Priority(p))})
  }

  ghost function Relaxed(P: Problem, r: Run, src: int, f: nat): Run
    requires P.Ok() && Shaped(P, r) && IsSource(r, src)
  {
    if !Improves(P, r, src, f) then r else
      var p := WalkTo(r, src) + [f];
      Labelled(P, r, src, P.StateOfWalk(p), p)
  }

  lemma AdmissibleExtends(P: Problem, q: seq<nat>, f: nat)
    requires P.Ok() && f < P.g.NumEdges() && P.CanTake(P.Spent(q), f)
    requires if q == [] then P.g.from[f] == P.start else Admissible(P, q) && P.g.from[f] == P.g.to[Last(q)]
    ensures Admissible(P, q + [f])
  {
    Snoc(q, f);
    if q != [] {
      WalkExtend(P.g, P.start, q, f);
    }
  }

  /** The extended walk is a legitimate label of its target. */
  lemma ExtensionLabel(P: Problem, r: Run, src: int, f: nat)
    requires P.Ok() && Shaped(P, r) && LabelsOk(P, r) && IsSource(r, src)
    requires f < P.g.NumEdges() && P.g.from[f] == At(P, src)
    requires P.CanTake(P.Spent(WalkTo(r, src)), f)
    ensures var p := WalkTo(r, src) + [f];
            P.StateOfWalk(p) < P.numStates && LabelOk(P, P.StateOfWalk(p), p)
  {
    var q := WalkTo(r, src);
    AdmissibleExtends(P, q, f);
    WalkState(P, q + [f]);
  }

  lemma WalkState(P: Problem, p: seq<nat>)
    requires P.Ok() && IsWalk(P.g, P.start, p)
    ensures P.StateOfWalk(p) < P.numStates && P.edgeOf(P.StateOfWalk(p)) == Last(p)
  {
    OverLengthNonNegative(P.g, P.opt, p);
    assert Last(p) < P.g.NumEdges();
  }

  /** The last edge of an admissible walk is a permitted edge of the graph. */
  lemma LastIsAllowed(P: Problem, p: seq<nat>)
    requires P.Ok() && IsWalk(P.g, P.start, p) && Permitted(P.opt, p)
    ensures Last(p) < P.g.NumEdges() && P.opt.Allows(Last(p))
  {
    assert P.opt.Allows(p[|p| - 1]);
  }

  /** One more step lowers the priority by at most `eps`. */
  lemma StepRaisesPriority(P: Problem, p: seq<nat>, f: nat, eps: real)
    requires P.Ok() && P.NearlyConsistent(eps) && p != [] && Last(p) < P.g.NumEdges() && P.opt.Allows(Last(p))
    requires f < P.g.NumEdges() && P.g.from[f] == P.g.to[Last(p)] && P.opt.Allows(f)
    ensures P.Priority(p) <= P.Priority(p + [f]) + eps
  {
    Snoc(p, f);
    assert P.h(Last(p)) <= P.opt.Turn(Last(p), f) + P.opt.edgeCost(f) + P.h(f) + eps;
  }

  /** A legitimate label for an open state that holds nothing better. */
  ghost predicate CanLabel(P: Problem, r: Run, src: int, t: nat, p: seq<nat>)
    requires P.Ok() && Shaped(P, r)
  {
    && IsSource(r, src) && t < P.numStates && p != []
    && LabelOk(P, t, p) && p == WalkTo(r, src) + [P.edgeOf(t)]
    && !r.done[t] && (r.walk[t] == [] || WalkCost(P.opt, p) < WalkCost(P.opt, r.walk[t]))
  }

  lemma LabelledKeepsSources(P: Problem, r: Run, src: int, t: nat, p: seq<nat>)
    requires Shaped(P, r) && t < P.numStates && p != [] && !r.done[t]
    ensures var r' := Labelled(P, r, src, t, p);
            && Shaped(P, r')
            && (forall s :: IsSource(r', s) <==> IsSource(r, s))
            && (forall s :: IsSource(r, s) ==> WalkTo(r', s) == WalkTo(r, s))
  {
  }

  lemma LabelledKeepsLabels(P: Problem, r: Run, src: int, t: nat, p: seq<nat>)
    requires P.Ok() && Shaped(P, r) && LabelsOk(P, r) && PredecessorsOk(P, r) && DoneOk(P, r)
    requires CanLabel(P, r, src, t, p)
    ensures var r' := Labelled(P, r, src, t, p);
            Shaped(P, r') && LabelsOk(P, r') && PredecessorsOk(P, r') && DoneOk(P, r')
  {
    LabelledKeepsSources(P, r, src, t, p);
  }

  lemma LabelledKeepsQueue(P: Problem, r: Run, src: int, t: nat, p: seq<nat>)
    requires P.Ok() && Shaped(P, r) && LabelsOk(P, r) && QueueOk(P, r)
    requires CanLabel(P, r, src, t, p)
    ensures var r' := Labelled(P, r, src, t, p); Shaped(P, r') && QueueOk(P, r')
  {
    var r' := Labelled(P, r, src, t, p);
    forall x | x in r'.queue ensures Reached(r', x.state) && P.Priority(r'.walk[x.state]) <= x.priority {
      if x in r.queue && x.state == t {
        assert P.Priority(r.walk[t]) <= x.priority;
        assert LabelOk(P, t, r.walk[t]);
        assert Last(r.walk[t]) == Last(p);
      }
    }
  }

  /** Everything relaxing needs to know, gathered for the lemmas below. */
  ghost predicate CanRelax(P: Problem, r: Run, src: int, f: nat) {
    && Inv(P, r, src, f) && IsSource(r, src)
    && f < P.g.NumEdges() && P.g.from[f] == At(P, src)
  }

  lemma ImprovementIsLabel(P: Problem, r: Run, src: int, f: nat)
    requires CanRelax(P, r, src, f) && Improves(P, r, src, f)
    ensures var p := WalkTo(r, src) + [f]; CanLabel(P, r, src, P.StateOfWalk(p), p)
  {
    ExtensionLabel(P, r, src, f);
    Snoc(WalkTo(r, src), f);
  }

  /** The state a walk arrives in is settled or has a label no dearer than the walk; under a consistent estimate it has one in either case. */
  ghost predicate Attained(P: Problem, r: Run, p: seq<nat>)
    requires P.Ok() && p != []
  {
    var t := P.StateOfWalk(p);
    && Reached(r, t) && t < |r.done| && (r.done[t] || WalkCost(P.opt, r.walk[t]) <= WalkCost(P.opt, p))
    && (P.Consistent() ==> WalkCost(P.opt, r.walk[t]) <= WalkCost(P.opt, p))
  }

  /** The label a relaxation leaves in the target is no dearer than the relaxed walk, settled or not. */
  lemma RelaxReachesTarget(P: Problem, r: Run, src: int, f: nat)
    requires CanRelax(P, r, src, f)
    requires P.CanTake(P.Spent(WalkTo(r, src)), f)
    ensures Attained(P, Relaxed(P, r, src, f), WalkTo(r, src) + [f])
  {
    var q := WalkTo(r, src);
    var t := P.StateOfWalk(q + [f]);
    ExtensionLabel(P, r, src, f);
    if !Improves(P, r, src, f) && P.Consistent() && r.done[t] {
      SettledTargetIsCheaper(P, r, src, f, t);
    }
  }

  /** A target settled earlier was settled at no more than the relaxed walk would cost. */
  lemma SettledTargetIsCheaper(P: Problem, r: Run, src: int, f: nat, t: nat)
    requires P.Ok() && P.Consistent() && Shaped(P, r) && LabelsOk(P, r) && SettledFirst(P, r, src)
    requires IsSource(r, src) && IsSource(r, t)
    requires f < P.g.NumEdges() && P.g.from[f] == At(P, src) && P.opt.Allows(f)
    requires P.edgeOf(t) == f
    ensures WalkCost(P.opt, r.walk[t]) <= WalkCost(P.opt, WalkTo(r, src) + [f])
  {
    var q := WalkTo(r, src);
    assert r.done[t];
    assert LabelOk(P, src, q);
    LastIsAllowed(P, q);
    StepRaisesPriority(P, q, f, 0.0);
    assert LabelOk(P, t, r.walk[t]);
    assert Last(r.walk[t]) == f;
    Snoc(q, f);
  }

  lemma RelaxKeepsClosed(P: Problem, r: Run, src: int, f: nat)
    requires CanRelax(P, r, src, f)
    ensures var r' := Relaxed(P, r, src, f); Shaped(P, r') && ClosedUpTo(P, r', src, f + 1)
  {
    var r' := Relaxed(P, r, src, f);
    if Improves(P, r, src, f) {
      ImprovementIsLabel(P, r, src, f);
      var p := WalkTo(r, src) + [f];
      LabelledKeepsSources(P, r, src, P.StateOfWalk(p), p);
    }
    forall s: int, e: nat | IsSource(r', s) && e < P.g.NumEdges() && P.g.from[e] == At(P, s) && (s == src ==> e < f + 1)
      ensures Closed(P, r', s, e)
    {
      if s == src && e == f {
        if P.CanTake(P.Spent(WalkTo(r, src)), f) {
          RelaxReachesTarget(P, r, src, f);
        }
      } else {
        assert Closed(P, r, s, e);
        StaysClosed(P, r, src, f, s, e);
      }
    }
  }

  lemma StaysClosed(P: Problem, r: Run, src: int, f: nat, s: int, e: nat)
    requires P.Ok() && Shaped(P, r) && IsSource(r, src) && IsSource(r, s)
    requires Closed(P, r, s, e)
    requires var r' := Relaxed(P, r, src, f); Shaped(P, r') && IsSource(r', s) && WalkTo(r', s) == WalkTo(r, s)
    ensures Closed(P, Relaxed(P, r, src, f), s, e)
  {
  }

  lemma RelaxKeepsOrder(P: Problem, r: Run, src: int, f: nat)
    requires CanRelax(P, r, src, f) && P.Consistent()
    ensures var r' := Relaxed(P, r, src, f); Shaped(P, r') && SettledFirst(P, r', src)
  {
    if Improves(P, r, src, f) {
      var q := WalkTo(r, src);
      ImprovementIsLabel(P, r, src, f);
      LabelledKeepsSources(P, r, src, P.StateOfWalk(q + [f]), q + [f]);
      if src != NO_SOURCE {
        assert LabelOk(P, src, q);
        LastIsAllowed(P, q);
        StepRaisesPriority(P, q, f, 0.0);
        LabelledKeepsOrder(P, r, src, P.StateOfWalk(q + [f]), q + [f]);
      }
    }
  }

  lemma LabelledKeepsOrder(P: Problem, r: Run, src: int, t: nat, p: seq<nat>)
    requires Shaped(P, r) && t < P.numStates && p != [] && !r.done[t]
    requires SettledFirst(P, r, src) && src != NO_SOURCE && IsSource(r, src)
    requires P.Priority(r.walk[src]) <= P.Priority(p)
    ensures var r' := Labelled(P, r, src, t, p); Shaped(P, r') && SettledFirst(P, r', src)
  {
  }

  /** Two runs with the same settled labels. */
  ghost predicate SameSettled(P: Problem, r: Run, r': Run) {
    && Shaped(P, r) && Shaped(P, r')
    && forall st {:trigger r'.done[st]} {:trigger r.done[st]} :: 0 <= st < P.numStates && r.done[st] ==> r'.done[st] && r'.walk[st] == r.walk[st]
  }

  /** Settled labels stay settled, so what they dominate stays dominated. */
  lemma DominatorStays(P: Problem, r: Run, r': Run, p: seq<nat>, eps: real)
    requires P.Ok() && SameSettled(P, r, r') && SettledDominator(P, r, p, eps)
    ensures SettledDominator(P, r', p, eps)
  {
    var t: nat :| t < P.numStates && r.done[t] && Dominates(P, r, t, p, eps);
    assert r'.done[t];
  }

  lemma VouchedStays(P: Problem, r: Run, r': Run)
    requires P.Ok() && SameSettled(P, r, r') && r'.done == r.done && AllVouched(P, r)
    ensures AllVouched(P, r')
  {
    forall eps | P.BucketsAdvance() && P.NearlyConsistent(eps) ensures Vouched(P, r', eps) {
      forall st, p | 0 <= st < P.numStates && r'.done[st] && Contender(P, p, eps) && Last(p) == P.edgeOf(st)
        ensures Near(P, r', st, p, eps) || SettledDominator(P, r', p, eps)
      {
        assert r.done[st];
        if SettledDominator(P, r, p, eps) {
          DominatorStays(P, r, r', p, eps);
        }
      }
    }
  }

  /** Relaxing settles nothing. */
  lemma RelaxKeepsDone(P: Problem, r: Run, src: int, f: nat)
    requires P.Ok() && Shaped(P, r) && IsSource(r, src)
    ensures Relaxed(P, r, src, f).done == r.done && IsSource(Relaxed(P, r, src, f), src)
  {
  }

  /** Relaxing never writes a settled label. */
  lemma RelaxKeepsSettled(P: Problem, r: Run, src: int, f: nat)
    requires P.Ok() && Shaped(P, r) && IsSource(r, src)
    ensures SameSettled(P, r, Relaxed(P, r, src, f)) && Relaxed(P, r, src, f).done == r.done
  {
  }

  lemma RelaxKeepsVouched(P: Problem, r: Run, src: int, f: nat)
    requires CanRelax(P, r, src, f)
    ensures Shaped(P, Relaxed(P, r, src, f)) && AllVouched(P, Relaxed(P, r, src, f))
  {
    RelaxKeepsSettled(P, r, src, f);
    VouchedStays(P, r, Relaxed(P, r, src, f));
  }

  /** Relaxing one edge keeps the invariant and moves the expansion past that edge. */
  lemma RelaxInv(P: Problem, r: Run, src: int, f: nat)
    requires CanRelax(P, r, src, f)
    ensures Inv(P, Relaxed(P, r, src, f), src, f + 1)
  {
    RelaxKeepsClosed(P, r, src, f);
    RelaxKeepsVouched(P, r, src, f);
    if P.Consistent() {
      RelaxKeepsOrder(P, r, src, f);
    }
    if Improves(P, r, src, f) {
      var p := WalkTo(r, src) + [f];
      ImprovementIsLabel(P, r, src, f);
      LabelledKeepsLabels(P, r, src, P.StateOfWalk(p), p);
      LabelledKeepsQueue(P, r, src, P.StateOfWalk(p), p);
    }
  }

  // --------------------------------------------------------------- settling

  /** When every edge out of the source lies below the relaxed ones, the source is finished. */
  lemma FinishInv(P: Problem, r: Run, cur: int, hi: nat)
    requires Inv(P, r, cur, hi)
    requires cur == NO_SOURCE || 0 <= cur < P.numStates
    requires forall f :: 0 <= f < P.g.NumEdges() && P.g.from[f] == At(P, cur) ==> f < hi
    ensures Inv(P, r, IDLE, 0)
  {
    forall s: int, e: nat | IsSource(r, s) && e < P.g.NumEdges() && P.g.from[e] == At(P, s)
      ensures Closed(P, r, s, e)
    {
    }
  }

  ghost predicate IsLeast(r: Run, x: Item) {
    x in r.queue && forall y {:trigger r.queue[y]} :: y in r.queue ==> x.priority <= y.priority
  }

  /** What a pop does to the run: the entry leaves, and its state is settled from then on. */
  ghost function Settled(r: Run, x: Item): Run
    requires x.state < |r.done|
  {
    r.(done := r.done[x.state := true], queue := r.queue - multiset{x})
  }

  lemma SettledKeepsClosed(P: Problem, r: Run, x: Item, lo: nat)
    requires P.Ok() && Shaped(P, r) && Reached(r, x.state)
    requires ClosedUpTo(P, r, IDLE, 0)
    requires r.done[x.state] || forall f :: 0 <= f < P.g.NumEdges() && P.g.from[f] == At(P, x.state) ==> lo <= f
    ensures ClosedUpTo(P, Settled(r, x), if r.done[x.state] then IDLE else x.state, lo)
  {
    var r' := Settled(r, x);
    var cur := if r.done[x.state] then IDLE else x.state;
    forall s: int, e: nat | IsSource(r', s) && e < P.g.NumEdges() && P.g.from[e] == At(P, s) && (s == cur ==> e < lo)
      ensures Closed(P, r', s, e)
    {
      assert Closed(P, r, s, e);
    }
  }

  lemma SettledKeepsLabels(P: Problem, r: Run, x: Item)
    requires P.Ok() && Shaped(P, r) && LabelsOk(P, r) && PredecessorsOk(P, r) && DoneOk(P, r)
    requires Reached(r, x.state) && P.g.to[P.edgeOf(x.state)] != P.goal
    ensures LabelsOk(P, Settled(r, x)) && PredecessorsOk(P, Settled(r, x)) && DoneOk(P, Settled(r, x))
  {
  }

  lemma SettledKeepsPredecessors(P: Problem, r: Run, x: Item)
    requires P.Ok() && Shaped(P, r) && PredecessorsOk(P, r) && Reached(r, x.state)
    ensures Shaped(P, Settled(r, x)) && PredecessorsOk(P, Settled(r, x))
  {
  }

  lemma SettledKeepsQueue(P: Problem, r: Run, x: Item)
    requires Shaped(P, r) && QueueOk(P, r) && x in r.queue
    ensures QueueOk(P, Settled(r, x))
  {
  }

  lemma SettledKeepsOrder(P: Problem, r: Run, x: Item)
    requires Shaped(P, r) && QueueOk(P, r) && SettledFirst(P, r, IDLE) && IsLeast(r, x)
    ensures SettledFirst(P, Settled(r, x), if r.done[x.state] then IDLE else x.state)
  {
    if !r.done[x.state] {
      LeastIsExact(P, r, x);
    }
  }

  /** Dropping an entry whose state is already settled loses nothing. */
  lemma DiscardInv(P: Problem, r: Run, x: Item)
    requires Inv(P, r, IDLE, 0) && IsLeast(r, x) && r.done[x.state]
    ensures Inv(P, Settled(r, x), IDLE, 0)
  {
    assert Settled(r, x).done == r.done;
    VouchedStays(P, r, Settled(r, x));
    SettledKeepsLabels(P, r, x);
    SettledKeepsQueue(P, r, x);
    SettledKeepsClosed(P, r, x, 0);
    if P.Consistent() {
      SettledKeepsOrder(P, r, x);
    }
  }

  /** The cheapest entry of an open state carries exactly that state's priority. */
  lemma LeastIsExact(P: Problem, r: Run, x: Item)
    requires Shaped(P, r) && QueueOk(P, r) && IsLeast(r, x) && !r.done[x.state]
    ensures x.priority == P.Priority(r.walk[x.state])
  {
    assert Item(x.state, P.Priority(r.walk[x.state])) in r.queue;
  }

  // -------------------------------------------------- contenders and dominators

  lemma ContenderMoves(P: Problem, p: seq<nat>, eps: real)
    requires P.Ok() && Contender(P, p, eps)
    ensures IsWalk(P.g, P.start, p) && Permitted(P.opt, p)
  {
  }

  lemma ContenderPrefix(P: Problem, p: seq<nat>, eps: real)
    requires P.Ok() && Contender(P, p, eps) && |p| > 1
    ensures Contender(P, Init(p), eps) && P.g.from[Last(p)] == P.g.to[Last(Init(p))]
  {
    WalkInit(P.g, P.start, p);
    if Competitor(P, p) {
      CompetitorPrefix(P, p);
    } else {
      UnrivalledInit(P.g, P.start, P.opt, p, eps);
    }
  }

  lemma CompetitorPrefix(P: Problem, p: seq<nat>)
    requires P.Ok() && Competitor(P, p) && |p| > 1
    ensures Competitor(P, Init(p))
    ensures P.Units(Init(p)) + P.units(Last(p)) == P.Units(p)
    ensures P.g.from[Last(p)] == P.g.to[Last(Init(p))]
  {
    WalkInit(P.g, P.start, p);
  }

  /** A label with room for an edge's buckets can take the edge, and stays within those buckets. */
  lemma AdvanceFits(P: Problem, spent: real, b: nat, f: nat)
    requires P.BucketsAdvance() && f < P.g.NumEdges() && P.opt.Allows(f)
    requires 0.0 <= spent <= Allowance(P.opt.budgetM) && P.bucketOf(spent) <= b && b + P.units(f) <= P.buckets - 1
    ensures P.CanTake(spent, f)
    ensures P.bucketOf(spent + if P.opt.IsOver(f) then EdgeLength(P.g, f) else 0.0) <= b + P.units(f)
  {
    if P.opt.IsOver(f) {
      assert P.Advances(spent, b, f);
    }
  }

  /** What the competitor's next edge does to a dominating label's budget. */
  lemma StepIsAffordable(P: Problem, q: seq<nat>, b: nat, f: nat)
    requires P.BucketsAdvance() && f < P.g.NumEdges() && P.opt.Allows(f)
    requires 0.0 <= P.Spent(q) <= Allowance(P.opt.budgetM) && P.bucketOf(P.Spent(q)) <= b && b + P.units(f) <= P.buckets - 1
    ensures P.CanTake(P.Spent(q), f)
    ensures P.bucketOf(P.Spent(q + [f])) <= b + P.units(f)
  {
    Snoc(q, f);
    AdvanceFits(P, P.Spent(q), b, f);
  }

  lemma StepCostsCompare(P: Problem, q: seq<nat>, p: seq<nat>, eps: real)
    requires p != [] && 0.0 <= eps
    requires if |p| == 1 then q == []
             else q != [] && Last(q) == Last(Init(p)) && WalkCost(P.opt, q) <= WalkCost(P.opt, Init(p)) + Widths(|p| - 1, eps)
    ensures WalkCost(P.opt, q + [Last(p)]) <= WalkCost(P.opt, p) + Widths(|p|, eps)
  {
    Snoc(q, Last(p));
    WidthsGrow(0, |p|, eps);
    WidthsGrow(|p| - 1, |p|, eps);
    if |p| == 1 {
      assert q + [Last(p)] == p;
    }
  }

  /** A label that dominates a contender up to its last edge can afford that edge. */
  lemma DominatorAffords(P: Problem, r: Run, src: int, p: seq<nat>, eps: real)
    requires Inv(P, r, IDLE, 0) && P.BucketsAdvance()
    requires Contender(P, p, eps) && IsSource(r, src)
    requires if |p| == 1 then src == NO_SOURCE else src != NO_SOURCE && Dominates(P, r, src, Init(p), eps)
    ensures P.CanTake(P.Spent(WalkTo(r, src)), Last(p))
    ensures Competitor(P, p) ==> P.bucketOf(P.Spent(WalkTo(r, src) + [Last(p)])) <= P.Units(p)
  {
    var q := WalkTo(r, src);
    OverLengthNonNegative(P.g, P.opt, q);
    LastIsAllowed(P, p);
    if Competitor(P, p) {
      if |p| > 1 {
        CompetitorPrefix(P, p);
      }
      StepIsAffordable(P, q, P.Units(Init(p)), Last(p));
    } else {
      if |p| > 1 {
        DominatorSpendsNoMore(P, r, src, p, eps);
      }
      NextIsAffordable(P.g, P.start, P.opt, P.Spent(q), p, eps);
    }
  }

  /** What is as cheap as an unrivalled walk has spent no more. */
  lemma DominatorSpendsNoMore(P: Problem, r: Run, t: nat, p: seq<nat>, eps: real)
    requires P.Ok() && Shaped(P, r) && P.NearlyConsistent(eps) && Unrivalled(P.g, P.start, P.opt, p, eps) && |p| > 1
    requires Dominates(P, r, t, Init(p), eps)
    ensures P.Spent(r.walk[t]) <= P.Spent(Init(p))
  {
    UnrivalledInit(P.g, P.start, P.opt, p, eps);
    UnrivalledIsFrugal(P.g, P.start, P.opt, Init(p), eps);
    assert LabelOk(P, t, r.walk[t]) && Near(P, r, t, Init(p), eps);
  }

  /** A settled label that is not near a contender for its edge leaves the contender to another one. */
  lemma DominatorOf(P: Problem, r: Run, st: nat, p: seq<nat>, eps: real) returns (t: nat)
    requires P.Ok() && Shaped(P, r) && AllVouched(P, r) && P.BucketsAdvance() && P.NearlyConsistent(eps)
    requires st < P.numStates && r.done[st] && Contender(P, p, eps) && Last(p) == P.edgeOf(st) && !Near(P, r, st, p, eps)
    ensures Dominates(P, r, t, p, eps)
  {
    assert Vouched(P, r, eps);
    t :| t < P.numStates && r.done[t] && Dominates(P, r, t, p, eps);
  }

  /** Where an affordable edge out of a settled state leads, there is a label in the same bucket. */
  lemma LabelOfExtension(P: Problem, r: Run, src: int, f: nat) returns (t: nat)
    requires Inv(P, r, IDLE, 0) && IsSource(r, src) && f < P.g.NumEdges() && P.g.from[f] == At(P, src)
    requires P.CanTake(P.Spent(WalkTo(r, src)), f)
    ensures Reached(r, t) && LabelOk(P, t, r.walk[t]) && P.edgeOf(t) == f && Closed(P, r, src, f)
    ensures t == P.StateOfWalk(WalkTo(r, src) + [f])
    ensures P.bucketOf(P.Spent(r.walk[t])) == P.bucketOf(P.Spent(WalkTo(r, src) + [f]))
  {
    var q := WalkTo(r, src);
    assert Closed(P, r, src, f);
    t := P.StateOfWalk(q + [f]);
    ExtensionLabel(P, r, src, f);
    assert LabelOk(P, t, r.walk[t]);
    SameState(P, q + [f], r.walk[t]);
  }

  /** Relaxing the contender's next edge from a dominating settled label leaves something that dominates the longer contender. */
  lemma DominationStep(P: Problem, r: Run, src: int, p: seq<nat>, eps: real) returns (t: nat)
    requires Inv(P, r, IDLE, 0) && P.BucketsAdvance()
    requires Contender(P, p, eps) && IsSource(r, src)
    requires if |p| == 1 then src == NO_SOURCE else src != NO_SOURCE && Dominates(P, r, src, Init(p), eps)
    ensures Dominates(P, r, t, p, eps)
  {
    var q := WalkTo(r, src);
    var f := Last(p);
    ContenderMoves(P, p, eps);
    if |p| > 1 {
      ContenderPrefix(P, p, eps);
    }
    DominatorAffords(P, r, src, p, eps);
    t := LabelOfExtension(P, r, src, f);
    if P.NearlyConsistent(eps) {
      StepCostsCompare(P, q, p, eps);
      if !Near(P, r, t, p, eps) {
        t := DominatorOf(P, r, t, p, eps);
      }
    }
  }

  /** Walks arriving in one state end on one edge and lie in one bucket. */
  lemma SameState(P: Problem, p: seq<nat>, q: seq<nat>)
    requires P.Ok() && IsWalk(P.g, P.start, p) && IsWalk(P.g, P.start, q)
    requires P.StateOfWalk(p) == P.StateOfWalk(q)
    ensures Last(p) == Last(q) && P.bucketOf(P.Spent(p)) == P.bucketOf(P.Spent(q))
  {
    OverLengthNonNegative(P.g, P.opt, p);
    OverLengthNonNegative(P.g, P.opt, q);
  }

  /**
   Follow a contender edge by edge: either its end is dominated by a settled
   label, or some prefix of it is dominated by a label still in the queue.
   */
  lemma {:induction false} Frontier(P: Problem, r: Run, p: seq<nat>, eps: real) returns (t: nat, q: seq<nat>)
    requires Inv(P, r, IDLE, 0) && P.BucketsAdvance() && Contender(P, p, eps)
    ensures q <= p && Dominates(P, r, t, q, eps)
    ensures r.done[t] ==> q == p
    decreases |p|
  {
    ContenderMoves(P, p, eps);
    if |p| == 1 {
      t := DominationStep(P, r, NO_SOURCE, p, eps);
      q := p;
    } else {
      ContenderPrefix(P, p, eps);
      t, q := Frontier(P, r, Init(p), eps);
      if r.done[t] {
        t := DominationStep(P, r, t, p, eps);
        q := p;
      }
    }
  }

  /** Along a walk priorities fall by at most `eps` a step. */
  lemma {:induction false} PrefixIsOptimistic(P: Problem, p: seq<nat>, q: seq<nat>, eps: real)
    requires P.Ok() && P.NearlyConsistent(eps) && IsWalk(P.g, P.start, p) && Permitted(P.opt, p)
    requires q != [] && q <= p
    ensures P.Priority(q) <= P.Priority(p) + Widths(|p| - |q|, eps)
    decreases |p|
  {
    if q != p {
      WalkInit(P.g, P.start, p);
      assert p == Init(p) + [Last(p)];
      PrefixIsOptimistic(P, Init(p), q, eps);
      LastIsAllowed(P, p);
      LastIsAllowed(P, Init(p));
      StepRaisesPriority(P, Init(p), Last(p), eps);
    }
  }

  /** An open label that dominates part of a contender promises no more than the contender, but for `eps` a step. */
  lemma OpenPromise(P: Problem, r: Run, p: seq<nat>, t: nat, q: seq<nat>, eps: real)
    requires P.Ok() && Shaped(P, r) && P.NearlyConsistent(eps) && Contender(P, p, eps)
    requires q <= p && Dominates(P, r, t, q, eps)
    ensures P.Priority(r.walk[t]) <= P.Priority(p) + Widths(|p|, eps)
  {
    ContenderMoves(P, p, eps);
    PrefixIsOptimistic(P, p, q, eps);
    WidthsSum(|q|, |p| - |q|, eps);
    assert Last(q) == Last(r.walk[t]);
  }

  /** The least open label, about to be settled, is near every contender for its edge that no settled label dominates. */
  lemma LeastIsVouched(P: Problem, r: Run, x: Item, p: seq<nat>, eps: real)
    requires Inv(P, r, IDLE, 0) && P.BucketsAdvance() && P.NearlyConsistent(eps)
    requires IsLeast(r, x) && !r.done[x.state] && Contender(P, p, eps) && Last(p) == P.edgeOf(x.state)
    ensures Near(P, r, x.state, p, eps) || SettledDominator(P, r, p, eps)
  {
    var t, q := Frontier(P, r, p, eps);
    if !r.done[t] {
      OpenPromise(P, r, p, t, q, eps);
      OpenLabelIsQueued(P, r, t);
      LeastIsExact(P, r, x);
      assert LabelOk(P, x.state, r.walk[x.state]);
    }
  }

  lemma SettledKeepsVouched(P: Problem, r: Run, x: Item)
    requires Inv(P, r, IDLE, 0) && IsLeast(r, x) && !r.done[x.state]
    ensures Shaped(P, Settled(r, x)) && AllVouched(P, Settled(r, x))
  {
    var r' := Settled(r, x);
    assert SameSettled(P, r, r');
    forall eps | P.BucketsAdvance() && P.NearlyConsistent(eps) ensures Vouched(P, r', eps) {
      forall st, p | 0 <= st < P.numStates && r'.done[st] && Contender(P, p, eps) && Last(p) == P.edgeOf(st)
        ensures Near(P, r', st, p, eps) || SettledDominator(P, r', p, eps)
      {
        SettledStaysVouched(P, r, x, st, p, eps);
      }
    }
  }

  lemma SettledStaysVouched(P: Problem, r: Run, x: Item, st: nat, p: seq<nat>, eps: real)
    requires Inv(P, r, IDLE, 0) && IsLeast(r, x) && !r.done[x.state] && P.BucketsAdvance() && P.NearlyConsistent(eps)
    requires st < P.numStates && (st == x.state || r.done[st]) && Contender(P, p, eps) && Last(p) == P.edgeOf(st)
    ensures Near(P, Settled(r, x), st, p, eps) || SettledDominator(P, Settled(r, x), p, eps)
  {
    if st == x.state {
      LeastIsVouched(P, r, x, p, eps);
    } else {
      assert Vouched(P, r, eps);
    }
    if SettledDominator(P, r, p, eps) {
      DominatorStays(P, r, Settled(r, x), p, eps);
    }
  }

  /** Settling the cheapest open state starts its expansion. */
  lemma SettleInv(P: Problem, r: Run, x: Item, lo: nat)
    requires Inv(P, r, IDLE, 0) && IsLeast(r, x) && !r.done[x.state]
    requires P.g.to[P.edgeOf(x.state)] != P.goal
    requires forall f :: 0 <= f < P.g.NumEdges() && P.g.from[f] == At(P, x.state) ==> lo <= f
    ensures Inv(P, Settled(r, x), x.state, lo) && IsSource(Settled(r, x), x.state)
  {
    SettledKeepsLabels(P, r, x);
    SettledKeepsQueue(P, r, x);
    SettledKeepsClosed(P, r, x, lo);
    SettledKeepsVouched(P, r, x);
    if P.Consistent() {
      SettledKeepsOrder(P, r, x);
    }
  }

  // ---------------------------------------------------------- final answers

  /** An exhausted search proves that no contender reaches the goal, whatever edges and turns cost. */
  lemma ExhaustedMeansUnroutable(P: Problem, r: Run, p: seq<nat>, eps: real)
    requires Inv(P, r, IDLE, 0) && P.BucketsAdvance() && r.queue == multiset{}
    requires Contender(P, p, eps)
    ensures P.g.to[Last(p)] != P.goal
  {
    if P.g.to[Last(p)] == P.goal {
      var t, q := Frontier(P, r, p, eps);
      GoalIsOpen(P, r, p, t, q, eps);
      OpenLabelIsQueued(P, r, t);
    }
  }

  /** The first goal state popped is no dearer than any contender that reaches the goal, but for `eps` a step. */
  lemma PoppedGoalIsCheapest(P: Problem, r: Run, x: Item, p: seq<nat>, eps: real)
    requires Inv(P, r, IDLE, 0) && P.BucketsAdvance() && P.NearlyConsistent(eps)
    requires IsLeast(r, x) && !r.done[x.state] && P.g.to[P.edgeOf(x.state)] == P.goal
    requires Contender(P, p, eps) && P.g.to[Last(p)] == P.goal
    ensures WalkCost(P.opt, r.walk[x.state]) <= WalkCost(P.opt, p) + Widths(|p|, eps)
  {
    var t, q := Frontier(P, r, p, eps);
    GoalIsOpen(P, r, p, t, q, eps);
    LeastIsExact(P, r, x);
    OpenLabelIsQueued(P, r, t);
    OpenPromise(P, r, p, t, q, eps);
    GoalEstimateIsZero(P, r, x.state, eps);
    assert P.h(Last(p)) == 0.0;
  }

  lemma GoalEstimateIsZero(P: Problem, r: Run, st: nat, eps: real)
    requires P.Ok() && Shaped(P, r) && LabelsOk(P, r) && Reached(r, st)
    requires P.NearlyConsistent(eps) && P.g.to[P.edgeOf(st)] == P.goal
    ensures P.Priority(r.walk[st]) == WalkCost(P.opt, r.walk[st])
  {
    assert LabelOk(P, st, r.walk[st]);
    assert P.h(P.edgeOf(st)) == 0.0;
  }

  lemma OpenLabelIsQueued(P: Problem, r: Run, st: nat)
    requires Shaped(P, r) && QueueOk(P, r) && Reached(r, st) && !r.done[st]
    ensures Item(st, P.Priority(r.walk[st])) in r.queue
  {
  }

  /** While no goal state is settled, a competitor that reaches the goal has an open dominator. */
  lemma GoalIsOpen(P: Problem, r: Run, p: seq<nat>, t: nat, q: seq<nat>, eps: real)
    requires P.Ok() && Shaped(P, r) && DoneOk(P, r) && p != [] && Last(p) < P.g.NumEdges() && P.g.to[Last(p)] == P.goal
    requires Dominates(P, r, t, q, eps) && (r.done[t] ==> q == p)
    ensures !r.done[t]
  {
  }
}
