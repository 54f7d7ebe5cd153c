/**
 Guidance changes the order of a search, not its answer: with a stress budget,
 for any lengths and buckets, guided and unguided searches agree
 (internal/routing/search.go:100-127, internal/routing/astar_test.go:131-181).

 Two runs that differ only in the estimate are compared state by state. Each
 state keeps one label, so what matters is that the two runs keep labels of the
 same cost and the same spend; then the same edges stay affordable in both.
 */
module Guidance {
  import opened RoadGraph
  import opened Walks
  import opened SearchInvariant
  import opened Search
  import StateSpace
  import SearchResults
  import Sets

  /** Requests that differ only in the estimate. */
  ghost predicate Twins(P: Problem, Q: Problem) {
    && P.Ok() && Q.Ok()
    && P.g == Q.g && P.start == Q.start && P.goal == Q.goal && P.numStates == Q.numStates && P.opt.budgetM == Q.opt.budgetM
    && (forall st {:trigger P.edgeOf(st)} {:trigger Q.edgeOf(st)} :: P.edgeOf(st) == Q.edgeOf(st))
    && (forall e {:trigger P.opt.Allows(e)} {:trigger Q.opt.Allows(e)} :: P.opt.Allows(e) == Q.opt.Allows(e))
    && (forall p {:trigger WalkCost(P.opt, p)} {:trigger WalkCost(Q.opt, p)} :: WalkCost(P.opt, p) == WalkCost(Q.opt, p))
    && (forall p {:trigger P.Spent(p)} {:trigger Q.Spent(p)} :: P.Spent(p) == Q.Spent(p))
    && (forall p {:trigger P.StateOfWalk(p)} {:trigger Q.StateOfWalk(p)} :: p != [] ==> P.StateOfWalk(p) == Q.StateOfWalk(p))
    && (forall spent, f {:trigger P.CanTake(spent, f)} {:trigger Q.CanTake(spent, f)} :: P.CanTake(spent, f) == Q.CanTake(spent, f))
  }

  /** Every step after the first costs something. */
  ghost predicate StepsPositive(g: Graph, opt: Options)
    requires g.WellFormed()
  {
    forall e, f {:trigger opt.Turn(e, f)} :: 0 <= e < g.NumEdges() && 0 <= f < g.NumEdges() && g.to[e] == g.from[f] && opt.Allows(e) && opt.Allows(f) ==>
      0.0 < opt.Turn(e, f) + opt.edgeCost(f)
  }

  /** The runs settled one state at one cost but with different spends: a tie that heap order broke differently. */
  ghost predicate TieBroken(P: Problem, r: Run, s: Run) {
    exists st: nat {:trigger Both(r, s, st)} ::
      Both(r, s, st) && CostAt(P, r, st) == CostAt(P, s, st) && P.Spent(r.walk[st]) != P.Spent(s.walk[st])
  }

  /** Walks into one state that cost the same have spent the same. */
  ghost predicate TiesSpendAlike(P: Problem)
    requires P.Ok()
  {
    forall p, q {:trigger Admissible(P, p), Admissible(P, q)} ::
      Admissible(P, p) && Admissible(P, q) && P.StateOfWalk(p) == P.StateOfWalk(q) && WalkCost(P.opt, p) == WalkCost(P.opt, q) ==> P.Spent(p) == P.Spent(q)
  }

  /** Two finished or interrupted runs of twin requests. */
  ghost predicate Paired(P: Problem, Q: Problem, r: Run, s: Run) {
    && Twins(P, Q) && Inv(P, r, IDLE, 0) && Inv(Q, s, IDLE, 0)
    && 0.0 <= P.opt.budgetM && 0.0 <= Q.opt.budgetM
    && P.Consistent() && Q.Consistent() && StepsPositive(P.g, P.opt) && StepsPositive(Q.g, Q.opt)
  }

  lemma PairedSymmetric(P: Problem, Q: Problem, r: Run, s: Run)
    requires Paired(P, Q, r, s)
    ensures Paired(Q, P, s, r)
  {
  }

  ghost function CostAt(P: Problem, r: Run, st: nat): real
    requires st < |r.walk|
  {
    WalkCost(P.opt, r.walk[st])
  }

  /** Settled in both runs. */
  ghost predicate Both(r: Run, s: Run, st: nat) {
    IsSource(r, st) && IsSource(s, st)
  }

  ghost predicate Agree(P: Problem, r: Run, s: Run, st: nat)
    requires Both(r, s, st)
  {
    CostAt(P, r, st) == CostAt(P, s, st) && P.Spent(r.walk[st]) == P.Spent(s.walk[st])
  }

  /** The lesser of the two costs at which a state was settled. */
  ghost function Level(P: Problem, r: Run, s: Run, st: nat): real
    requires Both(r, s, st)
  {
    if CostAt(P, r, st) <= CostAt(P, s, st) then CostAt(P, r, st) else CostAt(P, s, st)
  }

  ghost predicate AgreeBelow(P: Problem, r: Run, s: Run, v: real) {
    forall st: nat {:trigger Both(r, s, st)} :: Both(r, s, st) && Level(P, r, s, st) < v ==> Agree(P, r, s, st)
  }

  /** Label `st` is source `src`'s walk and one affordable step more. */
  ghost predicate Extends(P: Problem, r: Run, st: nat, src: int)
    requires P.Ok() && Shaped(P, r)
  {
    var f := P.edgeOf(st);
    && Reached(r, st) && IsSource(r, src) && f < P.g.NumEdges() && r.walk[st] == WalkTo(r, src) + [f]
    && P.g.from[f] == At(P, src) && P.CanTake(P.Spent(WalkTo(r, src)), f)
    && st == P.StateOfWalk(r.walk[st])
  }

  /** The last step of a label: from the start, or from a settled label. */
  lemma LastStep(P: Problem, r: Run, st: nat) returns (src: int)
    requires Inv(P, r, IDLE, 0) && 0.0 <= P.opt.budgetM && Reached(r, st)
    ensures Extends(P, r, st, src)
    ensures src != NO_SOURCE ==> P.opt.Allows(P.edgeOf(src)) && P.edgeOf(src) < P.g.NumEdges() && Last(r.walk[src]) == P.edgeOf(src)
  {
    src := r.prev[st];
    var p, q, f := r.walk[st], WalkTo(r, src), P.edgeOf(st);
    assert LabelOk(P, st, p);
    assert p == q + [f];
    Snoc(q, f);
    LastIsAllowed(P, p);
    if src != NO_SOURCE {
      assert LabelOk(P, src, q);
      LastIsAllowed(P, q);
      WalkInit(P.g, P.start, p);
    }
  }

  /** A step costs something, and lowers the priority under neither estimate. */
  lemma StepRises(P: Problem, Q: Problem, r: Run, st: nat, src: nat)
    requires Twins(P, Q) && Shaped(P, r) && Q.Consistent() && StepsPositive(P.g, P.opt)
    requires Extends(P, r, st, src)
    requires P.opt.Allows(P.edgeOf(src)) && P.edgeOf(src) < P.g.NumEdges() && Last(r.walk[src]) == P.edgeOf(src)
    ensures CostAt(P, r, src) < CostAt(P, r, st)
    ensures Q.Priority(r.walk[src]) <= Q.Priority(r.walk[st])
  {
    var q, f := r.walk[src], P.edgeOf(st);
    Snoc(q, f);
    assert 0.0 < P.opt.Turn(Last(q), f) + P.opt.edgeCost(f);
    assert Q.opt.Allows(Last(q)) && Q.opt.Allows(f);
    StepRaisesPriority(Q, q, f, 0.0);
  }

  /** An affordable step out of a settled label has been relaxed. */
  lemma StepRelaxed(P: Problem, r: Run, src: int, f: nat) returns (t: nat)
    requires Inv(P, r, IDLE, 0) && P.Consistent() && IsSource(r, src)
    requires f < P.g.NumEdges() && P.g.from[f] == At(P, src) && P.CanTake(P.Spent(WalkTo(r, src)), f)
    ensures t == P.StateOfWalk(WalkTo(r, src) + [f]) && Reached(r, t)
    ensures CostAt(P, r, t) <= WalkCost(P.opt, WalkTo(r, src) + [f])
  {
    assert Closed(P, r, src, f);
    t := P.StateOfWalk(WalkTo(r, src) + [f]);
  }

  /** Two labels of one state end on one edge. */
  lemma SameEnd(P: Problem, Q: Problem, r: Run, s: Run, st: nat)
    requires Paired(P, Q, r, s) && Reached(r, st) && Reached(s, st)
    ensures Last(r.walk[st]) == Last(s.walk[st]) && Last(r.walk[st]) == P.edgeOf(st)
  {
    assert LabelOk(P, st, r.walk[st]) && LabelOk(Q, st, s.walk[st]);
  }

  /** A label no dearer than another of the same state has no greater priority. */
  lemma SamePriority(P: Problem, Q: Problem, r: Run, s: Run, st: nat)
    requires Paired(P, Q, r, s) && Reached(r, st) && Reached(s, st) && CostAt(P, s, st) <= CostAt(P, r, st)
    ensures Q.Priority(s.walk[st]) <= Q.Priority(r.walk[st])
  {
    SameEnd(P, Q, r, s, st);
    assert WalkCost(P.opt, s.walk[st]) == WalkCost(Q.opt, s.walk[st]);
    assert WalkCost(P.opt, r.walk[st]) == WalkCost(Q.opt, r.walk[st]);
  }

  /** Sources that agree are extended to the same state, at the same cost. */
  lemma SameStep(P: Problem, Q: Problem, r: Run, s: Run, src: int, f: nat)
    requires Twins(P, Q) && Shaped(P, r) && Shaped(Q, s) && IsSource(r, src) && IsSource(s, src)
    requires src != NO_SOURCE ==> Agree(P, r, s, src) && Last(r.walk[src]) == Last(s.walk[src])
    ensures P.Spent(WalkTo(r, src)) == Q.Spent(WalkTo(s, src))
    ensures P.StateOfWalk(WalkTo(r, src) + [f]) == Q.StateOfWalk(WalkTo(s, src) + [f])
    ensures WalkCost(P.opt, WalkTo(r, src) + [f]) == WalkCost(P.opt, WalkTo(s, src) + [f])
  {
    Snoc(WalkTo(r, src), f);
    Snoc(WalkTo(s, src), f);
    assert Q.StateOfWalk(WalkTo(s, src) + [f]) == P.StateOfWalk(WalkTo(s, src) + [f]);
    assert P.Spent(WalkTo(s, src)) == Q.Spent(WalkTo(s, src));
  }

  /** A label that extends a source both runs have settled alike is matched in the other run. */
  lemma Crosses(P: Problem, Q: Problem, r: Run, s: Run, st: nat, src: int)
    requires Twins(P, Q) && Shaped(P, r) && Inv(Q, s, IDLE, 0) && Q.Consistent()
    requires Extends(P, r, st, src) && IsSource(s, src)
    requires src != NO_SOURCE ==> Agree(P, r, s, src) && Last(r.walk[src]) == Last(s.walk[src])
    ensures Reached(s, st) && CostAt(P, s, st) <= CostAt(P, r, st)
  {
    var f := P.edgeOf(st);
    SameStep(P, Q, r, s, src, f);
    SameFooting(P, Q, src, f, Q.Spent(WalkTo(s, src)));
    var t := StepRelaxed(Q, s, src, f);
    SameNumbers(P, Q, s.walk[st]);
    SameNumbers(P, Q, WalkTo(s, src) + [f]);
  }

  lemma SameNumbers(P: Problem, Q: Problem, p: seq<nat>)
    requires Twins(P, Q)
    ensures WalkCost(P.opt, p) == WalkCost(Q.opt, p)
  {
  }

  lemma SameFooting(P: Problem, Q: Problem, src: int, f: nat, spent: real)
    requires Twins(P, Q) && (src == NO_SOURCE || 0 <= src < P.numStates)
    ensures At(P, src) == At(Q, src) && P.CanTake(spent, f) == Q.CanTake(spent, f)
  {
  }

  /** In run `s`, `t` is label `st` of run `r` at no greater cost, or something open that is no dearer. */
  ghost predicate Matches(P: Problem, Q: Problem, r: Run, s: Run, st: nat, t: nat)
    requires Reached(r, st) && Shaped(Q, s)
  {
    && Reached(s, t)
    && ((t == st && CostAt(P, s, t) <= CostAt(P, r, st)) || (!s.done[t] && Q.Priority(s.walk[t]) <= Q.Priority(r.walk[st])))
  }

  /** A match for a source gives one for the labels that extend it. */
  lemma MatchExtends(P: Problem, Q: Problem, r: Run, s: Run, st: nat, src: nat, t: nat) returns (u: nat)
    requires Paired(P, Q, r, s) && Extends(P, r, st, src) && Matches(P, Q, r, s, src, t)
    requires Both(r, s, src) ==> Agree(P, r, s, src)
    requires Q.Priority(r.walk[src]) <= Q.Priority(r.walk[st])
    ensures Matches(P, Q, r, s, st, u)
  {
    u := t;
    if s.done[t] {
      SameEnd(P, Q, r, s, src);
      Crosses(P, Q, r, s, st, src);
      u := st;
    } else if t == src && CostAt(P, s, t) <= CostAt(P, r, src) {
      SamePriority(P, Q, r, s, src);
    }
  }

  lemma AgreeShrinks(P: Problem, r: Run, s: Run, st: nat, v: real)
    requires AgreeBelow(P, r, s, v) && Reached(r, st) && CostAt(P, r, st) < v
    ensures AgreeBelow(P, r, s, CostAt(P, r, st))
    ensures Both(r, s, st) ==> Agree(P, r, s, st)
  {
    assert Both(r, s, st) ==> Level(P, r, s, st) <= CostAt(P, r, st);
  }

  /**
   What one run has labelled the other has labelled as cheaply, unless something
   no dearer is still open there.
   */
  lemma {:induction false} Reaches(P: Problem, Q: Problem, r: Run, s: Run, st: nat) returns (t: nat)
    requires Paired(P, Q, r, s) && Reached(r, st) && AgreeBelow(P, r, s, CostAt(P, r, st))
    ensures Matches(P, Q, r, s, st, t)
    decreases |r.walk[st]|
  {
    var src := LastStep(P, r, st);
    if src == NO_SOURCE {
      Crosses(P, Q, r, s, st, src);
      t := st;
    } else {
      StepRises(P, Q, r, st, src);
      AgreeShrinks(P, r, s, src, CostAt(P, r, st));
      t := Reaches(P, Q, r, s, src);
      t := MatchExtends(P, Q, r, s, st, src, t);
    }
  }

  /** A state settled in both runs costs the second no more than the first. */
  lemma NoDearer(P: Problem, Q: Problem, r: Run, s: Run, st: nat)
    requires Paired(P, Q, r, s) && Both(r, s, st) && AgreeBelow(P, r, s, CostAt(P, r, st))
    ensures CostAt(P, s, st) <= CostAt(P, r, st)
  {
    var t := Reaches(P, Q, r, s, st);
    if t != st || CostAt(P, s, t) > CostAt(P, r, st) {
      OpenLabelIsQueued(Q, s, t);
      assert Q.Priority(s.walk[st]) <= Q.Priority(s.walk[t]);
      SameEnd(P, Q, r, s, st);
      assert WalkCost(P.opt, s.walk[st]) == WalkCost(Q.opt, s.walk[st]);
      assert WalkCost(P.opt, r.walk[st]) == WalkCost(Q.opt, r.walk[st]);
    }
  }

  /** The states settled in both runs, one of them below `v`. */
  ghost function Cheaper(P: Problem, r: Run, s: Run, v: real): set<nat> {
    set st | st in Sets.Below(|r.walk|) && Both(r, s, st) && Level(P, r, s, st) < v
  }

  lemma CheaperShrinks(P: Problem, r: Run, s: Run, u: nat, v: real)
    requires Both(r, s, u) && Level(P, r, s, u) < v
    ensures |Cheaper(P, r, s, Level(P, r, s, u))| < |Cheaper(P, r, s, v)|
  {
    var fewer := Cheaper(P, r, s, Level(P, r, s, u));
    assert u in Cheaper(P, r, s, v) && u !in fewer;
    Sets.SubsetSize(fewer + {u}, Cheaper(P, r, s, v));
  }

  /** States settled in both runs were settled at the same cost and with the same spend. */
  lemma {:induction false} Agrees(P: Problem, Q: Problem, r: Run, s: Run, st: nat)
    requires Paired(P, Q, r, s) && !TieBroken(P, r, s) && Both(r, s, st)
    ensures Agree(P, r, s, st)
    decreases |Cheaper(P, r, s, Level(P, r, s, st))|
  {
    var v := Level(P, r, s, st);
    forall u: nat | Both(r, s, u) && Level(P, r, s, u) < v ensures Agree(P, r, s, u) {
      CheaperShrinks(P, r, s, u, v);
      Agrees(P, Q, r, s, u);
    }
    SameCost(P, Q, r, s, st);
  }

  lemma SameCost(P: Problem, Q: Problem, r: Run, s: Run, st: nat)
    requires Paired(P, Q, r, s) && Both(r, s, st) && AgreeBelow(P, r, s, Level(P, r, s, st))
    ensures CostAt(P, r, st) == CostAt(P, s, st)
  {
    if CostAt(P, r, st) <= CostAt(P, s, st) {
      NoDearer(P, Q, r, s, st);
    } else {
      PairedSymmetric(P, Q, r, s);
      AgreeSymmetric(P, Q, r, s, CostAt(P, s, st));
      NoDearer(Q, P, s, r, st);
    }
  }

  lemma AgreeSymmetric(P: Problem, Q: Problem, r: Run, s: Run, v: real)
    requires Twins(P, Q) && AgreeBelow(P, r, s, v)
    ensures AgreeBelow(Q, s, r, v)
  {
    forall st: nat | Both(s, r, st) && Level(Q, s, r, st) < v ensures Agree(Q, s, r, st) {
      assert Both(r, s, st) && Level(P, r, s, st) == Level(Q, s, r, st);
    }
  }

  /** Only walks that tie can break a tie. */
  lemma NoTieToBreak(P: Problem, Q: Problem, r: Run, s: Run)
    requires Paired(P, Q, r, s) && TiesSpendAlike(P)
    ensures !TieBroken(P, r, s)
  {
    forall st: nat | Both(r, s, st) && CostAt(P, r, st) == CostAt(P, s, st) ensures P.Spent(r.walk[st]) == P.Spent(s.walk[st]) {
      assert LabelOk(P, st, r.walk[st]) && LabelOk(Q, st, s.walk[st]);
      TwinsAdmit(P, Q, s.walk[st]);
      assert Admissible(P, r.walk[st]) && Admissible(P, s.walk[st]);
    }
  }

  lemma TieBrokenSymmetric(P: Problem, Q: Problem, r: Run, s: Run)
    requires Twins(P, Q) && TieBroken(Q, s, r)
    ensures TieBroken(P, r, s)
  {
    var st: nat :| Both(s, r, st) && CostAt(Q, s, st) == CostAt(Q, r, st) && Q.Spent(s.walk[st]) != Q.Spent(r.walk[st]);
    assert Both(r, s, st);
    SameNumbers(P, Q, r.walk[st]);
    SameNumbers(P, Q, s.walk[st]);
    assert P.Spent(r.walk[st]) == Q.Spent(r.walk[st]) && P.Spent(s.walk[st]) == Q.Spent(s.walk[st]);
  }

  lemma TwinsAdmit(P: Problem, Q: Problem, p: seq<nat>)
    requires Twins(P, Q) && Admissible(Q, p)
    ensures Admissible(P, p)
  {
    forall i | 0 <= i < |p| ensures P.opt.Allows(p[i]) {
    }
  }

  /** A goal label in one run means something no dearer is open in the other. */
  lemma GoalCarries(P: Problem, Q: Problem, r: Run, s: Run, st: nat) returns (t: nat)
    requires Paired(P, Q, r, s) && !TieBroken(P, r, s) && IsOpenGoal(P, r, st)
    ensures Reached(s, t) && !s.done[t] && Q.Priority(s.walk[t]) <= CostAt(P, r, st)
  {
    forall u: nat | Both(r, s, u) && Level(P, r, s, u) < CostAt(P, r, st) ensures Agree(P, r, s, u) {
      Agrees(P, Q, r, s, u);
    }
    t := Reaches(P, Q, r, s, st);
    if t == st && CostAt(P, s, t) <= CostAt(P, r, st) {
      SamePriority(P, Q, r, s, st);
    }
    assert LabelOk(P, st, r.walk[st]);
    assert Q.h(P.edgeOf(st)) == 0.0;
    assert WalkCost(P.opt, r.walk[st]) == WalkCost(Q.opt, r.walk[st]);
  }

  /** So the other search still has something queued, and stops at a goal no dearer. */
  lemma GoalNoDearer(P: Problem, Q: Problem, r: Run, s: Run, path: Path)
    requires Paired(P, Q, r, s) && !TieBroken(P, r, s) && Popped(P, r, path)
    ensures s.queue != multiset{}
    ensures forall other :: Popped(Q, s, other) ==> WalkCost(P.opt, other.edges) <= WalkCost(P.opt, path.edges)
  {
    var x :| IsLeast(r, x) && IsOpenGoal(P, r, x.state) && r.walk[x.state] == path.edges;
    var t := GoalCarries(P, Q, r, s, x.state);
    OpenLabelIsQueued(Q, s, t);
    forall other | Popped(Q, s, other) ensures WalkCost(P.opt, other.edges) <= WalkCost(P.opt, path.edges) {
      var y :| IsLeast(s, y) && IsOpenGoal(Q, s, y.state) && s.walk[y.state] == other.edges;
      LeastIsExact(Q, s, y);
      GoalEstimateIsZero(Q, s, y.state, 0.0);
      assert WalkCost(P.opt, other.edges) == WalkCost(Q.opt, other.edges);
    }
  }

  // ------------------------------------------------------------- the request

  predicate SameBucket(opt: Options, u: real, v: real) {
    var (nb, step) := StateSpace.BudgetBuckets(opt);
    0.0 <= u && 0.0 <= v && StateSpace.BucketOf(u, step, nb) == StateSpace.BucketOf(v, step, nb)
  }

  /** Affordable walks onto one edge that cost the same and lie in one bucket have spent the same. */
  ghost predicate EqualCostsSpendAlike(g: Graph, start: int, opt: Options)
    requires g.WellFormed()
  {
    forall p, q {:trigger IsWalk(g, start, p), IsWalk(g, start, q)} ::
      && IsWalk(g, start, p) && Permitted(opt, p) && OverLength(g, opt, p) <= StateSpace.Allowance(opt.budgetM)
      && IsWalk(g, start, q) && Permitted(opt, q) && OverLength(g, opt, q) <= StateSpace.Allowance(opt.budgetM)
      && Last(p) == Last(q) && WalkCost(opt, p) == WalkCost(opt, q)
      && SameBucket(opt, OverLength(g, opt, p), OverLength(g, opt, q))
      ==> OverLength(g, opt, p) == OverLength(g, opt, q)
  }

  lemma SpendAlikeInStates(P: Problem)
    requires P.Ok() && EqualCostsSpendAlike(P.g, P.start, P.opt)
    requires forall u, v :: 0.0 <= u && 0.0 <= v && P.bucketOf(u) == P.bucketOf(v) ==> SameBucket(P.opt, u, v)
    ensures TiesSpendAlike(P)
  {
    forall p, q | Admissible(P, p) && Admissible(P, q) && P.StateOfWalk(p) == P.StateOfWalk(q) && WalkCost(P.opt, p) == WalkCost(P.opt, q)
      ensures P.Spent(p) == P.Spent(q)
    {
      SameState(P, p, q);
      OverLengthNonNegative(P.g, P.opt, p);
      OverLengthNonNegative(P.g, P.opt, q);
    }
  }

  lemma RequestTies(g: Graph, start: nat, goal: nat, opt: Options)
    requires g.WellFormed() && start < g.NumNodes() && goal < g.NumNodes() && start != goal
    requires EqualCostsSpendAlike(g, start, opt)
    ensures MakeProblem(g, start, goal, opt).Ok() && TiesSpendAlike(MakeProblem(g, start, goal, opt))
  {
    MakeProblemOk(g, start, goal, opt);
    RequestBuckets(g, start, goal, opt);
    SpendAlikeInStates(MakeProblem(g, start, goal, opt));
  }

  ghost predicate SameIndexing(P: Problem, Q: Problem) {
    && P.numStates == Q.numStates
    && (forall st :: P.edgeOf(st) == Q.edgeOf(st))
    && (forall e, b :: P.stateOf(e, b) == Q.stateOf(e, b))
    && (forall u :: P.bucketOf(u) == Q.bucketOf(u))
  }

  lemma RequestIndexing(g: Graph, start: nat, goal: nat, opt: Options)
    ensures SameIndexing(MakeProblem(g, start, goal, opt), MakeProblem(g, start, goal, opt.(noHeuristic := true)))
  {
    assert StateSpace.BudgetBuckets(opt) == StateSpace.BudgetBuckets(opt.(noHeuristic := true));
  }

  lemma RequestBuckets(g: Graph, start: nat, goal: nat, opt: Options)
    ensures var P := MakeProblem(g, start, goal, opt);
            forall u, v :: 0.0 <= u && 0.0 <= v && P.bucketOf(u) == P.bucketOf(v) ==> SameBucket(opt, u, v)
  {
  }

  lemma TwinsByFields(P: Problem, Q: Problem)
    requires P.Ok() && Q.Ok() && P.g == Q.g && P.start == Q.start && P.goal == Q.goal
    requires Q.opt == P.opt.(noHeuristic := true)
    requires SameIndexing(P, Q)
    ensures Twins(P, Q)
  {
    forall p ensures WalkCost(Q.opt, p) == WalkCost(P.opt, p) {
      SearchResults.CostIgnoresHeuristic(P.opt, p);
    }
    forall p ensures Q.Spent(p) == P.Spent(p) {
      SearchResults.SpendIgnoresHeuristic(P.g, P.opt, p);
    }
  }

  lemma RequestTwins(g: Graph, start: nat, goal: nat, opt: Options)
    requires g.WellFormed() && start < g.NumNodes() && goal < g.NumNodes() && start != goal
    ensures Twins(MakeProblem(g, start, goal, opt), MakeProblem(g, start, goal, opt.(noHeuristic := true)))
  {
    var opt' := opt.(noHeuristic := true);
    MakeProblemReady(g, start, goal, opt);
    MakeProblemReady(g, start, goal, opt');
    RequestIndexing(g, start, goal, opt);
    TwinsByFields(MakeProblem(g, start, goal, opt), MakeProblem(g, start, goal, opt'));
  }

  /** Without guidance positive steps are consistency enough. */
  lemma PlainIsConsistent(g: Graph, goal: int, opt: Options)
    requires g.WellFormed() && InRange(g, goal) && StepsPositive(g, opt)
    ensures ConsistentEstimate(g, goal, opt.(noHeuristic := true)) && StepsPositive(g, opt.(noHeuristic := true))
  {
    var opt' := opt.(noHeuristic := true);
    forall e, f | 0 <= e < g.NumEdges() && 0 <= f < g.NumEdges() && g.to[e] == g.from[f] && opt'.Allows(e) && opt'.Allows(f)
      ensures 0.0 < opt'.Turn(e, f) + opt'.edgeCost(f)
    {
      assert 0.0 < opt.Turn(e, f) + opt.edgeCost(f);
    }
  }

  lemma RequestPaired(g: Graph, start: nat, goal: nat, opt: Options, r: Run, s: Run)
    requires g.WellFormed() && start < g.NumNodes() && goal < g.NumNodes() && start != goal && 0.0 <= opt.budgetM
    requires ConsistentEstimate(g, goal, opt) && StepsPositive(g, opt)
    requires Inv(MakeProblem(g, start, goal, opt), r, IDLE, 0) && Inv(MakeProblem(g, start, goal, opt.(noHeuristic := true)), s, IDLE, 0)
    ensures Paired(MakeProblem(g, start, goal, opt), MakeProblem(g, start, goal, opt.(noHeuristic := true)), r, s)
  {
    PlainIsConsistent(g, goal, opt);
    RequestTwins(g, start, goal, opt);
    MakeProblemReady(g, start, goal, opt);
    MakeProblemReady(g, start, goal, opt.(noHeuristic := true));
    ConsistencyCarries(MakeProblem(g, start, goal, opt));
    ConsistencyCarries(MakeProblem(g, start, goal, opt.(noHeuristic := true)));
  }

  /** Twin runs that stop at a goal or run dry do the same. */
  lemma TwinsStopAlike(P: Problem, Q: Problem, r: Run, s: Run, guided: Outcome, plain: Outcome)
    requires Paired(P, Q, r, s) && !TieBroken(P, r, s)
    requires if guided.Found? then Popped(P, r, guided.path) else r.queue == multiset{}
    requires if plain.Found? then Popped(Q, s, plain.path) else s.queue == multiset{}
    ensures guided.Found? <==> plain.Found?
    ensures guided.Found? ==> WalkCost(P.opt, guided.path.edges) == WalkCost(Q.opt, plain.path.edges)
  {
    if guided.Found? {
      GoalNoDearer(P, Q, r, s, guided.path);
    }
    if plain.Found? {
      PairedSymmetric(P, Q, r, s);
      if TieBroken(Q, s, r) {
        TieBrokenSymmetric(P, Q, r, s);
      }
      GoalNoDearer(Q, P, s, r, plain.path);
      SameNumbers(P, Q, plain.path.edges);
    }
    if guided.Found? {
      SameNumbers(P, Q, guided.path.edges);
    }
  }

  lemma NoWayOut(g: Graph, start: nat, goal: int, opt: Options, o: Outcome)
    requires g.WellFormed() && start != goal && SearchSpec(g, start, goal, opt, o)
    requires forall e :: 0 <= e < g.NumEdges() ==> g.from[e] != start
    ensures !o.Found?
  {
  }

  /** What guided and unguided outcomes of one request have in common. */
  predicate SameAnswer(guided: Outcome, plain: Outcome) {
    (guided.Found? <==> plain.Found?) && (guided.Found? ==> guided.path.cost == plain.path.cost)
  }

  /**
   Guided and unguided searches under a budget give one answer, for any lengths
   and any number of buckets, unless the two runs settled some state at the
   same cost but with different spends.
   */
  lemma BudgetedSearchesAgree(g: Graph, start: nat, goal: nat, opt: Options, guided: Outcome, r: Run, plain: Outcome, s: Run)
    requires g.WellFormed() && start < g.NumNodes() && goal < g.NumNodes() && start != goal && 0.0 <= opt.budgetM
    requires ConsistentEstimate(g, goal, opt) && StepsPositive(g, opt)
    requires SearchSpec(g, start, goal, opt, guided) && Explained(g, start, goal, opt, guided, r)
    requires SearchSpec(g, start, goal, opt.(noHeuristic := true), plain) && Explained(g, start, goal, opt.(noHeuristic := true), plain, s)
    requires guided != CapHit && plain != CapHit
    ensures SameAnswer(guided, plain) || TieBroken(MakeProblem(g, start, goal, opt), r, s)
  {
    var opt' := opt.(noHeuristic := true);
    if forall e :: 0 <= e < g.NumEdges() ==> g.from[e] != start {
      NoWayOut(g, start, goal, opt, guided);
      NoWayOut(g, start, goal, opt', plain);
    } else if !TieBroken(MakeProblem(g, start, goal, opt), r, s) {
      RequestPaired(g, start, goal, opt, r, s);
      TwinsStopAlike(MakeProblem(g, start, goal, opt), MakeProblem(g, start, goal, opt'), r, s, guided, plain);
    }
  }

  /** On requests where equal costs mean equal spends there is nothing to break. */
  lemma BudgetedSearchesAgreeWithoutTies(g: Graph, start: nat, goal: nat, opt: Options, guided: Outcome, r: Run, plain: Outcome, s: Run)
    requires g.WellFormed() && start < g.NumNodes() && goal < g.NumNodes() && start != goal && 0.0 <= opt.budgetM
    requires ConsistentEstimate(g, goal, opt) && StepsPositive(g, opt) && EqualCostsSpendAlike(g, start, opt)
    requires SearchSpec(g, start, goal, opt, guided) && Explained(g, start, goal, opt, guided, r)
    requires SearchSpec(g, start, goal, opt.(noHeuristic := true), plain) && Explained(g, start, goal, opt.(noHeuristic := true), plain, s)
    requires guided != CapHit && plain != CapHit
    ensures SameAnswer(guided, plain)
  {
    BudgetedSearchesAgree(g, start, goal, opt, guided, r, plain, s);
    if !forall e :: 0 <= e < g.NumEdges() ==> g.from[e] != start {
      RequestPaired(g, start, goal, opt, r, s);
      RequestTies(g, start, goal, opt);
      NoTieToBreak(MakeProblem(g, start, goal, opt), MakeProblem(g, start, goal, opt.(noHeuristic := true)), r, s);
    } else {
      NoWayOut(g, start, goal, opt, guided);
      NoWayOut(g, start, goal, opt.(noHeuristic := true), plain);
    }
  }

  /** The same request searched with and without guidance, for any start, and the runs behind the two answers. */
  method SearchBothWays(g: Graph, start: int, goal: int, opt: Options) returns (guided: Outcome, plain: Outcome, ghost r: Run, ghost s: Run)
    requires g.WellFormed() && 0.0 <= opt.budgetM && InRange(g, goal)
    requires ConsistentEstimate(g, goal, opt) && StepsPositive(g, opt)
    ensures SearchSpec(g, start, goal, opt, guided) && SearchSpec(g, start, goal, opt.(noHeuristic := true), plain)
    ensures guided != CapHit && plain != CapHit && !SameAnswer(guided, plain) ==>
              start != goal && InRange(g, start) && TieBroken(MakeProblem(g, start, goal, opt), r, s)
    ensures start != goal && InRange(g, start) ==>
              Explained(g, start, goal, opt, guided, r) && Explained(g, start, goal, opt.(noHeuristic := true), plain, s)
  {
    var released;
    guided, released, r := Search.Search(null, g, start, goal, opt);
    plain, released, s := Search.Search(null, g, start, goal, opt.(noHeuristic := true));
    if start != goal && InRange(g, start) && guided != CapHit && plain != CapHit {
      BudgetedSearchesAgree(g, start, goal, opt, guided, r, plain, s);
    }
  }
}
