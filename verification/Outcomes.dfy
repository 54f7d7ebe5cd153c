/**
 Every request has an outcome: the search loop (internal/routing/search.go:199-262)
 replayed on runs instead of arrays. What the loop computes, statements about
 all outcomes can count on.
 */
module Outcomes {
  import opened Wrappers
  import opened RoadGraph
  import opened Walks
  import opened StateQueue
  import opened SearchInvariant
  import opened Search

  lemma {:induction false} LeastItem(q: multiset<Item>) returns (x: Item)
    requires q != multiset{}
    ensures x in q && forall y {:trigger q[y]} :: y in q ==> x.priority <= y.priority
    decreases |q|
  {
    var z :| z in q;
    var rest := q - multiset{z};
    x := z;
    if rest != multiset{} {
      var y := LeastItem(rest);
      if y.priority < z.priority {
        x := y;
      }
    }
    forall y {:trigger q[y]} | y in q ensures x.priority <= y.priority {
      assert y == z || rest[y] > 0;
    }
  }

  /** A label stays or is replaced by a cheaper one. */
  ghost predicate Kept(P: Problem, r: Run, after: Run, st: int) {
    Reached(r, st) ==>
      Reached(after, st) && (after.walk[st] == r.walk[st] || WalkCost(P.opt, after.walk[st]) < WalkCost(P.opt, r.walk[st]))
  }

  ghost predicate Keeps(P: Problem, r: Run, after: Run) {
    forall st {:trigger Kept(P, r, after, st)} :: Kept(P, r, after, st)
  }

  lemma KeepsOn(P: Problem, r: Run, mid: Run, after: Run)
    requires Keeps(P, r, mid) && Keeps(P, mid, after)
    ensures Keeps(P, r, after)
  {
    forall st ensures Kept(P, r, after, st) {
      assert Kept(P, r, mid, st) && Kept(P, mid, after, st);
    }
  }

  lemma RelaxedKeeps(P: Problem, r: Run, src: int, f: nat)
    requires P.Ok() && Shaped(P, r) && IsSource(r, src)
    ensures Keeps(P, r, Relaxed(P, r, src, f))
  {
  }

  /** Relax every edge from `f` on. */
  lemma {:induction false} RelaxAll(P: Problem, r: Run, src: int, f: nat, hi: nat) returns (after: Run)
    requires Inv(P, r, src, f) && IsSource(r, src) && f <= hi <= P.g.NumEdges()
    requires forall e :: f <= e < hi ==> P.g.from[e] == At(P, src)
    ensures Inv(P, after, src, hi) && IsSource(after, src) && after.done == r.done && Keeps(P, r, after)
    decreases hi - f
  {
    after := r;
    if f < hi {
      RelaxInv(P, r, src, f);
      RelaxKeepsDone(P, r, src, f);
      RelaxedKeeps(P, r, src, f);
      after := RelaxAll(P, Relaxed(P, r, src, f), src, f + 1, hi);
      KeepsOn(P, r, Relaxed(P, r, src, f), after);
    }
  }

  /** Settle and expand the least open state that is not a goal. */
  lemma ExpandLeast(P: Problem, r: Run, x: Item) returns (after: Run)
    requires Inv(P, r, IDLE, 0) && IsLeast(r, x) && !r.done[x.state] && P.g.to[P.edgeOf(x.state)] != P.goal
    ensures Inv(P, after, IDLE, 0) && after.done == Settled(r, x).done && Keeps(P, r, after)
  {
    var (lo, hi) := P.g.OutEdges(P.g.to[P.edgeOf(x.state)]);
    SettleInv(P, r, x, lo);
    after := RelaxAll(P, Settled(r, x), x.state, lo, hi);
    FinishInv(P, after, x.state, hi);
    KeepsOn(P, r, Settled(r, x), after);
  }

  /** A goal state at the head of the queue is an answer. */
  lemma GoalReached(P: Problem, maxExp: nat, r: Run, x: Item) returns (o: Outcome)
    requires Inv(P, r, IDLE, 0) && P.BucketsAdvance() && DoneCount(r.done) < maxExp
    requires IsLeast(r, x) && !r.done[x.state] && P.g.to[P.edgeOf(x.state)] == P.goal
    ensures Answers(P, maxExp, r, o)
  {
    SettledCount(P, r, x);
    var p := r.walk[x.state];
    var path := Path(p, WalkCost(P.opt, p), WalkLength(P.g, p), P.Spent(p), DoneCount(r.done) + 1);
    GoalAnswers(P, maxExp, r, x, path);
    o := Found(path);
  }

  /** One turn of the loop: an answer, or a run with more settled or less queued. */
  lemma LoopStep(P: Problem, maxExp: nat, r: Run) returns (o: Option<Outcome>, next: Run)
    requires Inv(P, r, IDLE, 0) && P.BucketsAdvance() && DoneCount(r.done) <= maxExp && r.queue != multiset{}
    ensures o.Some? ==> Answers(P, maxExp, r, o.value)
    ensures o.None? ==> Inv(P, next, IDLE, 0) && Keeps(P, r, next) && DoneCount(next.done) <= maxExp && DoneCount(next.done) <= P.numStates
    ensures o.None? ==> DoneCount(next.done) > DoneCount(r.done) || (next.done == r.done && |next.queue| < |r.queue|)
  {
    var x := LeastItem(r.queue);
    SettledCount(P, r, x);
    o, next := None, r;
    if r.done[x.state] {
      DiscardInv(P, r, x);
      next := Settled(r, x);
    } else if DoneCount(r.done) == maxExp {
      o := Some(CapHit);
    } else if P.g.to[P.edgeOf(x.state)] == P.goal {
      var answer := GoalReached(P, maxExp, r, x);
      o := Some(answer);
    } else {
      next := ExpandLeast(P, r, x);
    }
  }

  /** From any point of the loop, some outcome follows. */
  lemma {:induction false} Explore(P: Problem, maxExp: nat, r: Run) returns (o: Outcome, final: Run)
    requires Inv(P, r, IDLE, 0) && P.BucketsAdvance() && DoneCount(r.done) <= maxExp
    ensures Answers(P, maxExp, final, o) && Keeps(P, r, final)
    decreases P.numStates - DoneCount(r.done), |r.queue|
  {
    if r.queue == multiset{} {
      return Unroutable, r;
    }
    var answer, next := LoopStep(P, maxExp, r);
    if answer.Some? {
      return answer.value, r;
    }
    o, final := Explore(P, maxExp, next);
    KeepsOn(P, r, next, final);
  }

  /** The loop's first turn starts from here. */
  lemma Seeded(P: Problem) returns (r: Run)
    requires P.Ok()
    ensures Inv(P, r, IDLE, 0) && r.done == Blank(P).done
  {
    var (lo, hi) := P.g.OutEdges(P.start);
    BlankInv(P, lo);
    r := RelaxAll(P, Blank(P), NO_SOURCE, lo, hi);
    FinishInv(P, r, NO_SOURCE, hi);
  }

  lemma SomeAnswer(P: Problem, maxExp: nat) returns (o: Outcome, final: Run)
    requires P.Ok() && P.BucketsAdvance()
    ensures Answers(P, maxExp, final, o)
  {
    var r := Seeded(P);
    DoneCountZero(r.done);
    o, final := Explore(P, maxExp, r);
  }

  /** Some outcome of the request meets its specification and is explained by a run. */
  lemma SomeOutcome(g: Graph, start: nat, goal: nat, opt: Options) returns (o: Outcome, final: Run)
    requires g.WellFormed() && start < g.NumNodes() && goal < g.NumNodes() && start != goal
    ensures SearchSpec(g, start, goal, opt, o) && Explained(g, start, goal, opt, o, final)
  {
    MakeProblemReady(g, start, goal, opt);
    o, final := SomeAnswer(MakeProblem(g, start, goal, opt), MaxExpansions(opt));
    OutcomeMeansSpec(g, start, goal, opt, final, o);
  }
}
