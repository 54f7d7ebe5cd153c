/**
 How a route is lost to bucketing (internal/routing/search.go:230-257): cheap
 streets bait every junction of a route with labels that share the route's
 bucket and have spent more, until the budget no longer suffices.
 */
module BaitTrap {
  import opened RoadGraph
  import opened Walks
  import opened SearchInvariant
  import opened Search
  import BucketSlack
  import Guidance

  /**
   A route with over-threshold lengths `ls`, and baits on its first junctions.
   With `k` baits the edges are: 0, a dear street; 1 to k, the baits; and from
   k + 1 on, alternately a plain street and a stretch of the route.

       0 ==0,1==> 1 --k+1--> 2 ==k+2==> 3 --k+3--> 4 ==k+4==> 5 ...
       0 --2----------------------------^
       0 --3--------------------------------------------------^
   */
  datatype Course = Course(ls: seq<real>, baits: seq<real>, price: nat -> real, turn: real) {
    function K(): nat { |baits| }

    function N(): nat { |ls| }

    function NumEdges(): nat { K() + 1 + 2 * N() }

    function From(e: nat): nat {
      if e <= K() then 0 else e - K()
    }

    function To(e: nat): nat {
      if e == 0 then 1 else if e <= K() then 2 * e - 1 else e - K() + 1
    }

    predicate IsOver(e: nat) {
      1 <= e && (e > K() ==> (e - K()) % 2 == 0)
    }

    function Spend(e: nat): real {
      if !IsOver(e) then 0.0
      else if e <= K() then baits[e - 1]
      else if (e - K()) / 2 <= N() then ls[(e - K()) / 2 - 1]
      else 0.0
    }

    /** Bait `i`, the plain street after its junction, and the stretch of the route behind that. */
    function Bait(i: nat): nat { 1 + i }

    function Plain(i: nat): nat { K() + 1 + 2 * i }

    function Stretch(i: nat): nat { K() + 2 + 2 * i }

    /** Costs by way of bait `i`, up to the plain street and up to the stretch. */
    function PlainCost(i: nat): real {
      price(Bait(i)) + turn + price(Plain(i))
    }

    function StretchCost(i: nat): real {
      PlainCost(i) + turn + price(Stretch(i))
    }

    /** At every junction the bait is the cheaper way to arrive, and no price is negative. */
    ghost predicate BaitsAreCheaper() {
      && 0.0 <= turn && (forall e: nat {:trigger price(e)} :: e < NumEdges() ==> 0.0 <= price(e))
      && (0 < K() ==> price(Bait(0)) < price(0))
      && (forall i: nat {:trigger StretchCost(i)} :: i + 1 < K() ==> price(Bait(i + 1)) < StretchCost(i))
    }
  }

  /** What the argument needs to know of one street. */
  ghost predicate Street(P: Problem, c: Course, e: nat)
    requires P.g.WellFormed() && e < P.g.NumEdges()
  {
    && P.g.from[e] == c.From(e) && P.g.to[e] == c.To(e)
    && P.opt.edgeCost(e) == c.price(e) && P.h(e) == 0.0
    && P.opt.Allows(e) && (P.opt.IsOver(e) <==> c.IsOver(e)) && OverM(P.g, P.opt, e) == c.Spend(e)
  }

  /** Bait `i` shares a bucket with the route where they meet, and after the stretch behind it the route and the next bait do so again, or the budget is overrun. */
  ghost predicate Trap(P: Problem, c: Course, i: nat)
    requires i < c.K() <= c.N()
  {
    && 0.0 <= c.baits[i] <= P.opt.budgetM
    && (i == 0 ==> P.bucketOf(c.baits[0]) == P.bucketOf(0.0))
    && if i + 1 < c.K() then P.bucketOf(c.baits[i + 1]) == P.bucketOf(c.baits[i] + c.ls[i]) else c.baits[i] + c.ls[i] > P.opt.budgetM
  }

  ghost predicate Setting(P: Problem, c: Course) {
    && BucketSlack.NonNegative(c.ls) && 1 <= c.K() <= c.N()
    && P.Ok() && P.start == 0 && P.goal == 2 * c.N() + 1 && P.g.NumEdges() == c.NumEdges()
    && 0.0 <= P.opt.budgetM && c.BaitsAreCheaper()
    && (forall d, e {:trigger P.opt.Turn(d, e)} :: 0 <= d < P.g.NumEdges() && 0 <= e < P.g.NumEdges() && P.g.to[d] == P.g.from[e] ==> P.opt.Turn(d, e) == c.turn)
    && (forall e {:trigger Street(P, c, e)} :: 0 <= e < P.g.NumEdges() ==> Street(P, c, e))
    && (forall i {:trigger Trap(P, c, i)} :: 0 <= i < c.K() ==> Trap(P, c, i))
  }

  /** A walk with this cost and spend. */
  ghost predicate Totals(P: Problem, p: seq<nat>, cost: real, spend: real) {
    WalkCost(P.opt, p) == cost && P.Spent(p) == spend
  }

  lemma GrowFirst(P: Problem, c: Course, e: nat)
    requires P.g.WellFormed() && e < P.g.NumEdges() && Street(P, c, e)
    ensures Totals(P, [] + [e], c.price(e), c.Spend(e))
  {
    Snoc([], e);
    assert Totals(P, [], 0.0, 0.0);
  }

  lemma Grow(P: Problem, c: Course, q: seq<nat>, e: nat)
    requires P.g.WellFormed() && e < P.g.NumEdges() && Street(P, c, e) && q != [] && P.opt.Turn(Last(q), e) == c.turn
    ensures Totals(P, q + [e], WalkCost(P.opt, q) + c.turn + c.price(e), P.Spent(q) + c.Spend(e))
  {
    Snoc(q, e);
  }

  /** Street `d` ends where street `e` begins: it is the one before, a bait, or the dear street. */
  predicate Fed(k: nat, d: nat, e: nat) {
    (d > k && d == e - 1) || (1 <= d <= k && e == k + 2 * d - 1) || (d == 0 && e == k + 1)
  }

  lemma Feeds(c: Course, d: nat, e: nat)
    requires e > c.K() && c.To(d) == c.From(e)
    ensures Fed(c.K(), d, e)
  {
  }

  /** What a label extends: nothing for the streets out of the start, and otherwise a settled label that ends where its street begins. */
  lemma Behind(P: Problem, c: Course, r: Run, st: nat) returns (src: int)
    requires Setting(P, c) && Inv(P, r, IDLE, 0) && Reached(r, st)
    ensures Guidance.Extends(P, r, st, src) && Street(P, c, P.edgeOf(st))
    ensures P.edgeOf(st) <= c.K() ==> src == NO_SOURCE
    ensures P.edgeOf(st) > c.K() ==> 0 <= src && P.edgeOf(src) < P.g.NumEdges() && c.To(P.edgeOf(src)) == c.From(P.edgeOf(st))
  {
    src := Guidance.LastStep(P, r, st);
    assert Street(P, c, P.edgeOf(st));
    if src != NO_SOURCE {
      assert Street(P, c, P.edgeOf(src));
    }
  }

  /** A label of a street out of the start is that street. */
  lemma FirstStreet(P: Problem, c: Course, r: Run, st: nat)
    requires Setting(P, c) && Inv(P, r, IDLE, 0) && Reached(r, st) && P.edgeOf(st) <= c.K()
    ensures Totals(P, r.walk[st], c.price(P.edgeOf(st)), c.Spend(P.edgeOf(st)))
  {
    var src := Behind(P, c, r, st);
    GrowFirst(P, c, P.edgeOf(st));
  }

  /** Any other extends a settled label of a street that feeds it. */
  lemma LaterStreet(P: Problem, c: Course, r: Run, st: nat) returns (src: nat)
    requires Setting(P, c) && Inv(P, r, IDLE, 0) && Reached(r, st) && P.edgeOf(st) > c.K()
    ensures IsSource(r, src) && Fed(c.K(), P.edgeOf(src), P.edgeOf(st)) && P.CanTake(P.Spent(r.walk[src]), P.edgeOf(st))
    ensures |r.walk[src]| < |r.walk[st]| && P.edgeOf(src) < P.g.NumEdges()
    ensures Totals(P, r.walk[st], WalkCost(P.opt, r.walk[src]) + c.turn + c.price(P.edgeOf(st)), P.Spent(r.walk[src]) + c.Spend(P.edgeOf(st)))
  {
    var s := Behind(P, c, r, st);
    src := s;
    Feeds(c, P.edgeOf(s), P.edgeOf(st));
    LabelEnds(P, r, src);
    assert Street(P, c, P.edgeOf(src));
    Grow(P, c, r.walk[src], P.edgeOf(st));
  }

  lemma StreetSpends(c: Course, i: nat)
    requires i < c.K() <= c.N()
    ensures c.IsOver(c.Bait(i)) && !c.IsOver(c.Plain(i)) && c.IsOver(c.Stretch(i))
    ensures c.Spend(c.Bait(i)) == c.baits[i] && c.Spend(c.Plain(i)) == 0.0 && c.Spend(c.Stretch(i)) == c.ls[i]
  {
    assert (2 + 2 * i) / 2 == i + 1;
  }

  lemma JunctionIsFed(k: nat, i: nat, d: nat)
    requires Fed(k, d, k + 1 + 2 * i) && i < k
    ensures d == 1 + i || (d == 0 && i == 0) || (i > 0 && d == k + 2 * i)
  {
  }

  lemma LegIsFed(k: nat, i: nat, d: nat)
    requires Fed(k, d, k + 2 + 2 * i)
    ensures d == k + 1 + 2 * i
  {
  }

  /** The streets about bait `i`. */
  lemma BaitStreets(P: Problem, c: Course, i: nat)
    requires Setting(P, c) && i < c.K()
    ensures Street(P, c, c.Bait(i)) && Street(P, c, c.Plain(i)) && Street(P, c, c.Stretch(i))
    ensures Trap(P, c, i)
  {
  }

  /** What is settled is no dearer than what is still open. */
  lemma SettledBeforeOpen(P: Problem, r: Run, st: nat, t: nat)
    requires Inv(P, r, IDLE, 0) && P.Consistent() && IsSource(r, st) && Reached(r, t) && !r.done[t]
    ensures P.Priority(r.walk[st]) <= P.Priority(r.walk[t])
  {
    OpenLabelIsQueued(P, r, t);
  }

  lemma LabelEnds(P: Problem, r: Run, st: nat)
    requires Inv(P, r, IDLE, 0) && Reached(r, st)
    ensures Last(r.walk[st]) == P.edgeOf(st) && st == P.stateOf(P.edgeOf(st), P.bucketOf(P.Spent(r.walk[st])))
  {
    assert LabelOk(P, st, r.walk[st]);
  }

  lemma SettingIsConsistent(P: Problem, c: Course)
    requires Setting(P, c)
    ensures P.Consistent()
  {
    forall e, f | 0 <= e < P.g.NumEdges() && 0 <= f < P.g.NumEdges() && P.g.to[e] == P.g.from[f] ensures P.h(e) <= P.opt.Turn(e, f) + P.opt.edgeCost(f) + P.h(f) {
      assert Street(P, c, e) && Street(P, c, f) && 0.0 <= c.price(f);
    }
    forall e | 0 <= e < P.g.NumEdges() ensures P.h(e) == 0.0 {
      assert Street(P, c, e);
    }
  }

  /** The bait's own label. */
  lemma BaitLabel(P: Problem, c: Course, r: Run, i: nat) returns (t: nat)
    requires Setting(P, c) && Inv(P, r, IDLE, 0) && i < c.K()
    ensures Reached(r, t) && P.edgeOf(t) == c.Bait(i) && Totals(P, r.walk[t], c.price(c.Bait(i)), c.baits[i])
  {
    BaitStreets(P, c, i);
    StreetSpends(c, i);
    SettingIsConsistent(P, c);
    t := Guidance.StepRelaxed(P, r, NO_SOURCE, c.Bait(i));
    Snoc([], c.Bait(i));
    GrowFirst(P, c, c.Bait(i));
    FirstStreet(P, c, r, t);
  }

  /** Past the bait's junction, in the bait's bucket, nothing settled costs more than by way of the bait. */
  lemma BaitWins(P: Problem, c: Course, r: Run, i: nat, st: nat)
    requires Setting(P, c) && Inv(P, r, IDLE, 0) && i < c.K()
    requires IsSource(r, st) && P.edgeOf(st) == c.Plain(i)
    requires P.bucketOf(P.Spent(r.walk[st])) == P.bucketOf(c.baits[i])
    ensures WalkCost(P.opt, r.walk[st]) <= c.PlainCost(i)
  {
    var t := BaitLabel(P, c, r, i);
    if r.done[t] {
      PastBait(P, c, r, i, st, t);
    } else {
      BaitStillOpen(P, c, r, i, st, t);
    }
  }

  lemma PastBait(P: Problem, c: Course, r: Run, i: nat, st: nat, t: nat)
    requires Setting(P, c) && Inv(P, r, IDLE, 0) && i < c.K() && IsSource(r, st) && P.edgeOf(st) == c.Plain(i)
    requires P.bucketOf(P.Spent(r.walk[st])) == P.bucketOf(c.baits[i])
    requires IsSource(r, t) && P.edgeOf(t) == c.Bait(i) && Totals(P, r.walk[t], c.price(c.Bait(i)), c.baits[i])
    ensures WalkCost(P.opt, r.walk[st]) <= c.PlainCost(i)
  {
    var e := P.edgeOf(st);
    BaitStreets(P, c, i);
    StreetSpends(c, i);
    SettingIsConsistent(P, c);
    LabelEnds(P, r, st);
    LabelEnds(P, r, t);
    var u := Guidance.StepRelaxed(P, r, t, e);
    Grow(P, c, r.walk[t], e);
    Snoc(r.walk[t], e);
  }

  lemma BaitStillOpen(P: Problem, c: Course, r: Run, i: nat, st: nat, t: nat)
    requires Setting(P, c) && Inv(P, r, IDLE, 0) && i < c.K() && IsSource(r, st) && P.edgeOf(st) == c.Plain(i)
    requires Reached(r, t) && !r.done[t] && P.edgeOf(t) == c.Bait(i) && Totals(P, r.walk[t], c.price(c.Bait(i)), c.baits[i])
    ensures WalkCost(P.opt, r.walk[st]) <= c.PlainCost(i)
  {
    BaitStreets(P, c, i);
    SettingIsConsistent(P, c);
    LabelEnds(P, r, st);
    LabelEnds(P, r, t);
    SettledBeforeOpen(P, r, st, t);
  }

  /** Past the bait's junction, a settled label that does not come by way of the bait would cost too much. */
  lemma OthersLose(P: Problem, c: Course, r: Run, i: nat, st: nat)
    requires Setting(P, c) && Inv(P, r, IDLE, 0) && i < c.K()
    requires IsSource(r, st) && P.edgeOf(st) == c.Plain(i)
    ensures i == 0 ==> !Totals(P, r.walk[st], c.price(0) + c.turn + c.price(c.Plain(0)), 0.0)
    ensures i > 0 ==> !Totals(P, r.walk[st], c.StretchCost(i - 1) + c.turn + c.price(c.Plain(i)), c.baits[i - 1] + c.ls[i - 1])
  {
    TrapsMeet(P, c, i);
    if P.bucketOf(P.Spent(r.walk[st])) == P.bucketOf(c.baits[i]) {
      BaitWins(P, c, r, i, st);
      assert i > 0 ==> c.price(c.Bait(i)) < c.StretchCost(i - 1);
    }
  }

  lemma TrapsMeet(P: Problem, c: Course, i: nat)
    requires Setting(P, c) && i < c.K()
    ensures P.bucketOf(c.baits[i]) == P.bucketOf(if i == 0 then 0.0 else c.baits[i - 1] + c.ls[i - 1])
  {
    assert Trap(P, c, i) && (i > 0 ==> Trap(P, c, i - 1));
  }

  /** Past the bait's junction comes the bait, not the dear street. */
  lemma JunctionFromStart(P: Problem, c: Course, r: Run, i: nat, st: nat, src: nat)
    requires Setting(P, c) && Inv(P, r, IDLE, 0) && i < c.K() && IsSource(r, st) && P.edgeOf(st) == c.Plain(i)
    requires IsSource(r, src) && P.edgeOf(src) <= c.K() && Fed(c.K(), P.edgeOf(src), c.Plain(i))
    requires Totals(P, r.walk[st], WalkCost(P.opt, r.walk[src]) + c.turn + c.price(c.Plain(i)), P.Spent(r.walk[src]))
    ensures Totals(P, r.walk[st], c.PlainCost(i), c.baits[i])
  {
    JunctionIsFed(c.K(), i, P.edgeOf(src));
    FirstStreet(P, c, r, src);
    StreetSpends(c, i);
    OthersLose(P, c, r, i, st);
  }

  /** Past a bait's junction a label comes by way of the bait or along the route. */
  lemma JunctionStep(P: Problem, c: Course, r: Run, i: nat, st: nat) returns (src: nat)
    requires Setting(P, c) && Inv(P, r, IDLE, 0) && i < c.K() && IsSource(r, st) && P.edgeOf(st) == c.Plain(i)
    ensures IsSource(r, src)
    ensures P.edgeOf(src) <= c.K() ==> Totals(P, r.walk[st], c.PlainCost(i), c.baits[i])
    ensures P.edgeOf(src) > c.K() ==>
              i > 0 && P.edgeOf(src) == c.Stretch(i - 1)
              && Totals(P, r.walk[st], WalkCost(P.opt, r.walk[src]) + c.turn + c.price(c.Plain(i)), P.Spent(r.walk[src]))
  {
    src := LaterStreet(P, c, r, st);
    StreetSpends(c, i);
    if P.edgeOf(src) <= c.K() {
      JunctionFromStart(P, c, r, i, st, src);
    } else {
      JunctionIsFed(c.K(), i, P.edgeOf(src));
    }
  }

  /** Every settled label past a bait's junction costs and spends what it does by way of the bait. */
  lemma {:induction false} JunctionLabel(P: Problem, c: Course, r: Run, i: nat, st: nat)
    requires Setting(P, c) && Inv(P, r, IDLE, 0) && i < c.K()
    requires IsSource(r, st) && P.edgeOf(st) == c.Plain(i)
    ensures Totals(P, r.walk[st], c.PlainCost(i), c.baits[i])
    decreases i, 0
  {
    var src := JunctionStep(P, c, r, i, st);
    if P.edgeOf(src) > c.K() {
      LegLabel(P, c, r, i - 1, src);
      NotFromLeg(P, c, r, i, st, src);
    }
  }

  /** Nor does it come along the route. */
  lemma NotFromLeg(P: Problem, c: Course, r: Run, i: nat, st: nat, src: nat)
    requires Setting(P, c) && Inv(P, r, IDLE, 0) && 0 < i < c.K() && IsSource(r, st) && P.edgeOf(st) == c.Plain(i)
    requires IsSource(r, src) && Totals(P, r.walk[src], c.StretchCost(i - 1), c.baits[i - 1] + c.ls[i - 1])
    ensures !Totals(P, r.walk[st], WalkCost(P.opt, r.walk[src]) + c.turn + c.price(c.Plain(i)), P.Spent(r.walk[src]))
  {
    OthersLose(P, c, r, i, st);
  }

  /** So does every label of the stretch of the route behind it. */
  lemma {:induction false} LegLabel(P: Problem, c: Course, r: Run, i: nat, st: nat)
    requires Setting(P, c) && Inv(P, r, IDLE, 0) && i < c.K()
    requires Reached(r, st) && P.edgeOf(st) == c.Stretch(i)
    ensures Totals(P, r.walk[st], c.StretchCost(i), c.baits[i] + c.ls[i])
    decreases i, 1
  {
    var src := LaterStreet(P, c, r, st);
    LegIsFed(c.K(), i, P.edgeOf(src));
    StreetSpends(c, i);
    JunctionLabel(P, c, r, i, src);
  }

  /** The last bait overruns the budget on the stretch behind it, so no label gets there or beyond. */
  lemma {:induction false} CutOff(P: Problem, c: Course, r: Run, st: nat)
    requires Setting(P, c) && Inv(P, r, IDLE, 0) && Reached(r, st)
    ensures P.edgeOf(st) < 3 * c.K()
    decreases |r.walk[st]|
  {
    var k := c.K();
    if P.edgeOf(st) >= 3 * k {
      var src := LaterStreet(P, c, r, st);
      assert P.edgeOf(src) == P.edgeOf(st) - 1;
      if P.edgeOf(st) == 3 * k {
        JunctionLabel(P, c, r, k - 1, src);
        LastStretch(P, c, P.Spent(r.walk[src]));
      } else {
        CutOff(P, c, r, src);
      }
    }
  }

  lemma LastStretch(P: Problem, c: Course, spent: real)
    requires Setting(P, c) && spent == c.baits[c.K() - 1]
    ensures !P.CanTake(spent, 3 * c.K())
  {
    BaitStreets(P, c, c.K() - 1);
    StreetSpends(c, c.K() - 1);
  }

  /** The goal lies beyond. */
  lemma NothingPopped(P: Problem, c: Course, r: Run, path: Path)
    requires Setting(P, c) && Inv(P, r, IDLE, 0)
    ensures !Popped(P, r, path)
  {
    if Popped(P, r, path) {
      var x :| IsLeast(r, x) && IsOpenGoal(P, r, x.state) && r.walk[x.state] == path.edges;
      assert Street(P, c, P.edgeOf(x.state));
      CutOff(P, c, r, x.state);
    }
  }
}
