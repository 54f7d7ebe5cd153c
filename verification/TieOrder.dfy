/**
 What ties can decide. The heap says nothing about which of two equally cheap
 entries is popped first (internal/routing/search.go:353-404), and a label is
 only replaced by a cheaper one (internal/routing/search.go:252-257). So two
 equally cheap labels that share a bucket compete for one state, and whichever
 comes first decides what the rest of the route may still spend.
 */
module TieOrder {
  import opened RoadGraph
  import opened Walks
  import opened StateSpace
  import opened StateQueue
  import opened SearchInvariant
  import opened Search
  import Geo
  import Wrappers
  import Guidance
  import Outcomes

  /**
   Two streets of one price lead on to a third, and a stressful fourth ends at
   the goal; one of the two, edge 0, is stressful too.

       0 ==0,1==> 1 --2--> 2 --3--> 3
   */
  function Streets(): Graph {
    Graph(
      (a: Geo.LatLon, b: Geo.LatLon) => 0.0,
      seq(4, _ => Geo.LatLon(0.0, 0.0)), [], [],
      [0, 0, 1, 2], [1, 1, 2, 3], [5.0, 1.0, 1.0, 10.0],
      [], [], [], [], [], [], [], [],
      [0, 2, 3, 4, 4])
  }

  /** A budget of 12 in one bucket: enough for edge 3, and not for edges 0 and 3. */
  function Rider(plain: bool): Options {
    Options((e: nat) => 1.0, Wrappers.None, Wrappers.None, Wrappers.Some((e: nat) => e == 0 || e == 3), 12.0, 1, 0, plain)
  }

  /** One street, as the search sees it. */
  ghost predicate AsDrawn(P: Problem, e: nat)
    requires P.g.WellFormed() && e < P.g.NumEdges()
  {
    && P.g.from[e] == (if e <= 1 then 0 else e - 1) && P.g.to[e] == (if e == 0 then 1 else e)
    && P.opt.edgeCost(e) == 1.0 && P.opt.Allows(e) && P.h(e) == 0.0
    && (P.opt.IsOver(e) <==> e == 0 || e == 3) && OverM(P.g, P.opt, e) == OverOf(e)
  }

  function OverOf(e: nat): real {
    if e == 0 then 5.0 else if e == 3 then 10.0 else 0.0
  }

  /** The request: state `e` is edge `e`. */
  ghost predicate Tied(P: Problem) {
    && P.Ok() && P.start == 0 && P.goal == 3 && P.numStates == 4 && P.g.NumEdges() == 4 && P.opt.budgetM == 12.0
    && P.BucketsAdvance() && P.opt.turnCost.None?
    && (forall e {:trigger P.edgeOf(e)} :: 0 <= e < 4 ==> P.edgeOf(e) == e)
    && (forall e {:trigger AsDrawn(P, e)} :: 0 <= e < 4 ==> AsDrawn(P, e))
  }

  lemma StreetsWellFormed()
    ensures Streets().WellFormed() && Streets().NumEdges() == 4 && Streets().NumNodes() == 4
  {
    StreetOffsets(Streets().from, Streets().offs);
  }

  lemma StreetOffsets(from: seq<nat>, offs: seq<nat>)
    requires from == [0, 0, 1, 2] && offs == [0, 2, 3, 4, 4]
    ensures ExactOffsets(from, 4, offs)
  {
  }

  lemma RequestIsTied(plain: bool)
    requires Streets().WellFormed()
    ensures Tied(MakeProblem(Streets(), 0, 3, Rider(plain)))
  {
    var P := MakeProblem(Streets(), 0, 3, Rider(plain));
    MakeProblemReady(Streets(), 0, 3, Rider(plain));
    forall e | 0 <= e < 4 ensures AsDrawn(P, e) {
      StreetIsDrawn(plain, e);
    }
  }

  lemma StreetIsDrawn(plain: bool, e: nat)
    requires Streets().WellFormed() && e < 4
    ensures AsDrawn(MakeProblem(Streets(), 0, 3, Rider(plain)), e)
  {
  }

  lemma TiedIsConsistent(P: Problem)
    requires Tied(P)
    ensures P.Consistent()
  {
    forall e | 0 <= e < 4 ensures P.h(e) == 0.0 && P.opt.edgeCost(e) == 1.0 {
      assert AsDrawn(P, e);
    }
  }

  // ------------------------------------------------------------- what labels there are

  /** A label extends that of a street before it. */
  lemma Before(P: Problem, r: Run, st: nat) returns (src: int)
    requires Tied(P) && Inv(P, r, IDLE, 0) && Reached(r, st)
    ensures st < 4 && Guidance.Extends(P, r, st, src)
    ensures if st <= 1 then src == NO_SOURCE else IsSource(r, src) && (if st == 2 then 0 <= src <= 1 else src == 2)
  {
    src := Guidance.LastStep(P, r, st);
    assert AsDrawn(P, st);
    if src != NO_SOURCE {
      assert P.edgeOf(src) == src && AsDrawn(P, src);
    }
  }

  /** A walk and one street more. */
  lemma Onward(P: Problem, q: seq<nat>, e: nat)
    requires Tied(P) && e < 4
    ensures WalkCost(P.opt, q + [e]) == WalkCost(P.opt, q) + 1.0 && P.Spent(q + [e]) == P.Spent(q) + OverOf(e)
  {
    Snoc(q, e);
    assert AsDrawn(P, e);
  }

  /** An edge out of the start stands for itself. */
  lemma FirstLabel(P: Problem, r: Run, st: nat)
    requires Tied(P) && Inv(P, r, IDLE, 0) && Reached(r, st) && st <= 1
    ensures r.walk[st] == [st] && WalkCost(P.opt, r.walk[st]) == 1.0 && P.Spent(r.walk[st]) == OverOf(st)
  {
    var src := Before(P, r, st);
    Onward(P, [], st);
    assert [] + [st] == [st];
  }

  /** Edge 2 follows one of the two, whichever is settled. */
  lemma SecondLabel(P: Problem, r: Run) returns (first: nat)
    requires Tied(P) && Inv(P, r, IDLE, 0) && Reached(r, 2)
    ensures first <= 1 && IsSource(r, first) && r.walk[2] == [first, 2]
    ensures WalkCost(P.opt, r.walk[2]) == 2.0 && P.Spent(r.walk[2]) == OverOf(first)
  {
    first := Before(P, r, 2);
    FirstLabel(P, r, first);
    Onward(P, [first], 2);
    assert [first] + [2] == [first, 2];
  }

  /** Edge 3 follows edge 2, if what that has spent leaves room. */
  lemma ThirdLabel(P: Problem, r: Run)
    requires Tied(P) && Inv(P, r, IDLE, 0) && Reached(r, 3)
    ensures IsSource(r, 2) && P.Spent(r.walk[2]) + 10.0 <= 12.0
  {
    var src := Before(P, r, 3);
    assert AsDrawn(P, 3);
  }

  /** An affordable step out of a settled street, or out of the start, has been labelled. */
  lemma After(P: Problem, r: Run, src: int, e: nat)
    requires Tied(P) && Inv(P, r, IDLE, 0) && IsSource(r, src) && e < 4 && P.g.from[e] == At(P, src)
    requires P.Spent(WalkTo(r, src)) + OverOf(e) <= 12.0
    ensures Reached(r, e)
  {
    TiedIsConsistent(P);
    assert AsDrawn(P, e);
    var t := Guidance.StepRelaxed(P, r, src, e);
    ExtensionLabel(P, r, src, e);
    Snoc(WalkTo(r, src), e);
    assert P.edgeOf(t) == t;
  }

  // ------------------------------------------------------------- choosing the first

  /** At the start either of the two may be popped. */
  lemma EitherIsLeast(P: Problem, r: Run, first: nat)
    requires Tied(P) && Inv(P, r, IDLE, 0) && first <= 1 && forall st :: 0 <= st < 4 ==> !r.done[st]
    ensures IsLeast(r, Item(first, 1.0))
  {
    assert AsDrawn(P, first);
    After(P, r, NO_SOURCE, first);
    OnlyFirst(P, r, first);
    OpenLabelIsQueued(P, r, first);
    forall x {:trigger r.queue[x]} | x in r.queue ensures 1.0 <= x.priority {
      OnlyFirst(P, r, x.state);
    }
  }

  /** With nothing settled all labels are of streets out of the start. */
  lemma OnlyFirst(P: Problem, r: Run, st: nat)
    requires Tied(P) && Inv(P, r, IDLE, 0) && Reached(r, st) && forall st :: 0 <= st < 4 ==> !r.done[st]
    ensures P.Priority(r.walk[st]) == 1.0
  {
    var src := Before(P, r, st);
    FirstLabel(P, r, st);
    assert AsDrawn(P, st);
  }

  /** The first turn, with edge `first` popped. */
  lemma FirstTurn(P: Problem, first: nat) returns (after: Run)
    requires Tied(P) && first <= 1
    ensures Inv(P, after, IDLE, 0) && DoneCount(after.done) == 1
    ensures Reached(after, 2) && after.walk[2] == [first, 2] && WalkCost(P.opt, after.walk[2]) == 2.0
  {
    var r := Outcomes.Seeded(P);
    var x := Item(first, 1.0);
    EitherIsLeast(P, r, first);
    DoneCountZero(r.done);
    SettledCount(P, r, x);
    assert AsDrawn(P, first);
    after := Outcomes.ExpandLeast(P, r, x);
    SecondFollows(P, after, first);
  }

  /** Popped first, edge `first` decides the label of edge 2 for good. */
  lemma FirstDecides(P: Problem, maxExp: nat, first: nat) returns (o: Outcome, final: Run)
    requires Tied(P) && first <= 1 && 4 <= maxExp
    ensures Answers(P, maxExp, final, o) && Reached(final, 2) && final.walk[2] == [first, 2]
  {
    var after := FirstTurn(P, first);
    o, final := Outcomes.Explore(P, maxExp, after);
    assert Outcomes.Kept(P, after, final, 2);
    LabelStays(P, maxExp, o, final);
  }

  lemma LabelStays(P: Problem, maxExp: nat, o: Outcome, final: Run)
    requires Tied(P) && Answers(P, maxExp, final, o) && 4 <= maxExp && Reached(final, 2)
    ensures WalkCost(P.opt, final.walk[2]) == 2.0
  {
    var other := SecondLabel(P, final);
  }

  lemma SecondFollows(P: Problem, r: Run, first: nat)
    requires Tied(P) && Inv(P, r, IDLE, 0) && first <= 1 && r.done[first] && forall st :: 0 <= st < 4 && st != first ==> !r.done[st]
    ensures Reached(r, 2) && r.walk[2] == [first, 2] && WalkCost(P.opt, r.walk[2]) == 2.0
  {
    FirstLabel(P, r, first);
    assert AsDrawn(P, first) && AsDrawn(P, 2);
    After(P, r, first, 2);
    var other := SecondLabel(P, r);
  }

  // ------------------------------------------------------------- the two answers

  lemma StressfulFirst(P: Problem, maxExp: nat, o: Outcome, final: Run)
    requires Tied(P) && 4 <= maxExp && Answers(P, maxExp, final, o) && Reached(final, 2) && final.walk[2] == [0, 2]
    ensures o == Unroutable
  {
    var first := SecondLabel(P, final);
    if o.Found? {
      var x :| IsLeast(final, x) && IsOpenGoal(P, final, x.state) && final.walk[x.state] == o.path.edges;
      NotBefore(P, x.state);
      ThirdLabel(P, final);
    }
  }

  /** Only edge 3 leads to the goal. */
  lemma NotBefore(P: Problem, st: nat)
    requires Tied(P) && st < 4 && P.g.to[P.edgeOf(st)] == P.goal
    ensures st == 3
  {
    assert AsDrawn(P, st);
  }

  lemma PlainFirst(P: Problem, maxExp: nat, o: Outcome, final: Run)
    requires Tied(P) && 4 <= maxExp && Answers(P, maxExp, final, o) && Reached(final, 2) && final.walk[2] == [1, 2]
    ensures o.Found?
  {
    var first := SecondLabel(P, final);
    if o == Unroutable {
      NoneOpen(P, final, 2);
      assert AsDrawn(P, 2) && AsDrawn(P, 3);
      After(P, final, 2, 3);
      NoneOpen(P, final, 3);
    }
  }

  /** When the queue has run dry every label is settled, and none at the goal. */
  lemma NoneOpen(P: Problem, r: Run, st: nat)
    requires Tied(P) && Inv(P, r, IDLE, 0) && r.queue == multiset{} && Reached(r, st)
    ensures IsSource(r, st) && st != 3
  {
    if !r.done[st] {
      OpenLabelIsQueued(P, r, st);
    }
    assert P.edgeOf(st) == st && (st == 3 ==> AsDrawn(P, 3));
  }

  /** The answer when edge `first` is popped first. */
  lemma AnswerOf(P: Problem, maxExp: nat, first: nat) returns (o: Outcome, final: Run)
    requires Tied(P) && first <= 1 && 4 <= maxExp
    ensures Answers(P, maxExp, final, o) && if first == 0 then o == Unroutable else o.Found?
  {
    o, final := FirstDecides(P, maxExp, first);
    if first == 0 {
      StressfulFirst(P, maxExp, o, final);
    } else {
      PlainFirst(P, maxExp, o, final);
    }
  }

  lemma OutcomeOf(plain: bool, first: nat) returns (o: Outcome, final: Run)
    requires Streets().WellFormed() && first <= 1
    ensures SearchSpec(Streets(), 0, 3, Rider(plain), o) && Explained(Streets(), 0, 3, Rider(plain), o, final)
    ensures if first == 0 then o == Unroutable else o.Found?
  {
    RequestIsTied(plain);
    o, final := AnswerOf(MakeProblem(Streets(), 0, 3, Rider(plain)), MaxExpansions(Rider(plain)), first);
    OutcomeMeansSpec(Streets(), 0, 3, Rider(plain), final, o);
  }

  lemma RiderIsPriced()
    requires Streets().WellFormed()
    ensures ConsistentEstimate(Streets(), 3, Rider(false)) && Guidance.StepsPositive(Streets(), Rider(false))
  {
  }

  /**
   One request, searched with guidance and without, and two runs that differ in
   which of two equally cheap entries they pop first: one finds a route, the
   other finds none. Every condition of `Guidance.BudgetedSearchesAgree` is met,
   so its exception, that a tie was broken, cannot be left out.
   */
  lemma TieDecides() returns (g: Graph, goal: nat, opt: Options, guided: Outcome, r: Run, plain: Outcome, s: Run)
    ensures g.WellFormed() && 0 < g.NumNodes() && 0 < goal < g.NumNodes() && 0.0 <= opt.budgetM && !opt.noHeuristic
    ensures ConsistentEstimate(g, goal, opt) && Guidance.StepsPositive(g, opt)
    ensures SearchSpec(g, 0, goal, opt, guided) && Explained(g, 0, goal, opt, guided, r)
    ensures SearchSpec(g, 0, goal, opt.(noHeuristic := true), plain) && Explained(g, 0, goal, opt.(noHeuristic := true), plain, s)
    ensures guided.Found? && plain == Unroutable
  {
    g, goal, opt := Streets(), 3, Rider(false);
    StreetsWellFormed();
    RiderIsPriced();
    guided, r := OutcomeOf(false, 1);
    plain, s := OutcomeOf(true, 0);
    assert opt.(noHeuristic := true) == Rider(true);
  }
}
