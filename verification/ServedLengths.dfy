/**
 Which over-threshold lengths a stress budget serves. A list of lengths is
 served on every request whose route has it exactly when the lengths, each
 rounded up to whole buckets, leave one bucket of the budget over
 (internal/routing/search.go:113-127); and that is so already of the requests
 the route handler makes, with the safety model's own prices
 (internal/httpapi/route_handler.go:232-239).
 */
module ServedLengths {
  import opened RoadGraph
  import opened Walks
  import opened StateSpace
  import opened SearchInvariant
  import opened Search
  import opened BucketSlack
  import opened BaitTrap
  import Geo
  import Wrappers
  import Outcomes
  import Safety

  // ------------------------------------------------------------- requests

  datatype Request = Request(g: Graph, start: nat, goal: nat, opt: Options) {
    ghost predicate Ok() {
      g.WellFormed() && start < g.NumNodes() && goal < g.NumNodes() && start != goal
    }

    /** Route `p` answers the request, and its over-threshold edges have exactly these lengths. */
    ghost predicate Offers(p: seq<nat>, ls: seq<real>)
      requires Ok()
    {
      IsRoute(g, start, goal, p) && Permitted(opt, p) && OverLengths(g, opt, p) == ls
    }

    /** Some run ends the search this way. */
    ghost predicate EndsIn(o: Outcome)
      requires Ok()
    {
      SearchSpec(g, start, goal, opt, o) && exists final :: Explained(g, start, goal, opt, o, final)
    }

    /** Whatever the search does, short of hitting its cap, it finds a route. */
    ghost predicate Served()
      requires Ok()
    {
      forall o {:trigger EndsIn(o)} :: EndsIn(o) && o != CapHit ==> o.Found?
    }
  }

  /** With this budget in this many buckets, a route with these over-threshold lengths gets every request it answers served. */
  ghost predicate AlwaysServed(ls: seq<real>, budget: real, nb: nat) {
    forall q: Request, p {:trigger q.Offers(p, ls)} ::
      q.Ok() && q.opt.budgetM == budget && BudgetBuckets(q.opt).0 == nb && BudgetBuckets(q.opt).1 > 0.0 && q.Offers(p, ls) ==> q.Served()
  }

  /** The same of the requests the route handler makes for one profile, whatever hazards are reported. */
  ghost predicate AlwaysServedByHandler(ls: seq<real>, profile: Safety.Profile) {
    forall q: Request, p, hazards {:trigger q.Offers(p, ls), Safety.Model(profile, hazards)} ::
      q.Ok() && q.g.HasAttributes() && q.opt == Safety.RouteOptions(Safety.Model(profile, hazards), q.g) && q.Offers(p, ls) ==> q.Served()
  }

  lemma CeilingsServe(q: Request, p: seq<nat>, ls: seq<real>, budget: real, nb: nat)
    requires NonNegative(ls) && 1 <= nb && 0.0 < budget / nb as real && Ceilings(ls, budget / nb as real) <= nb - 1
    requires q.Ok() && q.opt.budgetM == budget && BudgetBuckets(q.opt).0 == nb && BudgetBuckets(q.opt).1 > 0.0 && q.Offers(p, ls)
    ensures q.Served()
  {
    BucketWidth(q.opt);
    UnitsAreCeilings(q.g, q.opt, p);
    assert Fits(q.g, q.opt, p);
  }

  lemma BucketWidth(opt: Options)
    requires BudgetBuckets(opt).1 > 0.0
    ensures BudgetBuckets(opt).1 == opt.budgetM / BudgetBuckets(opt).0 as real
  {
  }

  // ------------------------------------------------------------- the streets

  function LengthOf(c: Course, plain: real, e: nat): real {
    if c.IsOver(e) then c.Spend(e) else plain
  }

  function OffsOf(c: Course, v: nat): nat {
    if v == 0 then 0 else if v <= 2 * c.N() + 1 then c.K() + v else c.NumEdges()
  }

  /** The course as a graph: stressful streets where it is over the threshold, and calm ones `plain` metres long elsewhere. */
  function Streets(c: Course, plain: real): Graph {
    var n, m := 2 * c.N() + 2, c.NumEdges();
    Graph(
      (a: Geo.LatLon, b: Geo.LatLon) => 0.0,
      seq(n, _ => Geo.LatLon(0.0, 0.0)), seq(n, _ => NoControl), seq(n, _ => 0),
      seq(m, e requires 0 <= e => c.From(e)),
      seq(m, e requires 0 <= e => c.To(e)),
      seq(m, e requires 0 <= e => LengthOf(c, plain, e)),
      seq(m, _ => InfraNone), seq(m, _ => SurfaceUnknown),
      seq(m, e requires 0 <= e => if c.IsOver(e) then 4 else 1),
      seq(m, _ => 0.0), seq(m, _ => 0.0), seq(m, _ => LitUnknown), seq(m, _ => 0.0), seq(m, _ => 0.0),
      seq(n + 1, v requires 0 <= v => OffsOf(c, v)))
  }

  lemma StreetOffsets(c: Course, from: seq<nat>, offs: seq<nat>)
    requires |from| == c.NumEdges() && forall e :: 0 <= e < |from| ==> from[e] == c.From(e)
    requires |offs| == 2 * c.N() + 3 && forall v :: 0 <= v < |offs| ==> offs[v] == OffsOf(c, v)
    ensures ExactOffsets(from, 2 * c.N() + 2, offs)
  {
  }

  lemma LengthsNonNegative(c: Course, plain: real, e: nat)
    requires NonNegative(c.ls) && NonNegative(c.baits) && 0.0 <= plain
    ensures 0.0 <= LengthOf(c, plain, e)
  {
    if c.IsOver(e) && e > c.K() && (e - c.K()) / 2 <= c.N() {
      assert 0.0 <= c.ls[(e - c.K()) / 2 - 1];
    }
  }

  lemma ColumnsWellFormed(c: Course, g: Graph)
    requires 1 <= c.K() <= c.N() && |g.loc| == 2 * c.N() + 2 && |g.from| == |g.to| == |g.lengthM| == c.NumEdges()
    requires forall e :: 0 <= e < |g.from| ==> g.from[e] == c.From(e)
    requires forall e :: 0 <= e < |g.to| ==> g.to[e] == c.To(e)
    requires forall e :: 0 <= e < |g.lengthM| ==> 0.0 <= g.lengthM[e]
    requires ExactOffsets(g.from, 2 * c.N() + 2, g.offs)
    ensures g.WellFormed()
  {
  }

  lemma AllLengthsNonNegative(c: Course, plain: real, lengthM: seq<real>)
    requires NonNegative(c.ls) && NonNegative(c.baits) && 0.0 <= plain
    requires forall e :: 0 <= e < |lengthM| ==> lengthM[e] == LengthOf(c, plain, e)
    ensures forall e :: 0 <= e < |lengthM| ==> 0.0 <= lengthM[e]
  {
    forall e | 0 <= e < |lengthM| ensures 0.0 <= lengthM[e] {
      LengthsNonNegative(c, plain, e);
    }
  }

  lemma StreetsWellFormed(c: Course, plain: real)
    requires NonNegative(c.ls) && NonNegative(c.baits) && 0.0 <= plain && 1 <= c.K() <= c.N()
    ensures Streets(c, plain).WellFormed() && Streets(c, plain).HasAttributes()
  {
    var g := Streets(c, plain);
    StreetOffsets(c, g.from, g.offs);
    AllLengthsNonNegative(c, plain, g.lengthM);
    ColumnsWellFormed(c, g);
  }

  // ------------------------------------------------------------- the trap is set

  /** The options price the course's streets as the course says. */
  ghost predicate PricedAs(g: Graph, opt: Options, c: Course)
    requires g.WellFormed()
  {
    && c.BaitsAreCheaper()
    && (forall e: nat {:trigger opt.edgeCost(e)} :: e < g.NumEdges() ==> opt.edgeCost(e) == c.price(e))
    && (forall e: nat {:trigger opt.IsOver(e)} {:trigger opt.Allows(e)} :: e < g.NumEdges() ==> opt.Allows(e) && (opt.IsOver(e) <==> c.IsOver(e)))
    && (forall d, e {:trigger opt.Turn(d, e)} :: 0 <= d < g.NumEdges() && 0 <= e < g.NumEdges() && g.to[d] == g.from[e] ==> opt.Turn(d, e) == c.turn)
  }

  /** The problem buckets spends as the search does. */
  ghost predicate BucketsBy(P: Problem, step: real, nb: nat) {
    1 <= nb && forall u {:trigger P.bucketOf(u)} :: 0.0 <= u ==> P.bucketOf(u) == BucketOf(u, step, nb)
  }

  /** A bait, as the search sees it. */
  ghost predicate Opens(ls: seq<real>, baits: seq<real>, budget: real, step: real, nb: nat, i: nat)
    requires 1 <= nb && i < |baits| <= |ls|
  {
    && 0.0 <= baits[i] <= budget && 0.0 <= baits[i] + ls[i]
    && (i == 0 ==> BucketOf(baits[0], step, nb) == BucketOf(0.0, step, nb))
    && if i + 1 < |baits| then 0.0 <= baits[i + 1] && BucketOf(baits[i + 1], step, nb) == BucketOf(baits[i] + ls[i], step, nb)
       else baits[i] + ls[i] > budget
  }

  lemma BaitsOpen(ls: seq<real>, baits: seq<real>, step: real, nb: nat, i: nat)
    requires NonNegative(ls) && 0.0 < step && 1 <= nb && AreBaits(ls, baits, step, nb) && i < |baits|
    ensures Opens(ls, baits, Widths(nb, step), step, nb, i)
  {
    BaitOpens(ls, baits, step, nb, i);
    if i + 1 < |baits| {
      BaitsMeet(ls, baits, step, nb, i);
    }
  }

  /** Baits set traps. */
  lemma BaitsTrap(P: Problem, c: Course, step: real, nb: nat, i: nat)
    requires BucketsBy(P, step, nb) && i < c.K() <= c.N() && Opens(c.ls, c.baits, P.opt.budgetM, step, nb, i)
    ensures Trap(P, c, i)
  {
    if i == 0 {
      SameBucket(P, step, nb, c.baits[0], 0.0);
    }
    if i + 1 < c.K() {
      SameBucket(P, step, nb, c.baits[i + 1], c.baits[i] + c.ls[i]);
    }
  }

  lemma SameBucket(P: Problem, step: real, nb: nat, u: real, v: real)
    requires BucketsBy(P, step, nb) && 0.0 <= u && 0.0 <= v && BucketOf(u, step, nb) == BucketOf(v, step, nb)
    ensures P.bucketOf(u) == P.bucketOf(v)
  {
  }

  lemma RequestBucketing(g: Graph, goal: nat, opt: Options, step: real, nb: nat)
    requires BudgetBuckets(opt) == (nb, step)
    ensures BucketsBy(MakeProblem(g, 0, goal, opt), step, nb)
  {
  }

  lemma RequestStreet(c: Course, plain: real, opt: Options, e: nat)
    requires Streets(c, plain).WellFormed() && PricedAs(Streets(c, plain), opt, c) && e < c.NumEdges()
    ensures Street(MakeProblem(Streets(c, plain), 0, 2 * c.N() + 1, opt), c, e)
  {
    var g := Streets(c, plain);
    assert opt.edgeCost(e) == c.price(e) && opt.Allows(e);
    assert g.lengthM[e] == LengthOf(c, plain, e);
  }

  /** What the request has to be for the trap to work. */
  ghost predicate IsTrap(c: Course, plain: real, opt: Options, step: real, nb: nat) {
    && NonNegative(c.ls) && 0.0 < step && 1 <= nb && AreBaits(c.ls, c.baits, step, nb) && 0.0 <= plain
    && Streets(c, plain).WellFormed() && PricedAs(Streets(c, plain), opt, c)
    && BudgetBuckets(opt) == (nb, step) && opt.budgetM == Widths(nb, step) && 0.0 < opt.budgetM
  }

  lemma RequestSetting(c: Course, plain: real, opt: Options, step: real, nb: nat)
    requires IsTrap(c, plain, opt, step, nb)
    ensures var q := TrapRequest(c, plain, opt); Setting(MakeProblem(q.g, q.start, q.goal, q.opt), c)
  {
    var g, goal := Streets(c, plain), 2 * c.N() + 1;
    var P := MakeProblem(g, 0, goal, opt);
    MakeProblemReady(g, 0, goal, opt);
    RequestBucketing(g, goal, opt, step, nb);
    forall e | 0 <= e < P.g.NumEdges() ensures Street(P, c, e) {
      RequestStreet(c, plain, opt, e);
    }
    forall i | 0 <= i < c.K() ensures Trap(P, c, i) {
      BaitsOpen(c.ls, c.baits, step, nb, i);
      BaitsTrap(P, c, step, nb, i);
    }
  }

  // ------------------------------------------------------------- the route

  /** The dear street, then every street on. */
  function RouteUpTo(k: nat, j: nat): seq<nat> {
    if j == 0 then [0] else RouteUpTo(k, j - 1) + [k + j]
  }

  function LastOf(c: Course, j: nat): nat {
    if j == 0 then 0 else c.K() + j
  }

  lemma {:induction false} RouteIsWalk(P: Problem, c: Course, j: nat)
    requires Setting(P, c) && j <= 2 * c.N()
    ensures IsWalk(P.g, 0, RouteUpTo(c.K(), j)) && Last(RouteUpTo(c.K(), j)) == LastOf(c, j)
    ensures Permitted(P.opt, RouteUpTo(c.K(), j))
  {
    StreetsJoin(P, c, j);
    if j > 0 {
      RouteIsWalk(P, c, j - 1);
      RouteExtends(P.g, P.opt, RouteUpTo(c.K(), j - 1), c.K() + j);
    }
  }

  lemma StreetsJoin(P: Problem, c: Course, j: nat)
    requires Setting(P, c) && j <= 2 * c.N()
    ensures LastOf(c, j) < P.g.NumEdges() && P.opt.Allows(LastOf(c, j))
    ensures P.g.from[LastOf(c, j)] == if j == 0 then 0 else P.g.to[LastOf(c, j - 1)]
  {
    assert Street(P, c, LastOf(c, j));
    if j > 0 {
      assert Street(P, c, LastOf(c, j - 1));
    }
  }

  lemma RouteExtends(g: Graph, opt: Options, p: seq<nat>, e: nat)
    requires g.WellFormed() && IsWalk(g, 0, p) && Permitted(opt, p) && e < g.NumEdges() && g.from[e] == g.to[Last(p)] && opt.Allows(e)
    ensures IsWalk(g, 0, p + [e]) && Last(p + [e]) == e && Permitted(opt, p + [e])
  {
    WalkExtend(g, 0, p, e);
  }

  /** Its over-threshold lengths are exactly the list. */
  lemma {:induction false} RouteSpends(P: Problem, c: Course, i: nat)
    requires Setting(P, c) && i <= c.N()
    ensures OverLengths(P.g, P.opt, RouteUpTo(c.K(), 2 * i)) == c.ls[..i]
  {
    var k := c.K();
    if i == 0 {
      assert Street(P, c, 0);
      assert Init([0]) == [] && Last([0]) == 0;
    } else {
      RouteSpends(P, c, i - 1);
      assert 2 * (i - 1) == 2 * i - 2;
      TwoStreetsSpend(P, c, i);
      OneMore(c.ls, i);
    }
  }

  lemma OneMore(ls: seq<real>, i: nat)
    requires 1 <= i <= |ls|
    ensures ls[..i] == ls[..i - 1] + [ls[i - 1]]
  {
  }

  lemma TwoStreetsSpend(P: Problem, c: Course, i: nat)
    requires Setting(P, c) && 1 <= i <= c.N()
    ensures OverLengths(P.g, P.opt, RouteUpTo(c.K(), 2 * i)) == OverLengths(P.g, P.opt, RouteUpTo(c.K(), 2 * i - 2)) + [c.ls[i - 1]]
  {
    StretchIsOver(P, c, i);
    TwoSteps(P.g, P.opt, c.K(), 2 * i - 1);
  }

  lemma StretchIsOver(P: Problem, c: Course, i: nat)
    requires Setting(P, c) && 1 <= i <= c.N()
    ensures var m, l := c.K() + 2 * i - 1, c.K() + 2 * i;
            !P.opt.IsOver(m) && P.opt.IsOver(l) && EdgeLength(P.g, l) == c.ls[i - 1]
  {
    var m, l := c.K() + 2 * i - 1, c.K() + 2 * i;
    assert Street(P, c, m) && Street(P, c, l);
    assert (l - c.K()) / 2 == i;
  }

  /** A plain street and a stretch add the stretch. */
  lemma TwoSteps(g: Graph, opt: Options, k: nat, j: nat)
    requires 1 <= j && !opt.IsOver(k + j) && opt.IsOver(k + j + 1)
    ensures OverLengths(g, opt, RouteUpTo(k, j + 1)) == OverLengths(g, opt, RouteUpTo(k, j - 1)) + [EdgeLength(g, k + j + 1)]
  {
    OneStreetSpends(g, opt, RouteUpTo(k, j - 1), k + j);
    OneStreetSpends(g, opt, RouteUpTo(k, j), k + j + 1);
  }

  lemma OneStreetSpends(g: Graph, opt: Options, p: seq<nat>, e: nat)
    ensures OverLengths(g, opt, p + [e]) == OverLengths(g, opt, p) + if opt.IsOver(e) then [EdgeLength(g, e)] else []
  {
    Snoc(p, e);
  }

  lemma TrapOffers(P: Problem, c: Course)
    requires Setting(P, c)
    ensures IsRoute(P.g, 0, P.goal, RouteUpTo(c.K(), 2 * c.N())) && Permitted(P.opt, RouteUpTo(c.K(), 2 * c.N()))
    ensures OverLengths(P.g, P.opt, RouteUpTo(c.K(), 2 * c.N())) == c.ls
  {
    RouteSpends(P, c, c.N());
    assert c.ls[..c.N()] == c.ls;
    RouteArrives(P, c);
  }

  lemma RouteArrives(P: Problem, c: Course)
    requires Setting(P, c)
    ensures IsRoute(P.g, 0, P.goal, RouteUpTo(c.K(), 2 * c.N())) && Permitted(P.opt, RouteUpTo(c.K(), 2 * c.N()))
  {
    var p := RouteUpTo(c.K(), 2 * c.N());
    RouteIsWalk(P, c, 2 * c.N());
    assert Street(P, c, Last(p));
  }

  // ------------------------------------------------------------- the trap closes

  function TrapRequest(c: Course, plain: real, opt: Options): Request {
    Request(Streets(c, plain), 0, 2 * c.N() + 1, opt)
  }

  lemma NothingFound(P: Problem, c: Course, path: Path, final: Run)
    requires Setting(P, c) && P == MakeProblem(P.g, P.start, P.goal, P.opt)
    ensures !Explained(P.g, P.start, P.goal, P.opt, Found(path), final)
  {
    if Explained(P.g, P.start, P.goal, P.opt, Found(path), final) {
      NothingPopped(P, c, final, path);
    }
  }

  lemma NeverFound(P: Problem, c: Course, o: Outcome, final: Run)
    requires Setting(P, c) && P == MakeProblem(P.g, P.start, P.goal, P.opt)
    requires Explained(P.g, P.start, P.goal, P.opt, o, final)
    ensures !o.Found?
  {
    if o.Found? {
      NothingFound(P, c, o.path, final);
    }
  }

  /** The request offers the course's route, yet no outcome of the search is a route. */
  ghost predicate Refuses(q: Request, c: Course) {
    q.Ok() && q.Offers(RouteUpTo(c.K(), 2 * c.N()), c.ls) && forall o {:trigger q.EndsIn(o)} :: q.EndsIn(o) ==> !o.Found?
  }

  /** A set trap refuses. */
  lemma TrapRefuses(c: Course, plain: real, opt: Options, step: real, nb: nat)
    requires IsTrap(c, plain, opt, step, nb)
    ensures Refuses(TrapRequest(c, plain, opt), c)
  {
    RequestSetting(c, plain, opt, step, nb);
    SettingRefuses(TrapRequest(c, plain, opt), c);
  }

  lemma SettingRefuses(q: Request, c: Course)
    requires Setting(MakeProblem(q.g, q.start, q.goal, q.opt), c)
    ensures Refuses(q, c)
  {
    var P := MakeProblem(q.g, q.start, q.goal, q.opt);
    TrapOffers(P, c);
    NeverEndsFound(q, P, c);
  }

  lemma NeverEndsFound(q: Request, P: Problem, c: Course)
    requires q.Ok() && Setting(P, c) && P == MakeProblem(q.g, q.start, q.goal, q.opt)
    ensures forall o {:trigger q.EndsIn(o)} :: q.EndsIn(o) ==> !o.Found?
  {
    forall o | q.EndsIn(o) ensures !o.Found? {
      var final :| Explained(q.g, q.start, q.goal, q.opt, o, final);
      NeverFound(P, c, o, final);
    }
  }

  /** With a cap no lower than the number of states it does end, in "unroutable". */
  lemma TrapIsNotServed(c: Course, plain: real, opt: Options, step: real, nb: nat)
    requires IsTrap(c, plain, opt, step, nb) && NumStates(c.NumEdges(), nb) <= MaxExpansions(opt)
    ensures var q := TrapRequest(c, plain, opt); q.Ok() && q.Offers(RouteUpTo(c.K(), 2 * c.N()), c.ls) && !q.Served()
  {
    TrapRefuses(c, plain, opt, step, nb);
    RefusedIsNotServed(TrapRequest(c, plain, opt), c);
  }

  lemma RefusedIsNotServed(q: Request, c: Course)
    requires Refuses(q, c) && NumStates(q.g.NumEdges(), BudgetBuckets(q.opt).0) <= MaxExpansions(q.opt)
    ensures !q.Served()
  {
    var o, final := Outcomes.SomeOutcome(q.g, q.start, q.goal, q.opt);
    assert q.EndsIn(o);
  }

  // ------------------------------------------------------------- any request

  /** Prices that make every bait cheap. */
  function BaitedCourse(ls: seq<real>, baits: seq<real>): Course {
    Course(ls, baits, (e: nat) => if e == 0 then 5.0 else 1.0, 0.0)
  }

  function Rider(c: Course, budget: real, nb: nat): Options {
    Options(c.price, Wrappers.None, Wrappers.None, Wrappers.Some((e: nat) => c.IsOver(e)), budget, nb, c.NumEdges() * nb, true)
  }

  lemma RiderBuckets(c: Course, budget: real, nb: nat)
    requires 0.0 < budget && 1 <= nb <= MAX_BUDGET_STEPS
    ensures var step := budget / nb as real;
            BudgetBuckets(Rider(c, budget, nb)) == (nb, step) && 0.0 < step && Widths(nb, step) == budget
  {
    WidthsIsProduct(nb, budget / nb as real);
  }

  lemma RiderCap(c: Course, budget: real, nb: nat)
    requires 1 <= nb
    ensures NumStates(c.NumEdges(), nb) == MaxExpansions(Rider(c, budget, nb))
  {
    assert 0 < c.NumEdges() * nb;
  }

  lemma RiderIsTrap(ls: seq<real>, baits: seq<real>, budget: real, nb: nat)
    requires NonNegative(ls) && 0.0 < budget && 1 <= nb <= MAX_BUDGET_STEPS
    requires 0.0 < budget / nb as real && AreBaits(ls, baits, budget / nb as real, nb)
    ensures var c := BaitedCourse(ls, baits); IsTrap(c, 1.0, Rider(c, budget, nb), budget / nb as real, nb)
  {
    var c := BaitedCourse(ls, baits);
    BaitsNonNegative(ls, baits, budget / nb as real, nb);
    StreetsWellFormed(c, 1.0);
    RiderBuckets(c, budget, nb);
  }

  /**
   A list of over-threshold lengths is served on every request whose route has
   it, if and only if its lengths, each rounded up to whole buckets, leave one
   bucket of the budget over.
   */
  lemma ServedExactlyWhenCeilingsFit(ls: seq<real>, budget: real, nb: nat)
    requires NonNegative(ls) && 0.0 < budget && 1 <= nb <= MAX_BUDGET_STEPS && 0.0 < budget / nb as real
    ensures AlwaysServed(ls, budget, nb) <==> Ceilings(ls, budget / nb as real) <= nb - 1
  {
    if Ceilings(ls, budget / nb as real) <= nb - 1 {
      forall q: Request, p | q.Ok() && q.opt.budgetM == budget && BudgetBuckets(q.opt).0 == nb && BudgetBuckets(q.opt).1 > 0.0 && q.Offers(p, ls)
        ensures q.Served()
      {
        CeilingsServe(q, p, ls, budget, nb);
      }
    } else {
      SomeRequestIsNotServed(ls, budget, nb);
    }
  }

  lemma SomeRequestIsNotServed(ls: seq<real>, budget: real, nb: nat)
    requires NonNegative(ls) && 0.0 < budget && 1 <= nb <= MAX_BUDGET_STEPS && 0.0 < budget / nb as real
    requires Ceilings(ls, budget / nb as real) > nb - 1
    ensures !AlwaysServed(ls, budget, nb)
  {
    var step := budget / nb as real;
    var baits := BaitsForOverrun(ls, step, nb);
    var c := BaitedCourse(ls, baits);
    RiderIsTrap(ls, baits, budget, nb);
    RiderCap(c, budget, nb);
    RiderBuckets(c, budget, nb);
    TrapIsNotServed(c, 1.0, Rider(c, budget, nb), step, nb);
  }

  // ------------------------------------------------------- the handler's requests

  /** What a metre over the threshold costs a rider, on a street of the highest stress and nothing else amiss. */
  function Dread(profile: Safety.Profile): real {
    1.0 + (profile.weightLTS * 5.0 + profile.weightLTS * 12.0)
  }

  /** A plain street longer than any bait is dear. */
  function LongStreet(profile: Safety.Profile): real {
    Dread(profile) * profile.stressBudgetM + 1.0
  }

  function HandlerPrice(profile: Safety.Profile, base: Course): nat -> real {
    (e: nat) => if base.IsOver(e) then base.Spend(e) * Dread(profile) else LongStreet(profile)
  }

  /** The course at the safety model's prices, with a straight turn at every junction. */
  function HandlerCourse(profile: Safety.Profile, ls: seq<real>, baits: seq<real>): Course {
    var base := Course(ls, baits, (e: nat) => 0.0, 0.0);
    Course(ls, baits, HandlerPrice(profile, base), profile.weightTurn * 6.0)
  }

  predicate HasBudget(profile: Safety.Profile) {
    Safety.Validate(profile) == Wrappers.None && profile.maxLTS <= 3 && 0.0 < profile.stressBudgetM
  }

  lemma DreadAtLeastOne(profile: Safety.Profile)
    requires HasBudget(profile)
    ensures 1.0 <= Dread(profile) && 0.0 <= profile.weightTurn * 6.0
  {
    var w := profile.Weights();
    assert 0.0 <= w[0] && 0.0 <= w[5];
  }

  lemma Scale(a: real, b: real, k: real)
    requires a <= b && 0.0 <= k
    ensures a * k <= b * k
  {
  }

  /** A stretch or bait within the budget is cheaper than a long street. */
  lemma WithinLongStreet(profile: Safety.Profile, s: real)
    requires HasBudget(profile) && 0.0 <= s <= profile.stressBudgetM
    ensures 0.0 <= s * Dread(profile) < LongStreet(profile)
  {
    DreadAtLeastOne(profile);
    Scale(0.0, s, Dread(profile));
    Scale(s, profile.stressBudgetM, Dread(profile));
  }

  lemma HandlerPriceIs(profile: Safety.Profile, ls: seq<real>, baits: seq<real>, e: nat)
    ensures var c := HandlerCourse(profile, ls, baits);
            c.price(e) == if c.IsOver(e) then c.Spend(e) * Dread(profile) else LongStreet(profile)
  {
  }

  lemma SpendNonNegative(c: Course, e: nat)
    requires NonNegative(c.ls) && NonNegative(c.baits) && 1 <= c.K() <= c.N()
    ensures 0.0 <= c.Spend(e)
  {
    LengthsNonNegative(c, 0.0, e);
  }

  lemma HandlerPricesNonNegative(profile: Safety.Profile, ls: seq<real>, baits: seq<real>, e: nat)
    requires HasBudget(profile) && NonNegative(ls) && NonNegative(baits) && 1 <= |baits| <= |ls|
    ensures 0.0 <= HandlerCourse(profile, ls, baits).price(e)
  {
    var c := HandlerCourse(profile, ls, baits);
    HandlerPriceIs(profile, ls, baits, e);
    SpendNonNegative(c, e);
    DreadAtLeastOne(profile);
    WithinLongStreet(profile, 0.0);
    Scale(0.0, c.Spend(e), Dread(profile));
  }

  /** Arriving over a long street costs more than any bait. */
  lemma HandlerBaitsAreCheaper(profile: Safety.Profile, ls: seq<real>, baits: seq<real>)
    requires HasBudget(profile) && NonNegative(ls) && NonNegative(baits) && 1 <= |baits| <= |ls|
    requires forall i :: 0 <= i < |baits| ==> baits[i] <= profile.stressBudgetM
    ensures HandlerCourse(profile, ls, baits).BaitsAreCheaper()
  {
    var c := HandlerCourse(profile, ls, baits);
    DreadAtLeastOne(profile);
    forall e: nat | e < c.NumEdges() ensures 0.0 <= c.price(e) {
      HandlerPricesNonNegative(profile, ls, baits, e);
    }
    BaitBeatsLongStreet(profile, ls, baits, 0);
    HandlerPriceIs(profile, ls, baits, 0);
    forall i: nat | i + 1 < c.K() ensures c.price(c.Bait(i + 1)) < c.StretchCost(i) {
      BaitBeatsLongStreet(profile, ls, baits, i + 1);
      PlainIsLong(profile, ls, baits, i);
      HandlerPricesNonNegative(profile, ls, baits, c.Bait(i));
      HandlerPricesNonNegative(profile, ls, baits, c.Stretch(i));
    }
  }

  lemma BaitBeatsLongStreet(profile: Safety.Profile, ls: seq<real>, baits: seq<real>, i: nat)
    requires HasBudget(profile) && NonNegative(baits) && i < |baits| <= |ls| && baits[i] <= profile.stressBudgetM
    ensures var c := HandlerCourse(profile, ls, baits); c.price(c.Bait(i)) < LongStreet(profile)
  {
    var c := HandlerCourse(profile, ls, baits);
    StreetSpends(c, i);
    HandlerPriceIs(profile, ls, baits, c.Bait(i));
    WithinLongStreet(profile, baits[i]);
  }

  lemma PlainIsLong(profile: Safety.Profile, ls: seq<real>, baits: seq<real>, i: nat)
    requires i < |baits| <= |ls|
    ensures var c := HandlerCourse(profile, ls, baits); c.price(c.Plain(i)) == LongStreet(profile)
  {
    var c := HandlerCourse(profile, ls, baits);
    StreetSpends(c, i);
    HandlerPriceIs(profile, ls, baits, c.Plain(i));
  }

  /** The safety model prices the streets this way. */
  lemma ModelPrices(m: Safety.Model, g: Graph, e: nat, over: bool)
    requires HasBudget(m.profile) && m.hazards == [] && g.HasAttributes() && |g.lengthM| == g.NumEdges() && e < g.NumEdges()
    requires g.lts[e] == (if over then 4 else 1) && g.crashScore[e] == 0.0 && g.gradePct[e] == 0.0
    requires g.surface[e] == SurfaceUnknown && g.lit[e] == LitUnknown
    ensures m.EdgeCost(g, e) == g.lengthM[e] * (if over then Dread(m.profile) else 1.0)
    ensures m.Over(g, e) == over && m.Allow(g, e)
  {
    assert m.StressTerm(g.lts[e]) == if over then m.profile.weightLTS * 5.0 + m.profile.weightLTS * 12.0 else 0.0;
  }

  lemma ModelTurns(m: Safety.Model, g: Graph, d: nat, e: nat)
    requires g.WellFormed() && g.HasAttributes() && d < g.NumEdges() && e < g.NumEdges() && !g.IsReverseOf(d, e)
    requires g.bearingEnd[d] == 0.0 && g.bearingStart[e] == 0.0 && g.nodeMaxLTS[g.to[d]] == 0 && g.control[g.to[d]] == NoControl
    requires g.infra[d] == InfraNone
    ensures m.TurnCost(g, d, e) == m.profile.weightTurn * 6.0
  {
    assert (540.0 / 360.0).Floor == 1;
    assert m.ClassifyTurn(g, d, e) == Safety.Straight;
  }

  lemma HandlerPriced(profile: Safety.Profile, ls: seq<real>, baits: seq<real>)
    requires HasBudget(profile) && NonNegative(ls) && NonNegative(baits) && 1 <= |baits| <= |ls|
    requires forall i :: 0 <= i < |baits| ==> baits[i] <= profile.stressBudgetM
    ensures var c := HandlerCourse(profile, ls, baits);
            var g := Streets(c, LongStreet(profile));
            g.WellFormed() && g.HasAttributes() && PricedAs(g, Safety.RouteOptions(Safety.Model(profile, []), g), c)
  {
    var c := HandlerCourse(profile, ls, baits);
    var g := Streets(c, LongStreet(profile));
    CourseIsBuilt(profile, c);
    HandlerBaitsAreCheaper(profile, ls, baits);
    var opt := Safety.RouteOptions(Safety.Model(profile, []), g);
    forall e: nat | e < g.NumEdges() ensures opt.edgeCost(e) == c.price(e) && opt.Allows(e) && (opt.IsOver(e) <==> c.IsOver(e)) {
      HandlerPricesStreet(profile, ls, baits, e);
    }
    forall d, e | 0 <= d < g.NumEdges() && 0 <= e < g.NumEdges() && g.to[d] == g.from[e] ensures opt.Turn(d, e) == c.turn {
      HandlerPricesTurn(profile, ls, baits, d, e);
    }
  }

  lemma HandlerPricesStreet(profile: Safety.Profile, ls: seq<real>, baits: seq<real>, e: nat)
    requires CourseWithin(profile, HandlerCourse(profile, ls, baits)) && e < HandlerCourse(profile, ls, baits).NumEdges()
    ensures var c := HandlerCourse(profile, ls, baits);
            var g := Streets(c, LongStreet(profile));
            g.WellFormed() && g.HasAttributes()
            && var opt := Safety.RouteOptions(Safety.Model(profile, []), g);
            opt.edgeCost(e) == c.price(e) && opt.Allows(e) && (opt.IsOver(e) <==> c.IsOver(e))
  {
    var c := HandlerCourse(profile, ls, baits);
    CourseIsBuilt(profile, c);
    ModelPrices(Safety.Model(profile, []), Streets(c, LongStreet(profile)), e, c.IsOver(e));
    HandlerPriceIs(profile, ls, baits, e);
  }

  lemma HandlerPricesTurn(profile: Safety.Profile, ls: seq<real>, baits: seq<real>, d: nat, e: nat)
    requires CourseWithin(profile, HandlerCourse(profile, ls, baits))
    requires var c := HandlerCourse(profile, ls, baits); d < c.NumEdges() && e < c.NumEdges() && c.To(d) == c.From(e)
    ensures var c := HandlerCourse(profile, ls, baits);
            var g := Streets(c, LongStreet(profile));
            g.WellFormed() && g.HasAttributes() && Safety.RouteOptions(Safety.Model(profile, []), g).Turn(d, e) == c.turn
  {
    var c := HandlerCourse(profile, ls, baits);
    CourseIsBuilt(profile, c);
    StreetsGoOn(c, d, e);
    ModelTurns(Safety.Model(profile, []), Streets(c, LongStreet(profile)), d, e);
  }

  /** No street leads back. */
  lemma StreetsGoOn(c: Course, d: nat, e: nat)
    requires d < c.NumEdges() && e < c.NumEdges() && c.To(d) == c.From(e)
    ensures c.To(e) != c.From(d)
  {
  }

  /** More over-threshold stretches than this and the default cap on expansions might come first. */
  const MANY: nat := 300_000

  /**
   Of the requests the route handler makes for a rider with a budget and a
   threshold, a list of over-threshold lengths is always served if and only if
   its ceilings in quarters of the budget sum to at most three.
   */
  lemma HandlerServesExactlyWhenCeilingsFit(ls: seq<real>, profile: Safety.Profile)
    requires NonNegative(ls) && HasBudget(profile) && |ls| <= MANY && 0.0 < profile.stressBudgetM / 4 as real
    ensures AlwaysServedByHandler(ls, profile) <==> Ceilings(ls, profile.stressBudgetM / 4 as real) <= 3
  {
    if Ceilings(ls, profile.stressBudgetM / 4 as real) <= 3 {
      forall q: Request, p, hazards | q.Ok() && q.g.HasAttributes() && q.opt == Safety.RouteOptions(Safety.Model(profile, hazards), q.g) && q.Offers(p, ls)
        ensures q.Served()
      {
        HandlerServes(ls, profile, q, p, hazards);
      }
    } else {
      SomeHandlerRequestIsNotServed(ls, profile);
    }
  }

  lemma HandlerServes(ls: seq<real>, profile: Safety.Profile, q: Request, p: seq<nat>, hazards: seq<real>)
    requires NonNegative(ls) && HasBudget(profile) && 0.0 < profile.stressBudgetM / 4 as real
    requires Ceilings(ls, profile.stressBudgetM / 4 as real) <= 3
    requires q.Ok() && q.g.HasAttributes() && q.opt == Safety.RouteOptions(Safety.Model(profile, hazards), q.g) && q.Offers(p, ls)
    ensures q.Served()
  {
    HandlerBuckets(profile, hazards, q.g);
    CeilingsServe(q, p, ls, profile.stressBudgetM, 4);
  }

  lemma HandlerBuckets(profile: Safety.Profile, hazards: seq<real>, g: Graph)
    requires HasBudget(profile) && g.WellFormed() && g.HasAttributes()
    ensures var opt, step := Safety.RouteOptions(Safety.Model(profile, hazards), g), profile.stressBudgetM / 4 as real;
            BudgetBuckets(opt) == (4, step) && opt.budgetM == profile.stressBudgetM && Widths(4, step) == opt.budgetM
            && MaxExpansions(opt) == DEFAULT_MAX_EXPANSIONS
  {
    WidthsIsProduct(4, profile.stressBudgetM / 4 as real);
  }

  lemma SomeHandlerRequestIsNotServed(ls: seq<real>, profile: Safety.Profile)
    requires NonNegative(ls) && HasBudget(profile) && |ls| <= MANY && 0.0 < profile.stressBudgetM / 4 as real
    requires Ceilings(ls, profile.stressBudgetM / 4 as real) > 3
    ensures !AlwaysServedByHandler(ls, profile)
  {
    var step := profile.stressBudgetM / 4 as real;
    var baits := BaitsForOverrun(ls, step, 4);
    HandlerRefuses(ls, baits, profile);
    OneIsNotServed(ls, profile, HandlerCourse(profile, ls, baits));
  }

  ghost predicate CourseWithin(profile: Safety.Profile, c: Course) {
    HasBudget(profile) && NonNegative(c.ls) && NonNegative(c.baits) && 1 <= c.K() <= c.N()
  }

  lemma CourseIsBuilt(profile: Safety.Profile, c: Course)
    requires CourseWithin(profile, c)
    ensures var g := Streets(c, LongStreet(profile)); g.WellFormed() && g.HasAttributes()
  {
    WithinLongStreet(profile, 0.0);
    StreetsWellFormed(c, LongStreet(profile));
  }

  /** The handler's request on the course. */
  function HandlerRequest(profile: Safety.Profile, c: Course): Request
    requires CourseWithin(profile, c)
  {
    CourseIsBuilt(profile, c);
    var g := Streets(c, LongStreet(profile));
    TrapRequest(c, LongStreet(profile), Safety.RouteOptions(Safety.Model(profile, []), g))
  }

  lemma OneIsNotServed(ls: seq<real>, profile: Safety.Profile, c: Course)
    requires c.ls == ls && CourseWithin(profile, c) && HandlerRequest(profile, c).g.HasAttributes()
    requires Refuses(HandlerRequest(profile, c), c) && !HandlerRequest(profile, c).Served()
    ensures !AlwaysServedByHandler(ls, profile)
  {
    assert Safety.Model(profile, []).profile == profile;
  }

  lemma HandlerRefuses(ls: seq<real>, baits: seq<real>, profile: Safety.Profile)
    requires NonNegative(ls) && HasBudget(profile) && |ls| <= MANY && 0.0 < profile.stressBudgetM / 4 as real
    requires AreBaits(ls, baits, profile.stressBudgetM / 4 as real, 4)
    ensures var c := HandlerCourse(profile, ls, baits);
            CourseWithin(profile, c) && HandlerRequest(profile, c).g.HasAttributes()
            && Refuses(HandlerRequest(profile, c), c) && !HandlerRequest(profile, c).Served()
  {
    var c := HandlerCourse(profile, ls, baits);
    BaitsNonNegative(ls, baits, profile.stressBudgetM / 4 as real, 4);
    HandlerIsTrap(ls, baits, profile);
    HandlerBuckets(profile, [], Streets(c, LongStreet(profile)));
    TrapRefuses(c, LongStreet(profile), HandlerRequest(profile, c).opt, profile.stressBudgetM / 4 as real, 4);
    RefusedIsNotServed(HandlerRequest(profile, c), c);
  }

  lemma HandlerIsTrap(ls: seq<real>, baits: seq<real>, profile: Safety.Profile)
    requires NonNegative(ls) && HasBudget(profile) && 0.0 < profile.stressBudgetM / 4 as real
    requires AreBaits(ls, baits, profile.stressBudgetM / 4 as real, 4)
    ensures var c := HandlerCourse(profile, ls, baits);
            var g := Streets(c, LongStreet(profile));
            g.WellFormed() && g.HasAttributes()
            && IsTrap(c, LongStreet(profile), Safety.RouteOptions(Safety.Model(profile, []), g), profile.stressBudgetM / 4 as real, 4)
  {
    var step := profile.stressBudgetM / 4 as real;
    var c := HandlerCourse(profile, ls, baits);
    BaitsNonNegative(ls, baits, step, 4);
    BaitsWithinBudget(ls, baits, step, 4, profile.stressBudgetM);
    HandlerPriced(profile, ls, baits);
    WithinLongStreet(profile, 0.0);
    HandlerBuckets(profile, [], Streets(c, LongStreet(profile)));
  }

  lemma BaitsWithinBudget(ls: seq<real>, baits: seq<real>, step: real, nb: nat, budget: real)
    requires NonNegative(ls) && 0.0 < step && 1 <= nb && AreBaits(ls, baits, step, nb) && nb as real * step == budget
    ensures forall i :: 0 <= i < |baits| ==> baits[i] <= budget
  {
    WidthsIsProduct(nb, step);
    forall i | 0 <= i < |baits| ensures baits[i] <= budget {
      BaitOpens(ls, baits, step, nb, i);
    }
  }

  // ---------------------------------------------------------- the note refuted

  /** Two stretches of 1 and 3 take a bucket of 10 each. */
  lemma FrugalCeilings()
    ensures NonNegative([1.0, 3.0]) && Ceilings([1.0, 3.0], 10.0) == 2 && 20.0 / 2 as real == 10.0
  {
    CeilOfOne(1.0);
    CeilOfOne(3.0);
    CeilingsSnoc([], 1.0, 10.0);
    CeilingsSnoc([1.0], 3.0, 10.0);
    assert [] + [1.0] == [1.0] && [1.0] + [3.0] == [1.0, 3.0];
  }

  lemma CeilOfOne(l: real)
    requires 0.0 < l <= 10.0
    ensures CeilSteps(l, 10.0) == 1
  {
    assert Widths(1, 10.0) == Widths(0, 10.0) + 10.0;
    if CeilSteps(l, 10.0) >= 2 {
      WidthsGrow(1, CeilSteps(l, 10.0) - 1, 10.0);
    }
  }

  /** A route that spends 4 of a budget of 20 in buckets of 10, six more than a bucket below it, can be missed. */
  lemma OneBucketClaimFails()
    ensures 1.0 + 3.0 <= 20.0 - 20.0 / 2 as real && !AlwaysServed([1.0, 3.0], 20.0, 2)
  {
    FrugalCeilings();
    ServedExactlyWhenCeilingsFit([1.0, 3.0], 20.0, 2);
  }

  lemma FrugalBaits()
    ensures NonNegative([1.0, 3.0]) && AreBaits([1.0, 3.0], [9.0, 18.0], 10.0, 2)
  {
    var ls, baits := [1.0, 3.0], [9.0, 18.0];
    FrugalCeilings();
    CeilOfOne(1.0);
    CeilOfOne(3.0);
    StartStep(ls, 10.0, 0);
    StartStep(ls, 10.0, 1);
    assert Widths(2, 10.0) == Widths(1, 10.0) + 10.0 && Widths(1, 10.0) == Widths(0, 10.0) + 10.0;
    InBucket(9.0, 0, 10.0, 2);
    InBucket(18.0, 1, 10.0, 2);
  }

  /** The search itself, given that route and baits that spend 9 and 18, gives up. */
  method RefusesFrugalRoute() returns (o: Outcome)
    ensures o == Unroutable
    ensures var c := BaitedCourse([1.0, 3.0], [9.0, 18.0]);
            var q := TrapRequest(c, 1.0, Rider(c, 20.0, 2));
            q.Ok() && q.Offers(RouteUpTo(2, 4), [1.0, 3.0]) && q.opt.budgetM == 20.0
  {
    var c := BaitedCourse([1.0, 3.0], [9.0, 18.0]);
    FrugalCeilings();
    FrugalBaits();
    RiderIsTrap([1.0, 3.0], [9.0, 18.0], 20.0, 2);
    TrapRefuses(c, 1.0, Rider(c, 20.0, 2), 10.0, 2);
    RiderCap(c, 20.0, 2);
    RiderBuckets(c, 20.0, 2);
    var q := TrapRequest(c, 1.0, Rider(c, 20.0, 2));
    var released;
    ghost var final;
    o, released, final := Search.Search(null, q.g, q.start, q.goal, q.opt);
    assert q.EndsIn(o);
  }
}
