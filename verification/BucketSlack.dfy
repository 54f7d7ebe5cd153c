/**
 What bucketing loses. The note on the stress budget says a route is more
 conservative than necessary "by at most one bucket's width"
 (internal/routing/search.go:113-127). That is so of routes with at most one
 over-threshold edge; in general the loss is up to one bucket for every such
 edge, because at each merge the cheaper label that survives may have spent
 almost a whole bucket more, and those losses add up along a route.

 Here are the bound in metres and the arithmetic of buckets. Modules BaitTrap
 and ServedLengths show that the bound is what bucketing costs: they say exactly
 which lists of over-threshold lengths are served on every request.
 */
module BucketSlack {
  import opened RoadGraph
  import opened Walks
  import opened StateSpace
  import opened Search

  // ---------------------------------------------------------- the loss in metres

  /** How many over-threshold edges of the walk have any length. */
  function OverEdges(g: Graph, opt: Options, p: seq<nat>): nat {
    if p == [] then 0 else OverEdges(g, opt, Init(p)) + if OverM(g, opt, Last(p)) != 0.0 then 1 else 0
  }

  /** Rounding up costs less than one bucket an edge. */
  lemma {:induction false} RoundingLoss(g: Graph, opt: Options, p: seq<nat>)
    requires g.WellFormed() && BudgetBuckets(opt).1 > 0.0
    ensures var step := BudgetBuckets(opt).1;
            if OverEdges(g, opt, p) == 0 then Units(g, opt, p) == 0
            else Widths(Units(g, opt, p), step) < OverLength(g, opt, p) + Widths(OverEdges(g, opt, p), step)
  {
    if p != [] {
      var step := BudgetBuckets(opt).1;
      RoundingLoss(g, opt, Init(p));
      OverLengthNonNegative(g, opt, Init(p));
      WidthsSum(Units(g, opt, Init(p)), EdgeUnits(g, opt, Last(p)), step);
      if OverM(g, opt, Last(p)) != 0.0 {
        var k := CeilSteps(EdgeLength(g, Last(p)), step);
        assert Widths(k, step) == Widths(k - 1, step) + step;
      }
    }
  }

  /** A route that leaves one bucket unspent for each of its over-threshold edges fits, whatever their lengths. */
  lemma OneBucketAnEdge(g: Graph, start: int, goal: int, opt: Options, p: seq<nat>)
    requires g.WellFormed() && BudgetBuckets(opt).1 > 0.0 && IsRoute(g, start, goal, p)
    requires OverLength(g, opt, p) + Widths(OverEdges(g, opt, p), BudgetBuckets(opt).1) <= opt.budgetM
    ensures Fits(g, opt, p)
  {
    var (nb, step) := BudgetBuckets(opt);
    RoundingLoss(g, opt, p);
    if Units(g, opt, p) >= nb {
      WidthsGrow(nb, Units(g, opt, p), step);
    }
  }

  /** So the note is right about routes with at most one over-threshold edge: one that stays a bucket below the budget is never missed. */
  lemma OneBucketForOneEdge(g: Graph, start: int, goal: int, opt: Options, o: Outcome, p: seq<nat>)
    requires g.WellFormed() && BudgetBuckets(opt).1 > 0.0 && SearchSpec(g, start, goal, opt, o)
    requires IsRoute(g, start, goal, p) && Permitted(opt, p) && OverEdges(g, opt, p) <= 1
    requires OverLength(g, opt, p) <= opt.budgetM - BudgetBuckets(opt).1
    ensures o != Unroutable
    ensures o.Found? && InRange(g, goal) && ConsistentEstimate(g, goal, opt) ==> o.path.cost <= WalkCost(opt, p)
  {
    var step := BudgetBuckets(opt).1;
    assert Widths(1, step) == Widths(0, step) + step;
    OneBucketAnEdge(g, start, goal, opt, p);
  }

  // --------------------------------------------------------- lists of lengths

  predicate NonNegative(ls: seq<real>) {
    forall i :: 0 <= i < |ls| ==> 0.0 <= ls[i]
  }

  /** The buckets a list of lengths takes up, each length rounded up. */
  function Ceilings(ls: seq<real>, step: real): nat
    requires NonNegative(ls) && 0.0 < step
  {
    if ls == [] then 0 else Ceilings(ls[..|ls| - 1], step) + CeilSteps(ls[|ls| - 1], step)
  }

  /** The lengths of the over-threshold edges along a walk. */
  function OverLengths(g: Graph, opt: Options, p: seq<nat>): seq<real> {
    if p == [] then [] else OverLengths(g, opt, Init(p)) + if opt.IsOver(Last(p)) then [EdgeLength(g, Last(p))] else []
  }

  lemma CeilingsSnoc(ls: seq<real>, l: real, step: real)
    requires NonNegative(ls) && 0.0 <= l && 0.0 < step
    ensures NonNegative(ls + [l]) && Ceilings(ls + [l], step) == Ceilings(ls, step) + CeilSteps(l, step)
  {
    assert (ls + [l])[..|ls|] == ls;
  }

  lemma {:induction false} OverLengthsNonNegative(g: Graph, opt: Options, p: seq<nat>)
    requires g.WellFormed()
    ensures NonNegative(OverLengths(g, opt, p))
  {
    if p != [] {
      OverLengthsNonNegative(g, opt, Init(p));
    }
  }

  lemma {:induction false} UnitsAreCeilings(g: Graph, opt: Options, p: seq<nat>)
    requires g.WellFormed() && BudgetBuckets(opt).1 > 0.0 && NonNegative(OverLengths(g, opt, p))
    ensures Units(g, opt, p) == Ceilings(OverLengths(g, opt, p), BudgetBuckets(opt).1)
  {
    if p != [] {
      OverLengthsNonNegative(g, opt, Init(p));
      UnitsAreCeilings(g, opt, Init(p));
      if opt.IsOver(Last(p)) {
        CeilingsSnoc(OverLengths(g, opt, Init(p)), EdgeLength(g, Last(p)), BudgetBuckets(opt).1);
      } else {
        assert OverLengths(g, opt, p) == OverLengths(g, opt, Init(p));
      }
    }
  }

  // -------------------------------------------------------------------- baits

  /** The buckets spent, rounded up, before length `i`. */
  function Start(ls: seq<real>, step: real, i: nat): nat
    requires NonNegative(ls) && 0.0 < step && i <= |ls|
  {
    Ceilings(ls[..i], step)
  }

  lemma StartStep(ls: seq<real>, step: real, i: nat)
    requires NonNegative(ls) && 0.0 < step && i < |ls|
    ensures Start(ls, step, i + 1) == Start(ls, step, i) + CeilSteps(ls[i], step)
  {
    CeilingsSnoc(ls[..i], ls[i], step);
    assert ls[..i + 1] == ls[..i] + [ls[i]];
  }

  /** The length at which a list overruns the buckets. */
  lemma {:induction false} FirstOverrun(ls: seq<real>, step: real, nb: nat) returns (k: nat)
    requires NonNegative(ls) && 0.0 < step && 1 <= nb && Ceilings(ls, step) >= nb
    ensures k < |ls| && Start(ls, step, k + 1) >= nb && forall i :: 0 <= i <= k ==> Start(ls, step, i) <= nb - 1
  {
    var init := ls[..|ls| - 1];
    if Ceilings(init, step) >= nb {
      k := FirstOverrun(init, step, nb);
      assert init[..k + 1] == ls[..k + 1];
      forall i | 0 <= i <= k ensures Start(ls, step, i) <= nb - 1 {
        assert init[..i] == ls[..i];
        assert Start(init, step, i) <= nb - 1;
      }
    } else {
      k := |ls| - 1;
      assert ls[..|ls|] == ls;
      forall i | 0 <= i <= k ensures Start(ls, step, i) <= nb - 1 {
        StartsRise(ls, step, i, k);
      }
    }
  }

  lemma {:induction false} StartsRise(ls: seq<real>, step: real, i: nat, j: nat)
    requires NonNegative(ls) && 0.0 < step && i <= j <= |ls|
    ensures Start(ls, step, i) <= Start(ls, step, j)
  {
    if i < j {
      StartsRise(ls, step, i, j - 1);
      StartStep(ls, step, j - 1);
    }
  }

  lemma InBucket(used: real, b: nat, step: real, nb: nat)
    requires 0.0 < step && b < nb && Widths(b, step) <= used < Widths(b, step) + step && 0.0 <= used
    ensures BucketOf(used, step, nb) == b
  {
    if nb > 1 {
      BucketBelow(used, BucketOf(used, step, nb), b, step);
      if BucketOf(used, step, nb) < nb - 1 {
        BucketBelow(used, b, BucketOf(used, step, nb), step);
      }
    }
  }

  /** What a bait spends: it shares a bucket with the route before length `l`, and after it has spent everything up to the next one. */
  ghost predicate Baits(s: real, b: nat, l: real, step: real, nb: nat) {
    && 0.0 <= l && 0.0 < step && b < nb
    && 0.0 <= s <= Widths(nb, step) && BucketOf(s, step, nb) == b
    && if b + CeilSteps(l, step) <= nb - 1 then s + l == Widths(b + CeilSteps(l, step), step) else s + l > Widths(nb, step)
  }

  lemma BaitExists(b: nat, l: real, step: real, nb: nat) returns (s: real)
    requires 0.0 <= l && 0.0 < step && b < nb
    ensures Baits(s, b, l, step, nb)
  {
    var c := CeilSteps(l, step);
    WidthsSum(b, c, step);
    WidthsGrow(0, b, step);
    WidthsGrow(b + 1, nb, step);
    if c > 0 {
      assert Widths(c, step) == Widths(c - 1, step) + step;
    }
    if b + c <= nb - 1 {
      s := Widths(b + c, step) - l;
    } else {
      WidthsGrow(nb, b + c, step);
      var low := Widths(nb, step) - l;
      var floor := if low < Widths(b, step) then Widths(b, step) else low;
      s := (floor + Widths(b, step) + step) / 2.0;
    }
    InBucket(s, b, step, nb);
  }

  ghost predicate AreBaits(ls: seq<real>, baits: seq<real>, step: real, nb: nat)
    requires NonNegative(ls) && 0.0 < step
  {
    && 1 <= |baits| <= |ls|
    && (forall i {:trigger baits[i]} :: 0 <= i < |baits| ==> Baits(baits[i], Start(ls, step, i), ls[i], step, nb))
    && Start(ls, step, |baits|) >= nb
  }

  lemma {:induction false} BaitsExist(ls: seq<real>, step: real, nb: nat, k: nat) returns (baits: seq<real>)
    requires NonNegative(ls) && 0.0 < step && k <= |ls| && forall i :: 0 <= i < k ==> Start(ls, step, i) < nb
    ensures |baits| == k && forall i {:trigger baits[i]} :: 0 <= i < k ==> Baits(baits[i], Start(ls, step, i), ls[i], step, nb)
  {
    if k == 0 {
      baits := [];
    } else {
      baits := BaitsExist(ls, step, nb, k - 1);
      var s := BaitExists(Start(ls, step, k - 1), ls[k - 1], step, nb);
      baits := baits + [s];
    }
  }

  /** Lengths whose ceilings leave no bucket over can be baited. */
  lemma BaitsForOverrun(ls: seq<real>, step: real, nb: nat) returns (baits: seq<real>)
    requires NonNegative(ls) && 0.0 < step && 1 <= nb && Ceilings(ls, step) > nb - 1
    ensures AreBaits(ls, baits, step, nb)
  {
    var k := FirstOverrun(ls, step, nb);
    baits := BaitsExist(ls, step, nb, k + 1);
  }

  /** A bait is affordable, the first shares the bucket of no spend at all, and the last overruns the budget. */
  lemma BaitOpens(ls: seq<real>, baits: seq<real>, step: real, nb: nat, i: nat)
    requires NonNegative(ls) && 0.0 < step && 1 <= nb && AreBaits(ls, baits, step, nb) && i < |baits|
    ensures 0.0 <= baits[i] <= Widths(nb, step)
    ensures i == 0 ==> BucketOf(baits[0], step, nb) == BucketOf(0.0, step, nb)
    ensures i + 1 == |baits| ==> baits[i] + ls[i] > Widths(nb, step)
  {
    assert Baits(baits[i], Start(ls, step, i), ls[i], step, nb);
    StartStep(ls, step, i);
    if i == 0 {
      InBucket(0.0, 0, step, nb);
    }
  }

  /** After bait `i` and the stretch behind it, the spend is the next bucket's first, where the next bait is too. */
  lemma BaitsMeet(ls: seq<real>, baits: seq<real>, step: real, nb: nat, i: nat)
    requires NonNegative(ls) && 0.0 < step && 1 <= nb && AreBaits(ls, baits, step, nb) && i + 1 < |baits|
    ensures 0.0 <= baits[i] + ls[i] && 0.0 <= baits[i + 1]
    ensures BucketOf(baits[i + 1], step, nb) == BucketOf(baits[i] + ls[i], step, nb)
  {
    var next := Start(ls, step, i + 1);
    assert Baits(baits[i], Start(ls, step, i), ls[i], step, nb) && Baits(baits[i + 1], next, ls[i + 1], step, nb);
    StartStep(ls, step, i);
    InBucket(baits[i] + ls[i], next, step, nb);
  }

  lemma BaitsNonNegative(ls: seq<real>, baits: seq<real>, step: real, nb: nat)
    requires NonNegative(ls) && 0.0 < step && AreBaits(ls, baits, step, nb)
    ensures NonNegative(baits)
  {
    forall i | 0 <= i < |baits| ensures 0.0 <= baits[i] {
      assert Baits(baits[i], Start(ls, step, i), ls[i], step, nb);
    }
  }
}
