/**
 The two-dimensional search state: an arrival edge and a budget bucket
 (internal/routing/search.go:264-296).
 */
module StateSpace {
  import opened RoadGraph
  import opened Walks

  const DEFAULT_BUDGET_STEPS: nat := 4
  const MAX_BUDGET_STEPS: nat := 16

  // ------------------------------------------------------------- bucket widths

  /** The combined width of `k` buckets. */
  function Widths(k: nat, step: real): real {
    if k == 0 then 0.0 else Widths(k - 1, step) + step
  }

  lemma {:induction false} WidthsIsProduct(k: nat, step: real)
    ensures Widths(k, step) == k as real * step
  {
    if k > 0 {
      WidthsIsProduct(k - 1, step);
      Distributes((k - 1) as real, 1.0, step);
    }
  }

  lemma Distributes(a: real, b: real, s: real)
    ensures (a + b) * s == a * s + b * s
  {
  }

  lemma {:induction false} NoWidth(k: nat)
    ensures Widths(k, 0.0) == 0.0
  {
    if k > 0 {
      NoWidth(k - 1);
    }
  }

  lemma {:induction false} WidthsSum(j: nat, k: nat, step: real)
    ensures Widths(j + k, step) == Widths(j, step) + Widths(k, step)
  {
    if k > 0 {
      WidthsSum(j, k - 1, step);
    }
  }

  lemma {:induction false} WidthsGrow(j: nat, k: nat, step: real)
    requires j <= k && 0.0 <= step
    ensures Widths(j, step) <= Widths(k, step)
  {
    if j < k {
      WidthsGrow(j, k - 1, step);
    }
  }

  /** A spend before the end of bucket `c` and not before the start of bucket `b` puts `b` at or below `c`. */
  lemma BucketBelow(used: real, b: nat, c: nat, step: real)
    requires 0.0 < step && Widths(b, step) <= used < Widths(c, step) + step
    ensures b <= c
  {
    if c + 1 <= b {
      WidthsGrow(c + 1, b, step);
    }
  }

  lemma ScaledBounds(q: real, b: real, s: real, qs: real, bs: real)
    requires b <= q < b + 1.0 && 0.0 < s
    requires qs == q * s && bs == b * s
    ensures bs <= qs < bs + s
  {
    var low, high := q - b, b + 1.0 - q;
    assert low * s == qs - bs;
    assert high * s == bs + s - qs;
    PositiveProduct(low, s);
    PositiveProduct(high, s);
  }

  lemma PositiveProduct(a: real, b: real)
    requires 0.0 <= a && 0.0 < b
    ensures 0.0 <= a * b && (0.0 < a ==> 0.0 < a * b)
  {
  }

  lemma QuotientTimes(used: real, step: real)
    requires 0.0 <= used && 0.0 < step
    ensures used / step * step == used && 0.0 <= used / step
  {
  }

  /** Truncating division finds the bucket a spend lies in. */
  lemma FloorBounds(used: real, step: real)
    requires 0.0 <= used && 0.0 < step
    ensures var b := (used / step).Floor; 0 <= b && Widths(b, step) <= used < Widths(b, step) + step
  {
    QuotientTimes(used, step);
    FloorTimes(used, used / step, step);
  }

  lemma FloorTimes(used: real, q: real, step: real)
    requires 0.0 <= q && 0.0 < step && q * step == used
    ensures 0 <= q.Floor && Widths(q.Floor, step) <= used < Widths(q.Floor, step) + step
  {
    WidthsIsProduct(q.Floor, step);
    ScaledBounds(q, q.Floor as real, step, used, Widths(q.Floor, step));
  }

  // ------------------------------------------------------------------ bucketing

  /** How many buckets the budget is tracked in, and the width of one; width 0 means no tracking. */
  function BudgetBuckets(opt: Options): (r: (nat, real))
    ensures 1 <= r.0 <= MAX_BUDGET_STEPS
    ensures r.1 > 0.0 <==> opt.over.Some? && opt.budgetM > 0.0
    ensures r.1 > 0.0 ==> Widths(r.0, r.1) == opt.budgetM
    ensures r.1 <= 0.0 ==> r == (1, 0.0)
    ensures r.1 > 0.0 && 1 <= opt.budgetSteps <= MAX_BUDGET_STEPS ==> r.0 == opt.budgetSteps
    ensures r.1 > 0.0 && opt.budgetSteps > MAX_BUDGET_STEPS ==> r.0 == MAX_BUDGET_STEPS
    ensures r.1 > 0.0 && opt.budgetSteps <= 0 ==> r.0 == DEFAULT_BUDGET_STEPS
  {
    if opt.over.None? || opt.budgetM <= 0.0 then
      (1, 0.0)
    else
      var nb := if opt.budgetSteps <= 0 then DEFAULT_BUDGET_STEPS
                else if opt.budgetSteps > MAX_BUDGET_STEPS then MAX_BUDGET_STEPS
                else opt.budgetSteps;
      WidthsIsProduct(nb, opt.budgetM / nb as real);
      (nb, opt.budgetM / nb as real)
  }

  /** The bucket holding a spend of `used`, clamped to the last one. */
  function BucketOf(used: real, step: real, nb: nat): (b: nat)
    requires 1 <= nb && 0.0 <= used
    ensures b < nb
    ensures nb > 1 && step > 0.0 ==> Widths(b, step) <= used
    ensures nb > 1 && step > 0.0 && b < nb - 1 ==> used < Widths(b, step) + step
  {
    if nb == 1 || step <= 0.0 then
      0
    else
      FloorBounds(used, step);
      var b := (used / step).Floor;
      if b >= nb then WidthsGrow(nb - 1, b, step); nb - 1 else b
  }

  /** The least number of bucket widths that cover `len`. */
  function CeilSteps(len: real, step: real): (k: nat)
    requires 0.0 <= len && 0.0 < step
    ensures len <= Widths(k, step)
    ensures k == 0 <==> len == 0.0
    ensures k > 0 ==> Widths(k - 1, step) < len
  {
    FloorBounds(len, step);
    var q := (len / step).Floor;
    if Widths(q, step) == len then q else q + 1
  }

  /**
   How many whole buckets an over-threshold edge of length `len` can advance a
   label: its length in bucket widths, rounded up. With no buckets, any such
   edge that is not empty counts as one bucket too many.
   */
  function LengthUnits(len: real, step: real, budgetM: real): nat
    requires 0.0 <= len
  {
    if step > 0.0 then CeilSteps(len, step)
    else if len == 0.0 && 0.0 <= budgetM then 0
    else 1
  }

  /** The most any label may have spent. */
  function Allowance(budgetM: real): real {
    if budgetM > 0.0 then budgetM else 0.0
  }

  /**
   Extending any label of bucket at most `b` by an over-threshold edge of `k`
   units keeps within the budget and lands in bucket at most `b + k`, as long
   as that is a bucket at all. The clamp of a spend equal to the whole budget
   into the last bucket is the case where `k` must be zero.
   */
  lemma BucketAdvance(used: real, b: nat, len: real, nb: nat, step: real, budgetM: real)
    requires if step > 0.0 then nb >= 1 && Widths(nb, step) == budgetM else nb == 1 && budgetM <= 0.0
    requires 0.0 <= used <= Allowance(budgetM) && 0.0 <= len
    requires BucketOf(used, step, nb) <= b
    requires b + LengthUnits(len, step, budgetM) <= nb - 1
    ensures used + len <= budgetM
    ensures BucketOf(used + len, step, nb) <= b + LengthUnits(len, step, budgetM)
  {
    var k := LengthUnits(len, step, budgetM);
    if step > 0.0 {
      WidthsGrow(1, nb, step);
    }
    if k == 0 {
      assert used + len == used;
    } else {
      var c := BucketOf(used, step, nb);
      WidthsSum(c, k, step);
      WidthsGrow(c + k + 1, nb, step);
      BucketBelow(used + len, BucketOf(used + len, step, nb), c + k, step);
    }
  }

  /** Edge `e`'s advance; edges within the threshold never advance a label. */
  function EdgeUnits(g: Graph, opt: Options, e: nat): nat
    requires 0.0 <= EdgeLength(g, e)
  {
    if opt.IsOver(e) then LengthUnits(EdgeLength(g, e), BudgetBuckets(opt).1, opt.budgetM) else 0
  }

  function Units(g: Graph, opt: Options, p: seq<nat>): nat
    requires g.WellFormed()
  {
    if p == [] then 0 else Units(g, opt, Init(p)) + EdgeUnits(g, opt, Last(p))
  }

  /** The route still fits after every over-threshold edge is rounded up to whole buckets and one bucket is held back. */
  predicate Fits(g: Graph, opt: Options, p: seq<nat>)
    requires g.WellFormed()
  {
    Units(g, opt, p) <= BudgetBuckets(opt).0 - 1
  }
}
