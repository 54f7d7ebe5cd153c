/**
 What walks add up to: lengths and spends of parts are those of the whole, and
 costs too but for the turn between the parts.
 */
module WalkSums {
  import opened RoadGraph
  import opened Walks

  lemma {:induction false} LengthOfConcat(g: Graph, p: seq<nat>, q: seq<nat>)
    ensures WalkLength(g, p + q) == WalkLength(g, p) + WalkLength(g, q)
  {
    if q == [] {
      assert p + q == p;
    } else {
      LengthOfConcat(g, p, Init(q));
      assert Init(p + q) == p + Init(q);
    }
  }

  lemma {:induction false} SpendOfConcat(g: Graph, opt: Options, p: seq<nat>, q: seq<nat>)
    ensures OverLength(g, opt, p + q) == OverLength(g, opt, p) + OverLength(g, opt, q)
  {
    if q == [] {
      assert p + q == p;
    } else {
      SpendOfConcat(g, opt, p, Init(q));
      assert Init(p + q) == p + Init(q);
    }
  }

  /** The turn from one part onto the next; none where a part is empty. */
  function TurnBetween(opt: Options, p: seq<nat>, q: seq<nat>): real {
    if p == [] || q == [] then 0.0 else opt.Turn(Last(p), q[0])
  }

  lemma {:induction false} CostOfConcat(opt: Options, p: seq<nat>, q: seq<nat>)
    ensures WalkCost(opt, p + q) == WalkCost(opt, p) + TurnBetween(opt, p, q) + WalkCost(opt, q)
  {
    if q == [] {
      assert p + q == p;
    } else {
      CostOfConcat(opt, p, Init(q));
      assert Init(p + q) == p + Init(q);
      if |q| == 1 {
        assert Init(q) == [];
      }
    }
  }

  /** One edge costs its price, and a turn is charged with the second. */
  lemma CostOfOne(opt: Options, e: nat)
    ensures WalkCost(opt, [e]) == opt.edgeCost(e)
  {
    assert Init([e]) == [];
  }
}
