/**
 Counting how often ways use each node (internal/osm/reader.go:23-108).
 */
module OsmBuild {
  import opened Wrappers

  /** What tags say of a way, besides the directions it may be ridden in. */
  datatype Attrs = Attrs(
    highway: string, name: string, infra: string, surface: string,
    maxSpeedMPH: Option<int>, lanes: Option<int>, lit: Option<bool>)

  datatype Way = Way(id: int, nodes: seq<int>, forward: bool, backward: bool, attrs: Attrs)

  // ------------------------------------------------------------- counting uses

  /** How often a node id occurs in a list. */
  function Occurs(s: seq<int>, id: int): nat {
    if s == [] then 0 else Occurs(s[..|s| - 1], id) + if s[|s| - 1] == id then 1 else 0
  }

  function TotalUse(ways: seq<Way>, id: int): nat {
    if ways == [] then 0 else TotalUse(ways[..|ways| - 1], id) + Occurs(ways[|ways| - 1].nodes, id)
  }

  predicate IsEndOf(w: Way, id: int) {
    |w.nodes| >= 2 && (w.nodes[0] == id || w.nodes[|w.nodes| - 1] == id)
  }

  ghost predicate IsEnd(ways: seq<Way>, id: int) {
    exists k :: 0 <= k < |ways| && IsEndOf(ways[k], id)
  }

  /** What the saturating count says: junctions are the ends of ways and the nodes used more than once. */
  ghost predicate IsJunction(ways: seq<Way>, id: int) {
    IsEnd(ways, id) || TotalUse(ways, id) >= 2
  }

  function UseOf(use: map<int, nat>, id: int): nat {
    if id in use then use[id] else 0
  }

  /** A count saturated at 2, with ends of ways forced there. */
  ghost predicate Saturated(use: map<int, nat>, ways: seq<Way>) {
    forall id {:trigger UseOf(use, id)} :: UseOf(use, id) == if IsJunction(ways, id) then 2 else TotalUse(ways, id)
  }

  class ScanResult {
    var ways: seq<Way>
    var nodeUse: map<int, nat>

    constructor ()
      ensures ways == [] && Saturated(nodeUse, ways)
    {
      ways, nodeUse := [], map[];
    }

    predicate IsSplitPoint(id: int)
      reads this
    {
      UseOf(nodeUse, id) >= 2
    }

    /** Keep one routable way; a way of fewer than two nodes describes no segment and is passed over. */
    method AddWay(w: Way)
      requires Saturated(nodeUse, ways)
      modifies this
      ensures ways == if |w.nodes| < 2 then old(ways) else old(ways) + [w]
      ensures Saturated(nodeUse, ways)
    {
      if |w.nodes| < 2 {
        return;
      }
      ghost var before := nodeUse;
      for i := 0 to |w.nodes|
        invariant ways == old(ways) && CountedUpTo(before, nodeUse, w.nodes[..i])
      {
        var id := w.nodes[i];
        CountedStep(before, nodeUse, w.nodes[..i], id);
        assert w.nodes[..i + 1] == w.nodes[..i] + [id];
        if UseOf(nodeUse, id) < 2 {
          nodeUse := nodeUse[id := UseOf(nodeUse, id) + 1];
        }
      }
      assert w.nodes[..|w.nodes|] == w.nodes;
      ghost var counted := nodeUse;
      nodeUse := nodeUse[w.nodes[0] := 2];
      nodeUse := nodeUse[w.nodes[|w.nodes| - 1] := 2];
      SaturatedStep(before, counted, ways, w);
      ways := ways + [w];
    }
  }

  /** The counts after passing over `s`, saturating on the way. */
  ghost predicate CountedUpTo(before: map<int, nat>, after: map<int, nat>, s: seq<int>) {
    forall id {:trigger UseOf(after, id)} {:trigger UseOf(before, id)} :: UseOf(after, id) == Capped(UseOf(before, id) + Occurs(s, id))
  }

  lemma CountedStep(before: map<int, nat>, after: map<int, nat>, s: seq<int>, x: int)
    requires CountedUpTo(before, after, s)
    ensures CountedUpTo(before, if UseOf(after, x) < 2 then after[x := UseOf(after, x) + 1] else after, s + [x])
  {
    var next := if UseOf(after, x) < 2 then after[x := UseOf(after, x) + 1] else after;
    assert (s + [x])[..|s|] == s;
    forall id ensures UseOf(next, id) == Capped(UseOf(before, id) + Occurs(s + [x], id)) {
      assert UseOf(after, id) == Capped(UseOf(before, id) + Occurs(s, id));
    }
  }

  function Capped(n: nat): nat {
    if n > 2 then 2 else n
  }

  lemma IsEndStep(ways: seq<Way>, w: Way, id: int)
    ensures IsEnd(ways + [w], id) <==> IsEnd(ways, id) || IsEndOf(w, id)
  {
    var all := ways + [w];
    if IsEnd(ways, id) {
      var k :| 0 <= k < |ways| && IsEndOf(ways[k], id);
      assert IsEndOf(all[k], id);
    }
    if IsEndOf(w, id) {
      assert IsEndOf(all[|ways|], id);
    }
  }

  lemma SaturatedStep(before: map<int, nat>, counted: map<int, nat>, ways: seq<Way>, w: Way)
    requires Saturated(before, ways) && |w.nodes| >= 2 && CountedUpTo(before, counted, w.nodes)
    ensures Saturated(counted[w.nodes[0] := 2][w.nodes[|w.nodes| - 1] := 2], ways + [w])
  {
    var after := counted[w.nodes[0] := 2][w.nodes[|w.nodes| - 1] := 2];
    var all := ways + [w];
    assert all[..|all| - 1] == ways;
    forall id ensures UseOf(after, id) == if IsJunction(all, id) then 2 else TotalUse(all, id) {
      IsEndStep(ways, w, id);
      assert UseOf(before, id) == if IsJunction(ways, id) then 2 else TotalUse(ways, id);
      assert UseOf(counted, id) == Capped(UseOf(before, id) + Occurs(w.nodes, id));
    }
  }

  /** Scan every routable way in file order. */
  method ScanWays(raw: seq<Way>) returns (res: ScanResult)
    ensures fresh(res) && Saturated(res.nodeUse, res.ways)
    ensures res.ways == Kept(raw)
  {
    res := new ScanResult();
    for k := 0 to |raw|
      invariant fresh(res) && Saturated(res.nodeUse, res.ways) && res.ways == Kept(raw[..k])
    {
      assert raw[..k + 1][..k] == raw[..k];
      res.AddWay(raw[k]);
    }
    assert raw[..|raw|] == raw;
  }

  function Kept(raw: seq<Way>): (ways: seq<Way>)
    ensures forall k :: 0 <= k < |ways| ==> |ways[k].nodes| >= 2
  {
    if raw == [] then []
    else
      var w := raw[|raw| - 1];
      Kept(raw[..|raw| - 1]) + if |w.nodes| < 2 then [] else [w]
  }

  /** No way with a segment is lost and none is added. */
  lemma {:induction false} KeptExactly(raw: seq<Way>, w: Way)
    ensures w in Kept(raw) <==> w in raw && |w.nodes| >= 2
  {
    if raw != [] {
      var init, last := raw[..|raw| - 1], raw[|raw| - 1];
      KeptExactly(init, w);
      assert raw == init + [last];
    }
  }

  /** Keeping works way by way, so the order of the file is kept. */
  lemma {:induction false} KeptOfConcat(raw: seq<Way>, more: seq<Way>)
    ensures Kept(raw + more) == Kept(raw) + Kept(more)
  {
    if more == [] {
      assert raw + more == raw;
    } else {
      KeptOfConcat(raw, more[..|more| - 1]);
      assert (raw + more)[..|raw + more| - 1] == raw + more[..|more| - 1];
    }
  }

  /** A kept node that is not a junction occurs once, in one way. */
  lemma NonJunctionOccursOnce(ways: seq<Way>, id: int, k: nat, i: nat, k': nat, i': nat)
    requires !IsJunction(ways, id)
    requires k < |ways| && i < |ways[k].nodes| && ways[k].nodes[i] == id
    requires k' < |ways| && i' < |ways[k'].nodes| && ways[k'].nodes[i'] == id
    ensures k == k' && i == i'
  {
    if k < k' {
      TotalUseTwice(ways, id, k, k');
      OccursOnce(ways[k].nodes, id, i);
      OccursOnce(ways[k'].nodes, id, i');
    } else if k' < k {
      TotalUseTwice(ways, id, k', k);
      OccursOnce(ways[k].nodes, id, i);
      OccursOnce(ways[k'].nodes, id, i');
    } else if i < i' {
      OccursTwice(ways[k].nodes, id, i, i');
      TotalUseOnce(ways, id, k);
    } else if i' < i {
      OccursTwice(ways[k].nodes, id, i', i);
      TotalUseOnce(ways, id, k);
    }
  }

  lemma {:induction false} OccursOnce(s: seq<int>, id: int, i: nat)
    requires i < |s| && s[i] == id
    ensures Occurs(s, id) >= 1
  {
    if i < |s| - 1 {
      OccursOnce(s[..|s| - 1], id, i);
    }
  }

  lemma {:induction false} OccursTwice(s: seq<int>, id: int, i: nat, j: nat)
    requires i < j < |s| && s[i] == id && s[j] == id
    ensures Occurs(s, id) >= 2
  {
    if j < |s| - 1 {
      OccursTwice(s[..|s| - 1], id, i, j);
    } else {
      OccursOnce(s[..|s| - 1], id, i);
    }
  }

  lemma {:induction false} TotalUseOnce(ways: seq<Way>, id: int, k: nat)
    requires k < |ways|
    ensures TotalUse(ways, id) >= Occurs(ways[k].nodes, id)
  {
    if k < |ways| - 1 {
      TotalUseOnce(ways[..|ways| - 1], id, k);
    }
  }

  lemma {:induction false} TotalUseTwice(ways: seq<Way>, id: int, k: nat, k': nat)
    requires k < k' < |ways|
    ensures TotalUse(ways, id) >= Occurs(ways[k].nodes, id) + Occurs(ways[k'].nodes, id)
  {
    if k' < |ways| - 1 {
      TotalUseTwice(ways[..|ways| - 1], id, k, k');
    } else {
      TotalUseOnce(ways[..|ways| - 1], id, k);
    }
  }
}
