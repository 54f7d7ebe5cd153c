/**
 Cutting ways at their junctions into directed edges (internal/osm/build.go:44-209).
 */
module GraphBuild {
  import opened Geo
  import opened Bearings
  import opened OsmBuild

  /** A directed edge with its ends named by OSM ids: what the emitted edges mean. */
  datatype Road = Road(way: int, from: int, to: int, shape: seq<LatLon>, lengthM: real, attrs: Attrs)

  datatype Edge = Edge(
    id: nat, way: int, fromNode: nat, toNode: nat, shape: seq<LatLon>, lengthM: real, attrs: Attrs,
    bearingStart: real, bearingEnd: real)

  datatype Node = Node(id: nat, osmID: int, loc: LatLon, control: string)

  /** What building copies or measures without looking at it: bearings, and the control tags of nodes. */
  datatype Details = Details(bearing: Bearing, control: int -> string)

  /** A node without a recognised control tag has none. */
  function ControlOf(tag: string): string {
    if tag == "" then "none" else tag
  }

  // -------------------------------------------------------------- specification

  function PathLength(metric: Metric, shape: seq<LatLon>): real {
    if |shape| < 2 then 0.0
    else PathLength(metric, shape[..|shape| - 1]) + metric(shape[|shape| - 2], shape[|shape| - 1])
  }

  predicate AllLocated(ids: seq<int>, locs: map<int, LatLon>) {
    forall i :: 0 <= i < |ids| ==> ids[i] in locs
  }

  function ShapeOf(ids: seq<int>, locs: map<int, LatLon>): seq<LatLon>
    requires AllLocated(ids, locs)
  {
    seq(|ids|, i requires 0 <= i < |ids| => locs[ids[i]])
  }

  /** The run of nodes becomes edges: it is not a closed loop, every node is known, and it has length. */
  predicate Survives(metric: Metric, ids: seq<int>, locs: map<int, LatLon>) {
    |ids| >= 2 && ids[0] != ids[|ids| - 1] && AllLocated(ids, locs) && PathLength(metric, ShapeOf(ids, locs)) > 0.0
  }

  /** One edge a permitted direction, or none. */
  function SegmentRoads(metric: Metric, w: Way, ids: seq<int>, locs: map<int, LatLon>): seq<Road> {
    if !Survives(metric, ids, locs) then []
    else
      var shape := ShapeOf(ids, locs);
      var length := PathLength(metric, shape);
      (if w.forward then [Road(w.id, ids[0], ids[|ids| - 1], shape, length, w.attrs)] else [])
      + (if w.backward then [Road(w.id, ids[|ids| - 1], ids[0], Reverse(shape), length, w.attrs)] else [])
  }

  /** Road `r` is way `w` ridden past the nodes `ids`, in this order. */
  ghost predicate RidesPast(r: Road, w: Way, ids: seq<int>, locs: map<int, LatLon>) {
    && |ids| >= 2 && r.way == w.id && r.attrs == w.attrs && r.from == ids[0] && r.to == ids[|ids| - 1]
    && |r.shape| == |ids| && forall k {:trigger r.shape[k]} :: 0 <= k < |ids| ==> ids[k] in locs && r.shape[k] == locs[ids[k]]
  }

  /** A surviving run becomes one road each permitted direction, the first past the run's nodes in order and the second past them in reverse, both as long as the run. */
  lemma SegmentRoadsExactly(metric: Metric, w: Way, ids: seq<int>, locs: map<int, LatLon>)
    ensures var rs := SegmentRoads(metric, w, ids, locs);
            if !Survives(metric, ids, locs) then rs == []
            else
              && |rs| == (if w.forward then 1 else 0) + (if w.backward then 1 else 0)
              && (w.forward ==> RidesPast(rs[0], w, ids, locs)) && (w.backward ==> RidesPast(rs[|rs| - 1], w, Reverse(ids), locs))
              && forall r :: r in rs ==> r.lengthM == PathLength(metric, ShapeOf(ids, locs))
  {
  }

  /** The shape of an edge starts and ends where its nodes are. */
  ghost predicate DrawnBetween(e: Edge, nodes: seq<Node>) {
    && e.fromNode < |nodes| && e.toNode < |nodes| && |e.shape| >= 2
    && e.shape[0] == nodes[e.fromNode].loc && e.shape[|e.shape| - 1] == nodes[e.toNode].loc
  }

  /** A stretch of a way between two cut points, ends included. */
  datatype Run = Run(s: nat, t: nat)

  function IdsOf(w: Way, run: Run): seq<int> {
    if run.s < run.t < |w.nodes| then w.nodes[run.s..run.t + 1] else []
  }

  /** The runs cut from index `i` on, the first of them begun at `start`: a cut at every junction and at the end of the way. */
  function RunsFrom(w: Way, split: int -> bool, start: nat, i: nat): seq<Run>
    decreases |w.nodes| - i
  {
    if i >= |w.nodes| then []
    else if split(w.nodes[i]) || i == |w.nodes| - 1 then [Run(start, i)] + RunsFrom(w, split, i, i + 1)
    else RunsFrom(w, split, start, i + 1)
  }

  function RunRoads(metric: Metric, w: Way, runs: seq<Run>, locs: map<int, LatLon>): seq<Road> {
    if runs == [] then [] else SegmentRoads(metric, w, IdsOf(w, runs[0]), locs) + RunRoads(metric, w, runs[1..], locs)
  }

  function WayRoads(metric: Metric, w: Way, split: int -> bool, locs: map<int, LatLon>): seq<Road> {
    RunRoads(metric, w, RunsFrom(w, split, 0, 1), locs)
  }

  function AllRoads(metric: Metric, ways: seq<Way>, split: int -> bool, locs: map<int, LatLon>): seq<Road> {
    if ways == [] then []
    else AllRoads(metric, ways[..|ways| - 1], split, locs) + WayRoads(metric, ways[|ways| - 1], split, locs)
  }

  /** What a run is, without the loop: cut points at both ends and none between. */
  predicate IsRun(w: Way, split: int -> bool, run: Run) {
    && run.s < run.t < |w.nodes|
    && (run.s == 0 || split(w.nodes[run.s])) && (run.t == |w.nodes| - 1 || split(w.nodes[run.t]))
    && forall k {:trigger w.nodes[k]} :: run.s < k < run.t ==> !split(w.nodes[k])
  }

  lemma {:induction false} RunsAreComplete(w: Way, split: int -> bool, start: nat, i: nat, run: Run)
    requires start < i && (forall k {:trigger w.nodes[k]} :: start < k < i && k < |w.nodes| ==> !split(w.nodes[k]))
    requires IsRun(w, split, run) && (run.s == start || i <= run.s) && i <= run.t
    ensures run in RunsFrom(w, split, start, i)
    decreases |w.nodes| - i
  {
    if split(w.nodes[i]) || i == |w.nodes| - 1 {
      if i < run.t {
        RunsAreComplete(w, split, i, i + 1, run);
      }
    } else {
      RunsAreComplete(w, split, start, i + 1, run);
    }
  }

  lemma {:induction false} RunsAreSound(w: Way, split: int -> bool, start: nat, i: nat, run: Run)
    requires start < i && (start == 0 || (start < |w.nodes| && split(w.nodes[start])) || start == |w.nodes| - 1)
    requires forall k {:trigger w.nodes[k]} :: start < k < i && k < |w.nodes| ==> !split(w.nodes[k])
    requires run in RunsFrom(w, split, start, i)
    ensures IsRun(w, split, run)
    decreases |w.nodes| - i
  {
    if split(w.nodes[i]) || i == |w.nodes| - 1 {
      if run != Run(start, i) {
        RunsAreSound(w, split, i, i + 1, run);
      }
    } else {
      RunsAreSound(w, split, start, i + 1, run);
    }
  }

  /** The runs lie end to end along the way. */
  lemma {:induction false} RunsTile(w: Way, split: int -> bool, start: nat, i: nat)
    requires start < i <= |w.nodes|
    ensures var runs := RunsFrom(w, split, start, i);
            && (runs == [] <==> i == |w.nodes|)
            && (runs != [] ==> runs[0].s == start && runs[|runs| - 1].t == |w.nodes| - 1)
            && forall j, k {:trigger runs[j], runs[k]} :: 0 <= j && k == j + 1 < |runs| ==> runs[j].t == runs[k].s
    decreases |w.nodes| - i
  {
    if i < |w.nodes| {
      if split(w.nodes[i]) || i == |w.nodes| - 1 {
        RunsTile(w, split, i, i + 1);
      } else {
        RunsTile(w, split, start, i + 1);
      }
    }
  }

  /** The loop cuts a way into exactly its runs. */
  lemma RunsAreExact(w: Way, split: int -> bool, run: Run)
    ensures run in RunsFrom(w, split, 0, 1) <==> IsRun(w, split, run)
  {
    if run in RunsFrom(w, split, 0, 1) {
      RunsAreSound(w, split, 0, 1, run);
    }
    if IsRun(w, split, run) {
      RunsAreComplete(w, split, 0, 1, run);
    }
  }

  lemma {:induction false} RunRoadsContain(metric: Metric, w: Way, runs: seq<Run>, locs: map<int, LatLon>, run: Run, r: Road)
    requires run in runs && r in SegmentRoads(metric, w, IdsOf(w, run), locs)
    ensures r in RunRoads(metric, w, runs, locs)
  {
    if run != runs[0] {
      RunRoadsContain(metric, w, runs[1..], locs, run, r);
    }
  }

  lemma {:induction false} RunRoadsOrigin(metric: Metric, w: Way, runs: seq<Run>, locs: map<int, LatLon>, r: Road) returns (run: Run)
    requires r in RunRoads(metric, w, runs, locs)
    ensures run in runs && r in SegmentRoads(metric, w, IdsOf(w, run), locs)
  {
    if r in SegmentRoads(metric, w, IdsOf(w, runs[0]), locs) {
      run := runs[0];
    } else {
      run := RunRoadsOrigin(metric, w, runs[1..], locs, r);
    }
  }

  lemma {:induction false} WaysContribute(metric: Metric, ways: seq<Way>, split: int -> bool, locs: map<int, LatLon>, k: nat, r: Road)
    requires k < |ways| && r in WayRoads(metric, ways[k], split, locs)
    ensures r in AllRoads(metric, ways, split, locs)
  {
    if k < |ways| - 1 {
      WaysContribute(metric, ways[..|ways| - 1], split, locs, k, r);
    }
  }

  lemma {:induction false} RoadsComeFromWays(metric: Metric, ways: seq<Way>, split: int -> bool, locs: map<int, LatLon>, r: Road) returns (k: nat)
    requires r in AllRoads(metric, ways, split, locs)
    ensures k < |ways| && r in WayRoads(metric, ways[k], split, locs)
  {
    if r in WayRoads(metric, ways[|ways| - 1], split, locs) {
      k := |ways| - 1;
    } else {
      k := RoadsComeFromWays(metric, ways[..|ways| - 1], split, locs, r);
    }
  }

  /** A road is never shorter than the straight line between its ends. */
  lemma {:induction false} PathCoversDistance(metric: Metric, shape: seq<LatLon>)
    requires IsMetric(metric) && shape != []
    ensures metric(shape[0], shape[|shape| - 1]) <= PathLength(metric, shape)
  {
    if |shape| >= 2 {
      PathCoversDistance(metric, shape[..|shape| - 1]);
      assert metric(shape[0], shape[|shape| - 1]) <= metric(shape[0], shape[|shape| - 2]) + metric(shape[|shape| - 2], shape[|shape| - 1]);
    }
  }

  /** The nodes at which a way may be cut: its ends and its split points. */
  function CutPoints(w: Way, split: int -> bool): set<int> {
    set i | 0 <= i < |w.nodes| && (i == 0 || i == |w.nodes| - 1 || split(w.nodes[i])) :: w.nodes[i]
  }

  lemma CutPoint(w: Way, split: int -> bool, i: nat)
    requires i < |w.nodes| && (i == 0 || i == |w.nodes| - 1 || split(w.nodes[i]))
    ensures w.nodes[i] in CutPoints(w, split)
  {
  }

  /** The node is a cut point of some way. */
  ghost predicate IsCutPoint(ways: seq<Way>, split: int -> bool, id: int) {
    exists k :: 0 <= k < |ways| && id in CutPoints(ways[k], split)
  }

  /** The nodes at which some road begins or ends. */
  ghost function Ends(roads: seq<Road>): set<int> {
    (set r | r in roads :: r.from) + (set r | r in roads :: r.to)
  }

  /** Ids stay exactly those of the ends of emitted roads, for a way that may be driven in some direction. */
  lemma EndsStep(metric: Metric, w: Way, ids: seq<int>, locs: map<int, LatLon>, keys: set<int>, roads: seq<Road>)
    requires (w.forward || w.backward) && keys == Ends(roads)
    ensures keys + (if Survives(metric, ids, locs) then {ids[0], ids[|ids| - 1]} else {}) == Ends(roads + SegmentRoads(metric, w, ids, locs))
  {
    var more := SegmentRoads(metric, w, ids, locs);
    assert forall r :: r in roads + more <==> r in roads || r in more;
    if Survives(metric, ids, locs) {
      assert more[0] in more;
      assert forall r :: r in more ==> {r.from, r.to} == {ids[0], ids[|ids| - 1]};
    }
  }

  // ------------------------------------------------------------------- builder

  class Builder {
    const metric: Metric
    const locs: map<int, LatLon>
    const details: Details
    var nodes: seq<Node>
    var edges: seq<Edge>
    var denseID: map<int, nat>
    var skippedMissingCoords: nat
    var skippedDegenerate: nat

    constructor (metric: Metric, locs: map<int, LatLon>, details: Details)
      ensures Valid() && nodes == [] && edges == [] && denseID == map[]
      ensures this.metric == metric && this.locs == locs && this.details == details
    {
      this.metric, this.locs, this.details := metric, locs, details;
      nodes, edges, denseID := [], [], map[];
      skippedMissingCoords, skippedDegenerate := 0, 0;
    }

    ghost predicate Valid()
      reads this
    {
      && Interned(nodes, denseID, locs) && EdgeTable(edges, nodes, details.bearing)
      && (forall i :: 0 <= i < |nodes| ==> nodes[i].control == ControlOf(details.control(nodes[i].osmID)))
    }

    /** The edges with their ends named by OSM ids. */
    ghost function Roads(): seq<Road>
      requires Valid()
      reads this
    {
      Named(nodes, edges)
    }

    /** The nodes with an id are the ends of emitted edges. */
    ghost predicate Anchored()
      requires Valid()
      reads this
    {
      denseID.Keys == Ends(Roads())
    }

    /** The dense id of a node, assigned on first use; nothing for a node outside the extract. */
    method Intern(osmID: int) returns (id: nat, ok: bool)
      requires Valid()
      modifies this`nodes, this`denseID
      ensures Valid() && |old(nodes)| <= |nodes| && nodes[..|old(nodes)|] == old(nodes)
      ensures ok <==> osmID in locs
      ensures ok ==> osmID in denseID && denseID[osmID] == id && denseID.Keys == old(denseID).Keys + {osmID}
      ensures !ok ==> denseID == old(denseID)
    {
      if osmID in denseID {
        return denseID[osmID], true;
      }
      if osmID !in locs {
        return 0, false;
      }
      id, ok := |nodes|, true;
      var node := Node(id, osmID, locs[osmID], ControlOf(details.control(osmID)));
      EdgeTableSurvives(edges, nodes, nodes + [node], details.bearing);
      InternedMore(nodes, denseID, locs, node);
      denseID := denseID[osmID := id];
      nodes := nodes + [node];
    }

    /** The shape of a run, unless some node lies outside the extract. */
    method Trace(ids: seq<int>) returns (shape: seq<LatLon>, located: bool)
      ensures located <==> AllLocated(ids, locs)
      ensures located ==> shape == ShapeOf(ids, locs)
    {
      shape := [];
      for i := 0 to |ids|
        invariant AllLocated(ids[..i], locs) && |shape| == i && forall k :: 0 <= k < i ==> shape[k] == locs[ids[k]]
      {
        if ids[i] !in locs {
          return shape, false;
        }
        shape := shape + [locs[ids[i]]];
      }
      located := true;
    }

    method Measure(shape: seq<LatLon>) returns (length: real)
      ensures length == PathLength(metric, shape)
    {
      length := 0.0;
      for i := 1 to |shape| + 1
        invariant length == PathLength(metric, shape[..if i <= |shape| then i else |shape|])
      {
        if i == |shape| {
          break;
        }
        assert shape[..i + 1][..i] == shape[..i];
        length := length + metric(shape[i - 1], shape[i]);
      }
      assert shape[..|shape|] == shape;
    }

    method Append(way: int, from: nat, to: nat, shape: seq<LatLon>, length: real, attrs: Attrs)
      requires Valid() && from < |nodes| && to < |nodes| && |shape| >= 2
      requires shape[0] == nodes[from].loc && shape[|shape| - 1] == nodes[to].loc
      modifies this`edges
      ensures Valid() && Roads() == old(Roads()) + [Road(way, nodes[from].osmID, nodes[to].osmID, shape, length, attrs)]
    {
      var start, end := EndBearings(details.bearing, shape);
      edges := edges + [Edge(|edges|, way, from, to, shape, length, attrs, start, end)];
    }

    /** Turn one run of node ids into directed edges, or count why it was dropped. */
    method AddSegment(w: Way, ids: seq<int>)
      requires Valid()
      modifies this
      ensures Valid() && Roads() == old(Roads()) + SegmentRoads(metric, w, ids, locs)
      ensures denseID.Keys == old(denseID).Keys + if Survives(metric, ids, locs) then {ids[0], ids[|ids| - 1]} else {}
      ensures skippedDegenerate == old(skippedDegenerate) +
                if |ids| >= 2 && (ids[0] == ids[|ids| - 1] || (AllLocated(ids, locs) && PathLength(metric, ShapeOf(ids, locs)) <= 0.0)) then 1 else 0
      ensures skippedMissingCoords == old(skippedMissingCoords) +
                if |ids| >= 2 && ids[0] != ids[|ids| - 1] && !AllLocated(ids, locs) then 1 else 0
    {
      if |ids| < 2 {
        return;
      }
      if ids[0] == ids[|ids| - 1] {
        skippedDegenerate := skippedDegenerate + 1;
        return;
      }
      var shape, located := Trace(ids);
      if !located {
        skippedMissingCoords := skippedMissingCoords + 1;
        return;
      }
      var length := Measure(shape);
      if length <= 0.0 {
        skippedDegenerate := skippedDegenerate + 1;
        return;
      }
      Emit(w, ids, shape, length);
    }

    /** Walk a way and cut it at every split point after the first. */
    method CutWay(w: Way, split: int -> bool)
      requires Valid()
      modifies this
      ensures Valid() && Roads() == old(Roads()) + WayRoads(metric, w, split, locs)
      ensures denseID.Keys <= old(denseID).Keys + CutPoints(w, split)
      ensures old(Anchored()) && (w.forward || w.backward) ==> Anchored()
    {
      ghost var total, keys := Roads() + WayRoads(metric, w, split, locs), denseID.Keys;
      ghost var anchored := Anchored() && (w.forward || w.backward);
      var start := 0;
      var i := 1;
      Begun(w, split, anchored);
      while i < |w.nodes|
        invariant 0 <= start < i && Cutting(w, split, start, i, total, keys, anchored)
        decreases |w.nodes| - i
      {
        start := Visit(w, split, start, i, total, keys, anchored);
        i := i + 1;
      }
      Finished(w, split, start, i, total, keys, anchored);
    }

    /** The way is cut up to index `i`, the last cut being at `start`; `total` are the edges when it is done. */
    ghost predicate Cutting(w: Way, split: int -> bool, start: nat, i: nat, total: seq<Road>, keys: set<int>, anchored: bool)
      reads this
    {
      && Valid() && CutUpTo(metric, w, split, start, i, locs, Roads(), total) && denseID.Keys <= keys + CutPoints(w, split)
      && (anchored ==> Anchored() && (w.forward || w.backward))
    }

    lemma Begun(w: Way, split: int -> bool, anchored: bool)
      requires Valid() && (anchored ==> Anchored() && (w.forward || w.backward))
      ensures Cutting(w, split, 0, 1, Roads() + WayRoads(metric, w, split, locs), denseID.Keys, anchored)
    {
      if w.nodes != [] {
        CutPoint(w, split, 0);
      }
    }

    lemma PassOver(w: Way, split: int -> bool, start: nat, i: nat, total: seq<Road>, keys: set<int>, anchored: bool)
      requires i < |w.nodes| - 1 && !split(w.nodes[i]) && Cutting(w, split, start, i, total, keys, anchored)
      ensures Cutting(w, split, start, i + 1, total, keys, anchored)
    {
      PassedOver(metric, w, split, start, i, locs, Roads(), total);
    }

    lemma Finished(w: Way, split: int -> bool, start: nat, i: nat, total: seq<Road>, keys: set<int>, anchored: bool)
      requires |w.nodes| <= i && Cutting(w, split, start, i, total, keys, anchored)
      ensures Roads() == total && denseID.Keys <= keys + CutPoints(w, split) && (anchored ==> Anchored())
    {
      AllCut(metric, w, split, start, i, locs, Roads(), total);
    }

    /** Cut at this node or pass over it; the run after it begins at `next`. */
    method Visit(w: Way, split: int -> bool, start: nat, i: nat, ghost total: seq<Road>, ghost keys: set<int>, ghost anchored: bool)
      returns (next: nat)
      requires start < i < |w.nodes| && Cutting(w, split, start, i, total, keys, anchored)
      modifies this
      ensures next <= i && Cutting(w, split, next, i + 1, total, keys, anchored)
    {
      next := start;
      if split(w.nodes[i]) || i == |w.nodes| - 1 {
        CutAt(w, split, start, i, total, keys, anchored);
        next := i;
      } else {
        PassOver(w, split, start, i, total, keys, anchored);
      }
    }

    /** Emit the run that ends at this cut point. */
    method CutAt(w: Way, split: int -> bool, start: nat, i: nat, ghost total: seq<Road>, ghost keys: set<int>, ghost anchored: bool)
      requires start < i < |w.nodes| && (split(w.nodes[i]) || i == |w.nodes| - 1)
      requires Cutting(w, split, start, i, total, keys, anchored)
      modifies this
      ensures Cutting(w, split, i, i + 1, total, keys, anchored)
    {
      ghost var before := denseID.Keys;
      CutOnce(metric, w, split, start, i, locs, Roads(), total);
      AddRun(w, w.nodes[start..i + 1]);
      KeysStayWithin(before, denseID.Keys, keys, CutPoints(w, split), w.nodes[start], w.nodes[i]);
    }

    /** What a segment of a way with a direction does to the ids, beside its edges. */
    method AddRun(w: Way, ids: seq<int>)
      requires Valid()
      modifies this
      ensures Valid() && Roads() == old(Roads()) + SegmentRoads(metric, w, ids, locs)
      ensures denseID.Keys <= old(denseID).Keys + if ids == [] then {} else {ids[0], ids[|ids| - 1]}
      ensures old(Anchored()) && (w.forward || w.backward) ==> Anchored()
    {
      ghost var keys, roads := denseID.Keys, Roads();
      AddSegment(w, ids);
      if keys == Ends(roads) && (w.forward || w.backward) {
        EndsStep(metric, w, ids, locs, keys, roads);
      }
    }

    /** Intern both ends of a surviving run and append an edge for each permitted direction. */
    method Emit(w: Way, ids: seq<int>, shape: seq<LatLon>, length: real)
      requires Valid() && Survives(metric, ids, locs) && shape == ShapeOf(ids, locs) && length == PathLength(metric, shape)
      modifies this`nodes, this`denseID, this`edges
      ensures Valid() && Roads() == old(Roads()) + SegmentRoads(metric, w, ids, locs)
      ensures denseID.Keys == old(denseID).Keys + {ids[0], ids[|ids| - 1]}
    {
      ghost var rows, first := nodes, edges;
      var from, okFrom := Intern(ids[0]);
      var to, okTo := Intern(ids[|ids| - 1]);
      assert ids[0] in locs && ids[|ids| - 1] in locs;
      NamesSurvive(rows, nodes, first);
      if w.forward {
        Append(w.id, from, to, shape, length, w.attrs);
      }
      if w.backward {
        Append(w.id, to, from, Reverse(shape), length, w.attrs);
      }
    }
  }

  lemma Regroup<T>(a: seq<T>, b: seq<T>, c: seq<T>)
    ensures (a + b) + c == a + (b + c)
  {
  }

  lemma RunRoadsCons(metric: Metric, w: Way, run: Run, runs: seq<Run>, locs: map<int, LatLon>)
    ensures RunRoads(metric, w, [run] + runs, locs) == SegmentRoads(metric, w, IdsOf(w, run), locs) + RunRoads(metric, w, runs, locs)
  {
    assert ([run] + runs)[1..] == runs;
  }

  /** The roads so far and those of the runs still to be cut make up the total, and the last cut was at a cut point. */
  ghost predicate CutUpTo(metric: Metric, w: Way, split: int -> bool, start: nat, i: nat, locs: map<int, LatLon>, roads: seq<Road>, total: seq<Road>) {
    && roads + RunRoads(metric, w, RunsFrom(w, split, start, i), locs) == total
    && (start < |w.nodes| ==> w.nodes[start] in CutPoints(w, split))
  }

  lemma PassedOver(metric: Metric, w: Way, split: int -> bool, start: nat, i: nat, locs: map<int, LatLon>, roads: seq<Road>, total: seq<Road>)
    requires i < |w.nodes| - 1 && !split(w.nodes[i]) && CutUpTo(metric, w, split, start, i, locs, roads, total)
    ensures CutUpTo(metric, w, split, start, i + 1, locs, roads, total)
  {
  }

  lemma AllCut(metric: Metric, w: Way, split: int -> bool, start: nat, i: nat, locs: map<int, LatLon>, roads: seq<Road>, total: seq<Road>)
    requires |w.nodes| <= i && CutUpTo(metric, w, split, start, i, locs, roads, total)
    ensures roads == total
  {
    assert RunRoads(metric, w, RunsFrom(w, split, start, i), locs) == [];
  }

  lemma CutOnce(metric: Metric, w: Way, split: int -> bool, start: nat, i: nat, locs: map<int, LatLon>, roads: seq<Road>, total: seq<Road>)
    requires start < i < |w.nodes| && (split(w.nodes[i]) || i == |w.nodes| - 1) && CutUpTo(metric, w, split, start, i, locs, roads, total)
    ensures var ids := w.nodes[start..i + 1];
            && ids != [] && ids[0] == w.nodes[start] && ids[|ids| - 1] == w.nodes[i]
            && w.nodes[start] in CutPoints(w, split) && w.nodes[i] in CutPoints(w, split)
            && CutUpTo(metric, w, split, i, i + 1, locs, roads + SegmentRoads(metric, w, ids, locs), total)
  {
    RunEnds(w, start, i);
    CutPoint(w, split, i);
    CutMoves(metric, w, split, start, i, locs, roads);
  }

  lemma KeysStayWithin(before: set<int>, after: set<int>, keys: set<int>, cuts: set<int>, a: int, b: int)
    requires before <= keys + cuts && after <= before + {a, b} && a in cuts && b in cuts
    ensures after <= keys + cuts
  {
  }

  lemma RunEnds(w: Way, start: nat, i: nat)
    requires start < i < |w.nodes|
    ensures var ids := w.nodes[start..i + 1]; ids != [] && ids[0] == w.nodes[start] && ids[|ids| - 1] == w.nodes[i]
  {
  }

  /** Cutting at `i` moves the run's roads from those to do to those done. */
  lemma CutMoves(metric: Metric, w: Way, split: int -> bool, start: nat, i: nat, locs: map<int, LatLon>, roads: seq<Road>)
    requires start < i < |w.nodes| && (split(w.nodes[i]) || i == |w.nodes| - 1)
    ensures roads + RunRoads(metric, w, RunsFrom(w, split, start, i), locs) ==
            roads + SegmentRoads(metric, w, w.nodes[start..i + 1], locs) + RunRoads(metric, w, RunsFrom(w, split, i, i + 1), locs)
  {
    FirstRun(metric, w, split, start, i, locs);
    Regroup(roads, SegmentRoads(metric, w, w.nodes[start..i + 1], locs), RunRoads(metric, w, RunsFrom(w, split, i, i + 1), locs));
  }

  lemma FirstRunFrom(w: Way, split: int -> bool, start: nat, i: nat)
    requires start < i < |w.nodes| && (split(w.nodes[i]) || i == |w.nodes| - 1)
    ensures RunsFrom(w, split, start, i) == [Run(start, i)] + RunsFrom(w, split, i, i + 1)
    ensures IdsOf(w, Run(start, i)) == w.nodes[start..i + 1]
  {
  }

  lemma FirstRun(metric: Metric, w: Way, split: int -> bool, start: nat, i: nat, locs: map<int, LatLon>)
    requires start < i < |w.nodes| && (split(w.nodes[i]) || i == |w.nodes| - 1)
    ensures RunRoads(metric, w, RunsFrom(w, split, start, i), locs) ==
            SegmentRoads(metric, w, w.nodes[start..i + 1], locs) + RunRoads(metric, w, RunsFrom(w, split, i, i + 1), locs)
  {
    FirstRunFrom(w, split, start, i);
    RunRoadsCons(metric, w, Run(start, i), RunsFrom(w, split, i, i + 1), locs);
  }

  /** Appending nodes renames no edge. */
  lemma NamesSurvive(rows: seq<Node>, more: seq<Node>, edges: seq<Edge>)
    requires forall i :: 0 <= i < |edges| ==> edges[i].fromNode < |rows| && edges[i].toNode < |rows|
    requires |rows| <= |more| && more[..|rows|] == rows
    ensures Named(more, edges) == Named(rows, edges)
  {
    forall i | 0 <= i < |edges| ensures more[edges[i].fromNode] == rows[edges[i].fromNode] && more[edges[i].toNode] == rows[edges[i].toNode] {
      assert more[..|rows|][edges[i].fromNode] == rows[edges[i].fromNode];
      assert more[..|rows|][edges[i].toNode] == rows[edges[i].toNode];
    }
  }

  /** An edge has the bearings of its shape. */
  predicate HasBearings(bearing: Bearing, e: Edge) {
    e.bearingStart == StartBearing(bearing, e.shape) && e.bearingEnd == EndBearing(bearing, e.shape)
  }

  /** A run that survives has two points that differ, so both its bearings are measured. */
  lemma SurvivorsHaveBearings(metric: Metric, ids: seq<int>, locs: map<int, LatLon>)
    requires IsMetric(metric) && Survives(metric, ids, locs)
    ensures var shape := ShapeOf(ids, locs); Leaving(shape, 1).Some? && Arriving(shape, |shape| - 1).Some?
  {
    var shape := ShapeOf(ids, locs);
    LeavingIsIndex(shape, 1);
    ArrivingIsIndex(shape, |shape| - 1);
    if Leaving(shape, 1).None? || Arriving(shape, |shape| - 1).None? {
      StandingStill(metric, shape);
    }
  }

  lemma {:induction false} StandingStill(metric: Metric, shape: seq<LatLon>)
    requires IsMetric(metric) && forall i, j :: 0 <= i < |shape| && 0 <= j < |shape| ==> shape[i] == shape[j]
    ensures PathLength(metric, shape) == 0.0
  {
    if |shape| >= 2 {
      StandingStill(metric, shape[..|shape| - 1]);
    }
  }

  /** Cut every way at its junctions and emit the edges. Ids go exactly to the ends of emitted edges, when every way has a direction. */
  method Build(metric: Metric, ways: seq<Way>, nodeUse: map<int, nat>, locs: map<int, LatLon>, details: Details) returns (g: Builder)
    ensures fresh(g) && g.Valid() && g.metric == metric && g.locs == locs && g.details == details
    ensures g.Roads() == AllRoads(metric, ways, (id: int) => UseOf(nodeUse, id) >= 2, locs)
    ensures forall id :: id in g.denseID ==> IsCutPoint(ways, (id: int) => UseOf(nodeUse, id) >= 2, id)
    ensures (forall k :: 0 <= k < |ways| ==> ways[k].forward || ways[k].backward) ==> g.Anchored()
  {
    var split := (id: int) => UseOf(nodeUse, id) >= 2;
    g := new Builder(metric, locs, details);
    for k := 0 to |ways|
      invariant fresh(g) && g.Valid() && g.metric == metric && g.locs == locs && g.details == details
      invariant g.Roads() == AllRoads(metric, ways[..k], split, locs)
      invariant forall id :: id in g.denseID ==> IsCutPoint(ways, split, id)
      invariant (forall j :: 0 <= j < |ways| ==> ways[j].forward || ways[j].backward) ==> g.Anchored()
    {
      assert ways[..k + 1][..k] == ways[..k];
      g.CutWay(ways[k], split);
    }
    assert ways[..|ways|] == ways;
  }

  /** Dense ids: rows of the node table and OSM ids name each other. */
  /** Edges are numbered in order, each drawn between its nodes and with the bearings of its shape. */
  ghost predicate EdgeTable(edges: seq<Edge>, nodes: seq<Node>, bearing: Bearing) {
    forall i :: 0 <= i < |edges| ==> edges[i].id == i && DrawnBetween(edges[i], nodes) && HasBearings(bearing, edges[i])
  }

  lemma EdgeTableSurvives(edges: seq<Edge>, nodes: seq<Node>, more: seq<Node>, bearing: Bearing)
    requires EdgeTable(edges, nodes, bearing) && nodes <= more
    ensures EdgeTable(edges, more, bearing)
  {
    forall i | 0 <= i < |edges| ensures DrawnBetween(edges[i], more) {
      assert more[edges[i].fromNode] == nodes[edges[i].fromNode] && more[edges[i].toNode] == nodes[edges[i].toNode];
    }
  }

  lemma InternedMore(nodes: seq<Node>, denseID: map<int, nat>, locs: map<int, LatLon>, node: Node)
    requires Interned(nodes, denseID, locs)
    requires node.id == |nodes| && node.osmID !in denseID && node.osmID in locs && node.loc == locs[node.osmID]
    ensures Interned(nodes + [node], denseID[node.osmID := |nodes|], locs)
  {
  }

  ghost predicate Interned(nodes: seq<Node>, denseID: map<int, nat>, locs: map<int, LatLon>) {
    && (forall x {:trigger denseID[x]} :: x in denseID ==> x in locs && denseID[x] < |nodes| && nodes[denseID[x]].osmID == x)
    && (forall i {:trigger nodes[i]} :: 0 <= i < |nodes| ==>
          nodes[i].id == i && nodes[i].osmID in denseID && denseID[nodes[i].osmID] == i && nodes[i].osmID in locs && nodes[i].loc == locs[nodes[i].osmID])
  }

  ghost function Named(nodes: seq<Node>, edges: seq<Edge>): seq<Road>
    requires forall i :: 0 <= i < |edges| ==> edges[i].fromNode < |nodes| && edges[i].toNode < |nodes|
  {
    seq(|edges|, i requires 0 <= i < |edges| =>
      Road(edges[i].way, nodes[edges[i].fromNode].osmID, nodes[edges[i].toNode].osmID, edges[i].shape, edges[i].lengthM, edges[i].attrs))
  }
}
