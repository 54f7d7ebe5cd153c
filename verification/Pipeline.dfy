/**
 From OpenStreetMap ways to answers: scanning, cutting, storing, loading and
 searching composed. Lengths are stored to the millimetre
 (internal/osm/ingest.go:110), so with lengths for costs the router's answer is
 the shortest journey over the raw ways but for half a millimetre an edge.
 */
module Pipeline {
  import opened Wrappers
  import opened Geo
  import opened OsmBuild
  import opened GraphBuild
  import opened Contraction
  import opened RoadGraph
  import opened Walks
  import opened StateSpace
  import opened Search
  import SearchResults
  import Safety
  import GraphLoad
  import Workspaces

  /** Scan, then cut; the extract describes what the emitted edges stand for. */
  method Ingest(metric: Metric, raw: seq<Way>, locs: map<int, LatLon>, details: Details) returns (b: Builder, ghost x: Extract)
    ensures fresh(b) && b.Valid() && b.metric == metric && b.locs == locs
    ensures x.metric == metric && x.ways == Kept(raw) && x.locs == locs
    ensures b.Roads() == x.Roads() && x.CutAtJunctions()
    ensures forall id :: id in b.denseID ==> x.split(id)
    ensures forall id :: x.split(id) <==> IsJunction(Kept(raw), id)
  {
    var scan := ScanWays(raw);
    b := Build(metric, scan.ways, scan.nodeUse, locs, details);
    ghost var use := scan.nodeUse;
    x := Extract(metric, scan.ways, (id: int) => UseOf(use, id) >= 2, locs);
    ScanCutsAtJunctions(x, use);
    CutPointsAreSplit(x);
    SplitIsJunction(x, use);
  }

  lemma CutPointsAreSplit(x: Extract)
    requires x.CutAtJunctions()
    ensures forall id :: IsCutPoint(x.ways, x.split, id) ==> x.split(id)
  {
  }

  lemma SplitIsJunction(x: Extract, use: map<int, nat>)
    requires Saturated(use, x.ways) && forall id :: x.split(id) <==> UseOf(use, id) >= 2
    ensures forall id :: x.split(id) <==> IsJunction(x.ways, id)
  {
    forall id ensures x.split(id) <==> IsJunction(x.ways, id) {
      assert UseOf(use, id) == if IsJunction(x.ways, id) then 2 else TotalUse(x.ways, id);
    }
  }

  // ------------------------------------------------------------------- storing

  /** Half of the last decimal that is stored. */
  const HALF_UNIT: real := 0.0005

  /** A length as the edge table holds it: to the nearest of three decimals, and to the even one halfway. */
  function Stored(l: real): real {
    Nearest(l * 1000.0) as real / 1000.0
  }

  function Nearest(x: real): int {
    var n := x.Floor;
    var rest := x - n as real;
    if rest < 0.5 || (rest == 0.5 && n % 2 == 0) then n else n + 1
  }

  lemma StoredIsClose(l: real)
    ensures l - HALF_UNIT <= Stored(l) <= l + HALF_UNIT
    ensures 0.0 <= l ==> 0.0 <= Stored(l)
  {
    var n := Nearest(l * 1000.0);
    assert Stored(l) * 1000.0 == n as real;
  }

  function StoredEdges(edges: seq<Edge>): seq<Edge> {
    seq(|edges|, i requires 0 <= i < |edges| => edges[i].(lengthM := Stored(edges[i].lengthM)))
  }

  /** The edge table has a check that lengths are positive; an edge of less than half a millimetre fails it, and the whole import with it. */
  method Store(edges: seq<Edge>) returns (stored: Option<seq<Edge>>)
    ensures stored.Some? <==> forall k :: 0 <= k < |edges| ==> 0.0 < Stored(edges[k].lengthM)
    ensures stored.Some? ==> stored.value == StoredEdges(edges)
  {
    for k := 0 to |edges|
      invariant forall i :: 0 <= i < k ==> 0.0 < Stored(edges[i].lengthM)
    {
      if Stored(edges[k].lengthM) <= 0.0 {
        return None;
      }
    }
    stored := Some(StoredEdges(edges));
  }

  /** An extract, the tables built from it, and the graph loaded from them; `rows` is the edge table as stored, in loading order. */
  datatype Import = Import(x: Extract, nodes: seq<Node>, denseID: map<int, nat>, edges: seq<Edge>, rows: seq<Edge>, g: Graph) {
    /** The tables are what building the extract leaves. */
    ghost predicate Built() {
      && x.Ok() && Interned(nodes, denseID, x.locs) && (forall id :: id in denseID ==> x.split(id))
      && (forall k :: 0 <= k < |edges| ==> edges[k].id == k && edges[k].fromNode < |nodes| && edges[k].toNode < |nodes|)
      && Named(nodes, edges) == x.Roads()
    }

    /** The graph holds the tables: nodes in order, edges in some order. */
    ghost predicate Loaded() {
      && g.WellFormed() && g.metric == x.metric && multiset(rows) == multiset(StoredEdges(edges))
      && |nodes| == g.NumNodes() && (forall i :: 0 <= i < |nodes| ==> g.loc[i] == nodes[i].loc)
      && |rows| == g.NumEdges()
      && (forall e :: 0 <= e < |rows| ==> g.from[e] == rows[e].fromNode && g.to[e] == rows[e].toNode && g.lengthM[e] == rows[e].lengthM)
    }

    ghost predicate Ok() {
      Built() && Loaded()
    }

    /** The OSM id of a row of the node table. */
    function OsmID(n: int): int {
      if 0 <= n < |nodes| then nodes[n].osmID else -1
    }

    /** Edge `e` of the graph is road `r` of the extract, its length rounded. */
    predicate IsRoad(e: nat, r: Road) {
      && e < g.NumEdges() && e < |g.to| && e < |g.lengthM|
      && r.from == OsmID(g.from[e]) && r.to == OsmID(g.to[e])
      && r.lengthM - HALF_UNIT <= g.lengthM[e] <= r.lengthM + HALF_UNIT
    }
  }

  lemma EdgeIsRoad(m: Import, e: nat) returns (r: Road)
    requires m.Ok() && e < m.g.NumEdges()
    ensures r in m.x.Roads() && m.IsRoad(e, r)
  {
    assert m.rows[e] in multiset(StoredEdges(m.edges));
    var k :| 0 <= k < |m.edges| && StoredEdges(m.edges)[k] == m.rows[e];
    StoredIsClose(m.edges[k].lengthM);
    r := Named(m.nodes, m.edges)[k];
  }

  lemma RoadIsEdge(m: Import, r: Road) returns (e: nat)
    requires m.Ok() && r in m.x.Roads()
    ensures m.IsRoad(e, r)
  {
    var k :| 0 <= k < |m.edges| && Named(m.nodes, m.edges)[k] == r;
    StoredIsClose(m.edges[k].lengthM);
    assert StoredEdges(m.edges)[k] in multiset(m.rows);
    e :| 0 <= e < |m.rows| && m.rows[e] == StoredEdges(m.edges)[k];
  }

  /** Rows of the node table are told apart by their OSM ids. */
  lemma OsmIDsDistinct(m: Import, a: nat, b: nat)
    requires m.Built() && a < |m.nodes| && b < |m.nodes| && m.OsmID(a) == m.OsmID(b)
    ensures a == b
  {
    assert m.denseID[m.nodes[a].osmID] == a && m.denseID[m.nodes[b].osmID] == b;
  }

  // ------------------------------------------------------------------- loading

  predicate SortedRows(rows: seq<Edge>) {
    forall i, j :: 0 <= i < j < |rows| ==> rows[i].fromNode <= rows[j].fromNode
  }

  /** Put an edge after the last row whose source node is no greater. */
  function InsertRow(rows: seq<Edge>, e: Edge): seq<Edge> {
    if rows == [] || rows[|rows| - 1].fromNode <= e.fromNode then rows + [e]
    else InsertRow(rows[..|rows| - 1], e) + [rows[|rows| - 1]]
  }

  lemma {:induction false} InsertRowKeeps(rows: seq<Edge>, e: Edge)
    ensures multiset(InsertRow(rows, e)) == multiset(rows) + multiset{e}
  {
    if rows != [] && rows[|rows| - 1].fromNode > e.fromNode {
      var init, last := rows[..|rows| - 1], rows[|rows| - 1];
      InsertRowKeeps(init, e);
      assert rows == init + [last];
    }
  }

  lemma {:induction false} InsertRowSorts(rows: seq<Edge>, e: Edge)
    requires SortedRows(rows)
    ensures SortedRows(InsertRow(rows, e))
  {
    if rows != [] && rows[|rows| - 1].fromNode > e.fromNode {
      var init, last := rows[..|rows| - 1], rows[|rows| - 1];
      InsertRowSorts(init, e);
      var more := InsertRow(init, e);
      forall i | 0 <= i < |more| ensures more[i].fromNode <= last.fromNode {
        InsertRowKeeps(init, e);
        assert more[i] in multiset(more);
        assert more[i] == e || more[i] in init;
      }
    }
  }

  /** The edge table in the order the loader reads it: by source node, then by id. */
  function InOrder(edges: seq<Edge>): seq<Edge> {
    if edges == [] then [] else InsertRow(InOrder(edges[..|edges| - 1]), edges[|edges| - 1])
  }

  /** By source node, and by id among the edges out of one node. */
  predicate Before(a: Edge, b: Edge) {
    a.fromNode < b.fromNode || (a.fromNode == b.fromNode && a.id < b.id)
  }

  ghost predicate SortedBySourceAndId(rows: seq<Edge>) {
    forall i, j :: 0 <= i < j < |rows| ==> Before(rows[i], rows[j])
  }

  lemma {:induction false} InsertRowKeepsIds(rows: seq<Edge>, e: Edge)
    requires SortedBySourceAndId(rows) && forall i :: 0 <= i < |rows| ==> rows[i].id < e.id
    ensures SortedBySourceAndId(InsertRow(rows, e))
  {
    if rows != [] && rows[|rows| - 1].fromNode > e.fromNode {
      var init, last := rows[..|rows| - 1], rows[|rows| - 1];
      InsertRowKeepsIds(init, e);
      InsertRowKeeps(init, e);
      var more := InsertRow(init, e);
      forall i | 0 <= i < |more| ensures Before(more[i], last) {
        assert more[i] in multiset(more);
        assert more[i] == e || more[i] in init;
      }
    } else {
      forall i | 0 <= i < |rows| ensures Before(rows[i], e) {
        assert i < |rows| - 1 ==> Before(rows[i], rows[|rows| - 1]);
      }
    }
  }

  /** Edges numbered as they were emitted are read by source node and then by id. */
  lemma {:induction false} RowsAreInOrder(edges: seq<Edge>)
    requires forall i, j :: 0 <= i < j < |edges| ==> edges[i].id < edges[j].id
    ensures SortedBySourceAndId(InOrder(edges))
  {
    if edges != [] {
      var init, last := edges[..|edges| - 1], edges[|edges| - 1];
      RowsAreInOrder(init);
      InOrderIsSorted(init);
      forall i | 0 <= i < |InOrder(init)| ensures InOrder(init)[i].id < last.id {
        assert InOrder(init)[i] in multiset(InOrder(init));
        assert InOrder(init)[i] in init;
      }
      InsertRowKeepsIds(InOrder(init), last);
    }
  }

  lemma LastRow(edges: seq<Edge>)
    requires edges != []
    ensures multiset(edges) == multiset(edges[..|edges| - 1]) + multiset{edges[|edges| - 1]}
  {
    assert edges == edges[..|edges| - 1] + [edges[|edges| - 1]];
  }

  lemma {:induction false} InOrderIsSorted(edges: seq<Edge>)
    ensures multiset(InOrder(edges)) == multiset(edges) && SortedRows(InOrder(edges))
  {
    if edges != [] {
      var init, last := edges[..|edges| - 1], edges[|edges| - 1];
      InOrderIsSorted(init);
      InsertRowKeeps(InOrder(init), last);
      InsertRowSorts(InOrder(init), last);
      LastRow(edges);
    }
  }

  /** The tables a builder leaves. */
  ghost function TablesOf(b: Builder, x: Extract, rest: Graph): Import
    reads b
  {
    Import(x, b.nodes, b.denseID, b.edges, InOrder(StoredEdges(b.edges)), rest)
  }

  lemma TablesAreBuilt(b: Builder, x: Extract, rest: Graph)
    requires b.Valid() && b.metric == x.metric && b.locs == x.locs && b.Roads() == x.Roads()
    requires WellSurveyed(x.metric, x.ways, x.locs) && x.CutAtJunctions() && (forall id :: x.split(id) <==> IsJunction(x.ways, id))
    requires forall id :: id in b.denseID ==> x.split(id)
    ensures TablesOf(b, x, rest).Built()
  {
    WellSurveyedIsOk(x);
  }

  predicate EdgesInRange(edges: seq<Edge>, n: nat) {
    forall e :: 0 <= e < |edges| ==> edges[e].fromNode < n && edges[e].toNode < n && 0.0 <= edges[e].lengthM
  }

  /** Load the tables; `rest` supplies the columns that say nothing about topology. */
  method LoadGraph(metric: Metric, nodes: seq<Node>, edges: seq<Edge>, rest: Graph) returns (g: Graph)
    requires EdgesInRange(edges, |nodes|)
    ensures g == WithTopology(rest, metric, nodes, InOrder(edges), g.offs) && ExactOffsets(g.from, |nodes|, g.offs)
  {
    var rows := InOrder(edges);
    InOrderIsSorted(edges);
    RowsInRange(rows, edges, |nodes|);
    var from := seq(|rows|, i requires 0 <= i < |rows| => rows[i].fromNode);
    var offs := OffsetsOf(|nodes|, from);
    g := WithTopology(rest, metric, nodes, rows, offs);
  }

  lemma RowsInRange(rows: seq<Edge>, edges: seq<Edge>, n: nat)
    requires EdgesInRange(edges, n) && multiset(rows) == multiset(edges)
    ensures EdgesInRange(rows, n)
  {
    forall e | 0 <= e < |rows| ensures rows[e] in edges {
      assert rows[e] in multiset(edges);
    }
  }

  /** Offsets for rows in loading order. */
  method OffsetsOf(n: nat, from: seq<nat>) returns (offs: seq<nat>)
    requires GraphLoad.Sorted(from) && forall e :: 0 <= e < |from| ==> from[e] < n
    ensures ExactOffsets(from, n, offs)
  {
    var cols := new GraphLoad.Columns(n, from, [], [], []);
    var ok := cols.BuildOffsets();
    offs := cols.offs[..];
  }

  /** Built tables and a graph loaded from them make an import. */
  lemma LoadedIsOk(m: Import, rest: Graph, g: Graph)
    requires m.Built() && m.rows == InOrder(StoredEdges(m.edges))
    requires g == WithTopology(rest, m.x.metric, m.nodes, m.rows, g.offs) && ExactOffsets(g.from, |m.nodes|, g.offs)
    ensures m.(g := g).Ok()
  {
    InOrderIsSorted(StoredEdges(m.edges));
    BuiltInRange(m);
    RowsInRange(m.rows, StoredEdges(m.edges), |m.nodes|);
    TopologyIsLoaded(m.(g := g), rest);
  }

  lemma TopologyIsLoaded(m: Import, rest: Graph)
    requires multiset(m.rows) == multiset(StoredEdges(m.edges)) && EdgesInRange(m.rows, |m.nodes|)
    requires m.g == WithTopology(rest, m.x.metric, m.nodes, m.rows, m.g.offs) && ExactOffsets(m.g.from, |m.nodes|, m.g.offs)
    ensures m.Loaded()
  {
  }

  /** The graph with its topology taken from the tables. */
  function WithTopology(rest: Graph, metric: Metric, nodes: seq<Node>, rows: seq<Edge>, offs: seq<nat>): Graph {
    rest.(
      metric := metric,
      loc := seq(|nodes|, i requires 0 <= i < |nodes| => nodes[i].loc),
      from := seq(|rows|, i requires 0 <= i < |rows| => rows[i].fromNode),
      to := seq(|rows|, i requires 0 <= i < |rows| => rows[i].toNode),
      lengthM := seq(|rows|, i requires 0 <= i < |rows| => rows[i].lengthM),
      offs := offs)
  }

  /** Built and stored edges name real nodes and have a length. */
  lemma BuiltInRange(m: Import)
    requires m.Built()
    ensures EdgesInRange(StoredEdges(m.edges), |m.nodes|)
  {
    forall k | 0 <= k < |m.edges| ensures 0.0 <= Stored(m.edges[k].lengthM) {
      var w, run, back := RoadIsRun(m.x, Named(m.nodes, m.edges)[k]);
      StretchNonNegative(m.x, w, run.s, run.t);
      StoredIsClose(m.edges[k].lengthM);
    }
  }

  // ---------------------------------------------------------- walks and drives

  /** Two lengths differ by at most half a unit a step. */
  predicate Close(a: real, b: real, steps: nat) {
    a - Widths(steps, HALF_UNIT) <= b <= a + Widths(steps, HALF_UNIT)
  }

  lemma {:induction false} WalkIsDrive(m: Import, start: nat, p: seq<nat>) returns (rs: seq<Road>)
    requires m.Ok() && IsWalk(m.g, start, p)
    ensures Drives(m.x.Roads(), m.OsmID(start), rs) && DriveEnd(m.OsmID(start), rs) == m.OsmID(m.g.to[Last(p)])
    ensures Close(DriveLength(rs), WalkLength(m.g, p), |p|)
    decreases |p|
  {
    rs := [];
    if |p| > 1 {
      WalkInit(m.g, start, p);
      rs := WalkIsDrive(m, start, Init(p));
    }
    var r := EdgeIsRoad(m, Last(p));
    DriveOn(m.x.Roads(), m.OsmID(start), rs, r);
    rs := rs + [r];
  }

  lemma {:induction false} DriveIsWalk(m: Import, start: nat, rs: seq<Road>) returns (p: seq<nat>)
    requires m.Ok() && start < m.g.NumNodes() && rs != [] && Drives(m.x.Roads(), m.OsmID(start), rs)
    ensures IsWalk(m.g, start, p) && m.OsmID(m.g.to[Last(p)]) == DriveEnd(m.OsmID(start), rs)
    ensures |p| == |rs| && Close(DriveLength(rs), WalkLength(m.g, p), |p|)
    decreases |rs|
  {
    var init := rs[..|rs| - 1];
    var e := RoadIsEdge(m, rs[|rs| - 1]);
    if init == [] {
      OsmIDsDistinct(m, m.g.from[e], start);
      p := [e];
      assert Init([e]) == [];
    } else {
      p := DriveIsWalk(m, start, init);
      OsmIDsDistinct(m, m.g.from[e], m.g.to[Last(p)]);
      WalkExtend(m.g, start, p, e);
      Snoc(p, e);
      p := p + [e];
    }
  }

  // ------------------------------------------------------------- lengths as costs

  /** Options that price an edge at its length and nothing else. */
  function LengthOnly(g: Graph): Options {
    Options((e: nat) => EdgeLength(g, e), None, None, None, 0.0, 0, 0, false)
  }

  lemma {:induction false} LengthOnlyCost(g: Graph, p: seq<nat>)
    ensures WalkCost(LengthOnly(g), p) == WalkLength(g, p)
  {
    if p != [] {
      LengthOnlyCost(g, Init(p));
    }
  }

  /** With lengths for costs the estimate is consistent for every goal exactly when no edge that another leads onto is shorter than the straight line. */
  lemma LengthOnlyIsConsistentExactly(g: Graph)
    requires g.WellFormed() && IsMetric(g.metric)
    ensures (forall goal :: 0 <= goal < g.NumNodes() ==> ConsistentEstimate(g, goal, LengthOnly(g)))
            <==> forall e, f :: 0 <= e < g.NumEdges() && 0 <= f < g.NumEdges() && g.to[e] == g.from[f] ==>
                   g.metric(g.loc[g.from[f]], g.loc[g.to[f]]) <= g.lengthM[f]
  {
    var opt := LengthOnly(g);
    if forall e, f :: 0 <= e < g.NumEdges() && 0 <= f < g.NumEdges() && g.to[e] == g.from[f] ==>
         g.metric(g.loc[g.from[f]], g.loc[g.to[f]]) <= g.lengthM[f]
    {
      forall goal | 0 <= goal < g.NumNodes() ensures ConsistentEstimate(g, goal, opt) {
        CoveredIsConsistent(g, goal);
      }
    }
    forall e, f | 0 <= e < g.NumEdges() && 0 <= f < g.NumEdges() && g.to[e] == g.from[f] && ConsistentEstimate(g, g.to[f], opt)
      ensures g.metric(g.loc[g.from[f]], g.loc[g.to[f]]) <= g.lengthM[f]
    {
      assert Estimate(g, g.to[f], opt, e) <= opt.Turn(e, f) + opt.edgeCost(f) + Estimate(g, g.to[f], opt, f);
    }
  }

  lemma CoveredIsConsistent(g: Graph, goal: nat)
    requires g.WellFormed() && IsMetric(g.metric) && goal < g.NumNodes()
    requires forall e, f :: 0 <= e < g.NumEdges() && 0 <= f < g.NumEdges() && g.to[e] == g.from[f] ==>
               g.metric(g.loc[g.from[f]], g.loc[g.to[f]]) <= g.lengthM[f]
    ensures ConsistentEstimate(g, goal, LengthOnly(g))
  {
    var opt := LengthOnly(g);
    forall e, f | 0 <= e < g.NumEdges() && 0 <= f < g.NumEdges() && g.to[e] == g.from[f]
      ensures Estimate(g, goal, opt, e) <= opt.Turn(e, f) + opt.edgeCost(f) + Estimate(g, goal, opt, f)
    {
      var a, b, c := g.loc[g.from[f]], g.loc[g.to[f]], g.loc[goal];
      assert g.metric(a, c) <= g.metric(a, b) + g.metric(b, c);
    }
  }

  /** A straight road of 10.0004 metres is stored as 10 metres, below its own straight line; reached from another edge, it makes the estimate inconsistent. */
  lemma StoredStraightRoadFallsShort(g: Graph, e: nat, f: nat)
    requires g.WellFormed() && IsMetric(g.metric) && e < g.NumEdges() && f < g.NumEdges() && g.to[e] == g.from[f]
    requires g.metric(g.loc[g.from[f]], g.loc[g.to[f]]) == 10.0004 && g.lengthM[f] == Stored(10.0004)
    ensures g.lengthM[f] == 10.0 && !ConsistentEstimate(g, g.to[f], LengthOnly(g))
  {
    var opt := LengthOnly(g);
    assert (10.0004 * 1000.0).Floor == 10000;
    assert opt.Turn(e, f) == 0.0;
  }

  lemma RoadCoversDistance(x: Extract, r: Road)
    requires x.Ok() && r in x.Roads()
    ensures r.from in x.locs && r.to in x.locs && x.metric(x.locs[r.from], x.locs[r.to]) <= r.lengthM
  {
    var w, run, back := RoadIsRun(x, r);
    StretchCoversDistance(x, w, run.s, run.t);
  }

  lemma StretchCoversDistance(x: Extract, w: nat, s: nat, t: nat)
    requires IsMetric(x.metric) && x.Located() && s <= t && x.IsNode(w, t)
    ensures x.IsNode(w, s) && x.NodeAt(w, s) in x.locs && x.NodeAt(w, t) in x.locs
    ensures x.metric(x.locs[x.NodeAt(w, s)], x.locs[x.NodeAt(w, t)]) <= x.Stretch(w, s, t)
    ensures x.metric(x.locs[x.NodeAt(w, t)], x.locs[x.NodeAt(w, s)]) <= x.Stretch(w, s, t)
  {
    AllOnWay(x, w, s, t);
    var ids := x.ways[w].nodes[s..t + 1];
    assert x.IsNode(w, s) && ids[0] == x.NodeAt(w, s) && ids[|ids| - 1] == x.NodeAt(w, t);
    PathCoversDistance(x.metric, ShapeOf(ids, x.locs));
  }

  /** Built lengths are never below the straight line, and stored ones by at most half a unit. */
  lemma ImportNearlyCoversDistance(m: Import)
    requires m.Ok()
    ensures Safety.RoadsNearlyCoverDistance(m.g, HALF_UNIT)
  {
    forall e | 0 <= e < m.g.NumEdges() ensures m.g.metric(m.g.loc[m.g.from[e]], m.g.loc[m.g.to[e]]) <= m.g.lengthM[e] + HALF_UNIT {
      var r := EdgeIsRoad(m, e);
      RoadCoversDistance(m.x, r);
    }
  }

  /** Some journey over the raw ways is `d` long but for half a unit for each of `steps` edges, and none is shorter by more than a unit for each of its own hops. */
  ghost predicate IsNearlyDistance(x: Extract, a: int, b: int, d: real, steps: nat)
    requires x.Located()
  {
    && (exists hs :: Travels(x, a, hs) && TravelEnd(x, a, hs) == b && Close(d, TravelLength(x, hs), steps))
    && (forall hs {:trigger Travels(x, a, hs)} :: Travels(x, a, hs) && TravelEnd(x, a, hs) == b ==>
          d <= TravelLength(x, hs) + Widths(|hs|, HALF_UNIT) + Widths(|hs|, HALF_UNIT))
  }

  /** A found length-only route is as long as a shortest journey over the raw ways, to the precision of the stored lengths. */
  lemma FoundIsShortestJourney(m: Import, start: nat, goal: nat, path: Path)
    requires m.Ok() && start < m.g.NumNodes() && goal < m.g.NumNodes() && start != goal
    requires SearchSpec(m.g, start, goal, LengthOnly(m.g), Found(path))
    ensures IsNearlyDistance(m.x, m.OsmID(start), m.OsmID(goal), path.cost, |path.edges|)
  {
    var a, b := m.OsmID(start), m.OsmID(goal);
    LengthOnlyCost(m.g, path.edges);
    var rs := WalkIsDrive(m, start, path.edges);
    var hs := DriveUnfolds(m.x, a, rs);
    forall hs | Travels(m.x, a, hs) && TravelEnd(m.x, a, hs) == b
      ensures path.cost <= TravelLength(m.x, hs) + Widths(|hs|, HALF_UNIT) + Widths(|hs|, HALF_UNIT)
    {
      NoJourneyIsShorter(m, start, goal, path, hs);
    }
  }

  lemma NodesAreSplit(m: Import, n: nat)
    requires m.Built() && n < |m.nodes|
    ensures m.x.split(m.OsmID(n))
  {
    assert m.nodes[n].osmID in m.denseID;
  }

  lemma NoJourneyIsShorter(m: Import, start: nat, goal: nat, path: Path, hs: seq<Hop>)
    requires m.Ok() && start < m.g.NumNodes() && goal < m.g.NumNodes() && start != goal
    requires SearchSpec(m.g, start, goal, LengthOnly(m.g), Found(path))
    requires Travels(m.x, m.OsmID(start), hs) && TravelEnd(m.x, m.OsmID(start), hs) == m.OsmID(goal)
    ensures path.cost <= TravelLength(m.x, hs) + Widths(|hs|, HALF_UNIT) + Widths(|hs|, HALF_UNIT)
  {
    NodesAreSplit(m, start);
    NodesAreSplit(m, goal);
    var rs := FoldsToCut(m.x, m.OsmID(start), m.OsmID(goal), hs);
    NoDriveIsCheaper(m, start, goal, path, rs);
    WidthsGrow(|rs|, |hs|, HALF_UNIT);
  }

  lemma NoDriveIsCheaper(m: Import, start: nat, goal: nat, path: Path, rs: seq<Road>)
    requires m.Ok() && start < m.g.NumNodes() && goal < m.g.NumNodes() && start != goal
    requires SearchSpec(m.g, start, goal, LengthOnly(m.g), Found(path))
    requires Drives(m.x.Roads(), m.OsmID(start), rs) && DriveEnd(m.OsmID(start), rs) == m.OsmID(goal)
    ensures path.cost <= DriveLength(rs) + Widths(|rs|, HALF_UNIT) + Widths(|rs|, HALF_UNIT)
  {
    var p := DriveToGoal(m, start, goal, rs);
    ImportNearlyCoversDistance(m);
    Safety.LengthFloorIsNearlyConsistent(m.g, goal, LengthOnly(m.g), HALF_UNIT);
    SearchResults.PermittedFits(m.g, start, goal, LengthOnly(m.g), p);
    LengthOnlyCost(m.g, p);
  }

  lemma DriveToGoal(m: Import, start: nat, goal: nat, rs: seq<Road>) returns (p: seq<nat>)
    requires m.Ok() && start < m.g.NumNodes() && goal < m.g.NumNodes() && start != goal
    requires Drives(m.x.Roads(), m.OsmID(start), rs) && DriveEnd(m.OsmID(start), rs) == m.OsmID(goal)
    ensures IsRoute(m.g, start, goal, p) && |p| == |rs| && Close(DriveLength(rs), WalkLength(m.g, p), |p|)
  {
    if rs == [] {
      OsmIDsDistinct(m, start, goal);
    }
    p := DriveIsWalk(m, start, rs);
    OsmIDsDistinct(m, m.g.to[Last(p)], goal);
  }

  /** When the router gives up, the raw ways offer no journey either. */
  lemma UnroutableMeansNoJourney(m: Import, start: nat, goal: nat)
    requires m.Ok() && start < m.g.NumNodes() && goal < m.g.NumNodes() && start != goal
    requires SearchSpec(m.g, start, goal, LengthOnly(m.g), Unroutable)
    ensures !Reachable(m.x, m.OsmID(start), m.OsmID(goal))
  {
    var a, b := m.OsmID(start), m.OsmID(goal);
    NodesAreSplit(m, start);
    NodesAreSplit(m, goal);
    ContractionPreservesDistance(m.x, a, b, 0.0);
    if Drivable(m.x.Roads(), a, b) {
      var rs :| Drives(m.x.Roads(), a, rs) && DriveEnd(a, rs) == b;
      var p := DriveToGoal(m, start, goal, rs);
      SearchResults.UnbudgetedIsOptimal(m.g, start, goal, LengthOnly(m.g), Unroutable, p);
    }
  }

  // ------------------------------------------------------------- end to end

  /** The extract of these ways, cut at its junctions. */
  ghost function Scanned(metric: Metric, ways: seq<Way>, locs: map<int, LatLon>): Extract {
    Extract(metric, ways, (id: int) => IsJunction(ways, id), locs)
  }

  /** Every node of every kept way has a location, and no run between two distinct junctions is without length. */
  ghost predicate WellSurveyed(metric: Metric, ways: seq<Way>, locs: map<int, LatLon>) {
    IsMetric(metric) && Scanned(metric, ways, locs).Located() && Scanned(metric, ways, locs).NoEmptyRuns()
  }

  lemma WellSurveyedIsOk(x: Extract)
    requires WellSurveyed(x.metric, x.ways, x.locs) && x.CutAtJunctions() && forall id :: x.split(id) <==> IsJunction(x.ways, id)
    ensures x.Ok()
  {
    var y := Scanned(x.metric, x.ways, x.locs);
    forall w, i | x.IsNode(w, i) ensures x.NodeAt(w, i) in x.locs {
      assert y.IsNode(w, i);
    }
    forall w: nat, run: Run | w < |x.ways| && IsRun(x.ways[w], x.split, run) && x.NodeAt(w, run.s) != x.NodeAt(w, run.t)
      ensures 0.0 < x.Stretch(w, run.s, run.t)
    {
      SameRun(x.ways[w], x.split, y.split, run);
      SameStretch(x, y, w, run.s, run.t);
    }
  }

  /** Lengths do not depend on where the ways are cut. */
  lemma SameStretch(x: Extract, y: Extract, w: nat, s: nat, t: nat)
    requires x.metric == y.metric && x.ways == y.ways && x.locs == y.locs && x.Located() && y.Located() && s <= t && x.IsNode(w, t)
    ensures y.IsNode(w, t) && x.Stretch(w, s, t) == y.Stretch(w, s, t)
  {
  }

  lemma SameRun(w: Way, split: int -> bool, split': int -> bool, run: Run)
    requires IsRun(w, split, run) && forall id {:trigger split(id)} {:trigger split'(id)} :: split(id) <==> split'(id)
    ensures IsRun(w, split', run)
  {
    forall k {:trigger w.nodes[k]} | run.s <= k <= run.t ensures split'(w.nodes[k]) == split(w.nodes[k]) {
      var id := w.nodes[k];
      assert split(id) <==> split'(id);
    }
  }

  /** From raw ways to the node and edge tables. */
  method BuildTables(metric: Metric, raw: seq<Way>, locs: map<int, LatLon>, details: Details, ghost rest: Graph)
    returns (nodes: seq<Node>, edges: seq<Edge>, ghost m: Import)
    requires WellSurveyed(metric, Kept(raw), locs)
    ensures m.Built() && m.nodes == nodes && m.edges == edges && m.rows == InOrder(StoredEdges(edges))
    ensures m.x.metric == metric && m.x.ways == Kept(raw) && m.x.locs == locs
  {
    assert WellSurveyed(metric, Kept(raw), locs);
    var b;
    ghost var x;
    b, x := Ingest(metric, raw, locs, details);
    TablesAreBuilt(b, x, rest);
    m := TablesOf(b, x, rest);
    nodes, edges := b.nodes, b.edges;
  }

  /** From raw ways to a graph that stands for them; nothing when some edge is too short to be stored. */
  method BuildAndLoad(metric: Metric, raw: seq<Way>, locs: map<int, LatLon>, details: Details, rest: Graph) returns (g: Option<Graph>, ghost m: Import)
    requires WellSurveyed(metric, Kept(raw), locs)
    ensures m.Built() && m.x.metric == metric && m.x.ways == Kept(raw) && m.x.locs == locs
    ensures g.None? <==> exists k :: 0 <= k < |m.edges| && Stored(m.edges[k].lengthM) <= 0.0
    ensures g.Some? ==> m.Ok() && m.g == g.value
  {
    var nodes, edges;
    nodes, edges, m := BuildTables(metric, raw, locs, details, rest);
    var stored := Store(edges);
    if stored.None? {
      return None, m;
    }
    BuiltInRange(m);
    var loaded := LoadGraph(metric, nodes, stored.value, rest);
    LoadedIsOk(m, rest, loaded);
    g, m := Some(loaded), m.(g := loaded);
  }

  /**
   From raw ways to an answer: scan, cut, store, load and search. The answer is
   the distance between the two nodes over the raw ways, to the precision of
   the stored lengths, or that there is none.
   */
  method RouteOverWays(w: Workspaces.Workspace, metric: Metric, raw: seq<Way>, locs: map<int, LatLon>, details: Details, rest: Graph, start: int, goal: int)
    returns (o: Option<Outcome>, ghost m: Import)
    requires WellSurveyed(metric, Kept(raw), locs) && w.Valid()
    modifies w.Repr
    ensures m.Built() && m.x.metric == metric && m.x.ways == Kept(raw) && m.x.locs == locs
    ensures o.None? <==> exists k :: 0 <= k < |m.edges| && Stored(m.edges[k].lengthM) <= 0.0
    ensures o.Some? ==> m.Ok() && SearchSpec(m.g, start, goal, LengthOnly(m.g), o.value)
    ensures o.Some? && start != goal && o.value.Found? && InRange(m.g, goal) ==>
              InRange(m.g, start) && IsNearlyDistance(m.x, m.OsmID(start), m.OsmID(goal), o.value.path.cost, |o.value.path.edges|)
    ensures o == Some(Unroutable) ==> !Reachable(m.x, m.OsmID(start), m.OsmID(goal))
  {
    var g;
    g, m := BuildAndLoad(metric, raw, locs, details, rest);
    if g.None? {
      return None, m;
    }
    var answer := SearchOn(w, g.value, start, goal, LengthOnly(g.value));
    OutcomeMeansDistance(m, start, goal, answer);
    o := Some(answer);
  }

  lemma OutcomeMeansDistance(m: Import, start: int, goal: int, o: Outcome)
    requires m.Ok() && SearchSpec(m.g, start, goal, LengthOnly(m.g), o)
    ensures start != goal && o.Found? && InRange(m.g, goal) ==>
              InRange(m.g, start) && IsNearlyDistance(m.x, m.OsmID(start), m.OsmID(goal), o.path.cost, |o.path.edges|)
    ensures o == Unroutable ==> !Reachable(m.x, m.OsmID(start), m.OsmID(goal))
  {
    if start != goal && o.Found? && InRange(m.g, goal) {
      assert o.path.edges[0] < m.g.NumEdges();
      FoundIsShortestJourney(m, start, goal, o.path);
    }
    if o == Unroutable {
      UnroutableMeansNoJourney(m, start, goal);
    }
  }
}
