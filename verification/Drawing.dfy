/**
 Drawing a route over imported roads: the shapes stored with the edges
 (internal/osm/build.go:102-177) and put together again in path order
 (internal/routing/geometry.go:24-101) make one line from the route's start to
 its goal.
 */
module Drawing {
  import opened Wrappers
  import opened Geo
  import opened RoadGraph
  import opened Walks
  import opened GraphBuild
  import opened Contraction
  import opened Pipeline
  import opened Geometry

  /** The shape of each edge, by its database id. */
  ghost predicate IsShapeTable(m: Import, shapes: map<int, seq<LatLon>>) {
    forall k {:trigger m.edges[k]} :: 0 <= k < |m.edges| ==> k in shapes && shapes[k] == m.edges[k].shape
  }

  /** The row of an edge of the graph, in the edge table. */
  lemma RowOfEdge(m: Import, e: nat) returns (k: nat)
    requires m.Ok() && e < m.g.NumEdges()
    ensures k < |m.edges| && m.rows[e].id == k && m.rows[e].shape == m.edges[k].shape
    ensures m.g.from[e] == m.edges[k].fromNode && m.g.to[e] == m.edges[k].toNode
  {
    assert m.rows[e] in multiset(StoredEdges(m.edges));
    k :| 0 <= k < |m.edges| && StoredEdges(m.edges)[k] == m.rows[e];
  }

  /** The shape of an edge of the graph runs from its source node to its target node. */
  lemma EdgeIsDrawn(m: Import, e: nat)
    requires m.Ok() && e < m.g.NumEdges()
    ensures var s := m.rows[e].shape; |s| >= 2 && s[0] == m.g.loc[m.g.from[e]] && s[|s| - 1] == m.g.loc[m.g.to[e]]
  {
    var k := RowOfEdge(m, e);
    var r := Named(m.nodes, m.edges)[k];
    var w, run, back := RoadIsRun(m.x, r);
    RideEnds(m.x, r, w, run, back);
  }

  lemma RideEnds(x: Extract, r: Road, w: nat, run: Run, back: bool)
    requires x.Located() && run.s < run.t && x.IsNode(w, run.t) && StandsFor(x, r, w, run, back)
    ensures |r.shape| >= 2 && r.from in x.locs && r.to in x.locs
    ensures r.shape[0] == x.locs[r.from] && r.shape[|r.shape| - 1] == x.locs[r.to]
  {
    assert IsAt(x, r.shape[0], w, if back then run.t else run.s);
    assert IsAt(x, r.shape[|r.shape| - 1], w, if back then run.s else run.t);
  }

  ghost function PathShapes(m: Import, p: seq<nat>): seq<seq<LatLon>>
    requires forall i :: 0 <= i < |p| ==> p[i] < |m.rows|
  {
    seq(|p|, i requires 0 <= i < |p| => m.rows[p[i]].shape)
  }

  /** Each edge of a walk is drawn from where the one before it ended. */
  lemma WalkShapesJoin(m: Import, start: nat, p: seq<nat>)
    requires m.Ok() && IsWalk(m.g, start, p)
    ensures JoinedUp(PathShapes(m, p))
  {
    var shapes := PathShapes(m, p);
    forall k | 0 <= k < |shapes| && shapes[k] != [] && LastPoint(shapes[..k]).Some? ensures LastPoint(shapes[..k]).value == shapes[k][0] {
      if k > 0 {
        DrawnOn(m, start, p, k);
      }
    }
  }

  lemma DrawnOn(m: Import, start: nat, p: seq<nat>, k: nat)
    requires m.Ok() && IsWalk(m.g, start, p) && 0 < k < |p|
    ensures m.rows[p[k]].shape != [] && LastPoint(PathShapes(m, p)[..k]) == Some(m.rows[p[k]].shape[0])
  {
    EdgeIsDrawn(m, p[k - 1]);
    EdgeIsDrawn(m, p[k]);
    var before := PathShapes(m, p)[..k];
    assert before[|before| - 1] == m.rows[p[k - 1]].shape;
    assert m.g.from[p[k]] == m.g.to[p[k - 1]];
  }

  /** The line of a walk leads from its start to its end. */
  lemma LineOfWalk(m: Import, start: nat, p: seq<nat>)
    requires m.Ok() && IsWalk(m.g, start, p) && start < m.g.NumNodes()
    ensures var line := Line(PathShapes(m, p));
            line != [] && line[0] == m.g.loc[start] && line[|line| - 1] == m.g.loc[m.g.to[Last(p)]]
  {
    WalkShapesJoin(m, start, p);
    WalkShapeEnds(m, start, p);
    LineRuns(PathShapes(m, p));
  }

  /** The first shape of a walk begins at its start, and the last ends at its end. */
  lemma WalkShapeEnds(m: Import, start: nat, p: seq<nat>)
    requires m.Ok() && IsWalk(m.g, start, p) && start < m.g.NumNodes()
    ensures var shapes := PathShapes(m, p);
            var first, last := shapes[0], shapes[|p| - 1];
            first != [] && last != [] && first[0] == m.g.loc[start] && last[|last| - 1] == m.g.loc[m.g.to[Last(p)]]
  {
    EdgeIsDrawn(m, p[0]);
    EdgeIsDrawn(m, Last(p));
  }

  /** Shapes that join make one line from the first to the last. */
  lemma LineRuns(shapes: seq<seq<LatLon>>)
    requires JoinedUp(shapes) && shapes != [] && shapes[0] != [] && shapes[|shapes| - 1] != []
    ensures var line, last := Line(shapes), shapes[|shapes| - 1];
            line != [] && line[0] == shapes[0][0] && line[|line| - 1] == last[|last| - 1]
  {
    LineStarts(shapes);
    LineEnds(shapes);
  }

  lemma LineStarts(shapes: seq<seq<LatLon>>)
    requires shapes != [] && shapes[0] != []
    ensures Line(shapes) != [] && Line(shapes)[0] == shapes[0][0]
  {
    assert shapes[..1][..0] == [];
    LinePrefix(shapes, 1);
  }

  lemma LineEnds(shapes: seq<seq<LatLon>>)
    requires JoinedUp(shapes) && shapes != [] && shapes[|shapes| - 1] != []
    ensures var line, last := Line(shapes), shapes[|shapes| - 1]; line != [] && line[|line| - 1] == last[|last| - 1]
  {
    LineEndsAtLastPoint(shapes);
  }

  /** Edge `i` of a path is drawn by the slice of the line at its offsets. */
  ghost predicate DrawnAt(m: Import, p: seq<nat>, line: seq<LatLon>, offs: seq<nat>, i: nat)
    requires |offs| == |p| + 1
  {
    i < |p| && p[i] < |m.rows| && offs[i] <= offs[i + 1] < |line| && line[offs[i]..offs[i + 1] + 1] == m.rows[p[i]].shape
  }

  lemma SliceIsShape(m: Import, start: nat, p: seq<nat>, offs: seq<nat>, i: nat)
    requires m.Ok() && IsWalk(m.g, start, p) && Geometry.OffsetsOf(PathShapes(m, p), offs) && i < |p|
    ensures DrawnAt(m, p, Line(PathShapes(m, p)), offs, i)
  {
    WalkShapesJoin(m, start, p);
    EdgeIsDrawn(m, p[i]);
    SlicingRecovers(PathShapes(m, p), offs, i);
  }

  /** Draw a walk: one line from its start to its end, and every edge's own shape is the slice at its offsets. */
  method DrawWalk(ghost m: Import, ghost start: nat, ghost p: seq<nat>, ids: seq<int>, shapes: map<int, seq<LatLon>>)
    returns (line: seq<LatLon>, offs: seq<nat>)
    requires m.Ok() && IsWalk(m.g, start, p) && start < m.g.NumNodes() && IsShapeTable(m, shapes)
    requires |ids| == |p| && forall i :: 0 <= i < |p| ==> ids[i] == m.rows[p[i]].id
    ensures line != [] && line[0] == m.g.loc[start] && line[|line| - 1] == m.g.loc[m.g.to[Last(p)]]
    ensures |offs| == |p| + 1 && offs[0] == 0 && offs[|p|] == |line| - 1
    ensures forall i :: 0 <= i < |p| ==> DrawnAt(m, p, line, offs, i)
  {
    IdsHaveShapes(m, start, p, ids, shapes);
    var r := Assemble(ids, shapes);
    line, offs := r.value.0, r.value.1;
    LineOfWalk(m, start, p);
    OffsetsRise(PathShapes(m, p), offs);
    forall i | 0 <= i < |p| ensures DrawnAt(m, p, line, offs, i) {
      SliceIsShape(m, start, p, offs, i);
    }
  }

  lemma IdsHaveShapes(m: Import, start: nat, p: seq<nat>, ids: seq<int>, shapes: map<int, seq<LatLon>>)
    requires m.Ok() && IsWalk(m.g, start, p) && IsShapeTable(m, shapes)
    requires |ids| == |p| && forall i :: 0 <= i < |p| ==> ids[i] == m.rows[p[i]].id
    ensures (forall i :: 0 <= i < |ids| ==> ids[i] in shapes) && ShapesOf(ids, shapes) == PathShapes(m, p)
  {
    forall i | 0 <= i < |p| ensures ids[i] in shapes && shapes[ids[i]] == m.rows[p[i]].shape {
      var k := RowOfEdge(m, p[i]);
    }
  }
}
