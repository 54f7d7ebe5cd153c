/**
 Drawing a route: joining edge shapes into one line
 (internal/routing/geometry.go:63-101) and cutting the line into runs of equal
 character (internal/httpapi/route_handler.go:111-178).
 */
module Geometry {
  import opened Wrappers
  import opened Geo
  import opened RoadGraph
  import Walks

  // ---------------------------------------------------------------- the line

  /** The line so far extended by one shape; the junction both share is kept once. */
  function Join(line: seq<LatLon>, shape: seq<LatLon>): seq<LatLon> {
    line + if line != [] && shape != [] then shape[1..] else shape
  }

  function Line(shapes: seq<seq<LatLon>>): seq<LatLon> {
    if shapes == [] then [] else Join(Line(shapes[..|shapes| - 1]), shapes[|shapes| - 1])
  }

  /** The index of the line's last point, or 0 before there is any. */
  function EndIndex(line: seq<LatLon>): nat {
    if line == [] then 0 else |line| - 1
  }

  /** Where the last shape that is not empty ends. */
  function LastPoint(shapes: seq<seq<LatLon>>): Option<LatLon> {
    if shapes == [] then None
    else
      var s := shapes[|shapes| - 1];
      if s != [] then Some(s[|s| - 1]) else LastPoint(shapes[..|shapes| - 1])
  }

  /** Every shape that is not empty starts where the one before it ended. */
  ghost predicate JoinedUp(shapes: seq<seq<LatLon>>) {
    forall k {:trigger shapes[k]} :: 0 <= k < |shapes| && shapes[k] != [] && LastPoint(shapes[..k]).Some? ==>
      LastPoint(shapes[..k]).value == shapes[k][0]
  }

  lemma {:induction false} LineEndsAtLastPoint(shapes: seq<seq<LatLon>>)
    requires JoinedUp(shapes)
    ensures Line(shapes) == [] <==> LastPoint(shapes) == None
    ensures Line(shapes) != [] ==> LastPoint(shapes) == Some(Line(shapes)[|Line(shapes)| - 1])
  {
    if shapes != [] {
      var init := shapes[..|shapes| - 1];
      assert forall k :: 0 <= k < |init| ==> init[..k] == shapes[..k];
      LineEndsAtLastPoint(init);
      assert shapes[..|shapes| - 1] == init;
    }
  }

  lemma {:induction false} LinePrefix(shapes: seq<seq<LatLon>>, i: nat)
    requires i <= |shapes|
    ensures |Line(shapes[..i])| <= |Line(shapes)| && Line(shapes)[..|Line(shapes[..i])|] == Line(shapes[..i])
    decreases |shapes|
  {
    if i < |shapes| {
      var init := shapes[..|shapes| - 1];
      LinePrefix(init, i);
      assert init[..i] == shapes[..i];
    } else {
      assert shapes[..i] == shapes;
    }
  }

  /** What `assemble` puts in the offset column. */
  ghost predicate OffsetsOf(shapes: seq<seq<LatLon>>, offs: seq<nat>) {
    |offs| == |shapes| + 1 && forall i {:trigger offs[i]} :: 0 <= i <= |shapes| ==> offs[i] == EndIndex(Line(shapes[..i]))
  }

  /** Joining a shape on leaves it readable from the shared junction on. */
  lemma JoinKeepsShape(before: seq<LatLon>, shape: seq<LatLon>)
    requires shape != [] && (before != [] ==> before[|before| - 1] == shape[0])
    ensures EndIndex(before) <= EndIndex(Join(before, shape)) == |Join(before, shape)| - 1
    ensures Join(before, shape)[EndIndex(before)..] == shape
  {
  }

  lemma JoinedBefore(shapes: seq<seq<LatLon>>, i: nat)
    requires JoinedUp(shapes) && i < |shapes| && shapes[i] != []
    ensures Line(shapes[..i]) != [] ==> Line(shapes[..i])[|Line(shapes[..i])| - 1] == shapes[i][0]
  {
    forall k | 0 <= k < i ensures shapes[..i][..k] == shapes[..k] {
    }
    assert JoinedUp(shapes[..i]);
    LineEndsAtLastPoint(shapes[..i]);
  }

  /** Slicing the line at the offsets, end included, gives back every shape that is not empty. */
  lemma SlicingRecovers(shapes: seq<seq<LatLon>>, offs: seq<nat>, i: nat)
    requires JoinedUp(shapes) && OffsetsOf(shapes, offs) && i < |shapes| && shapes[i] != []
    ensures offs[i] <= offs[i + 1] < |Line(shapes)|
    ensures Line(shapes)[offs[i]..offs[i + 1] + 1] == shapes[i]
  {
    ShapeEndsPrefix(shapes, offs, i);
    LinePrefix(shapes, i + 1);
    SliceOfPrefix(Line(shapes), offs[i], offs[i + 1] + 1);
  }

  lemma ShapeEndsPrefix(shapes: seq<seq<LatLon>>, offs: seq<nat>, i: nat)
    requires JoinedUp(shapes) && OffsetsOf(shapes, offs) && i < |shapes| && shapes[i] != []
    ensures offs[i] <= offs[i + 1] && offs[i + 1] + 1 == |Line(shapes[..i + 1])|
    ensures Line(shapes[..i + 1])[offs[i]..] == shapes[i]
  {
    assert shapes[..i + 1][..i] == shapes[..i];
    JoinedBefore(shapes, i);
    JoinKeepsShape(Line(shapes[..i]), shapes[i]);
  }

  lemma SliceOfPrefix(line: seq<LatLon>, a: nat, b: nat)
    requires a <= b <= |line|
    ensures line[..b][a..] == line[a..b]
  {
  }

  /** Offsets never go back, start at 0, and end at the line's last point. */
  lemma OffsetsRise(shapes: seq<seq<LatLon>>, offs: seq<nat>)
    requires OffsetsOf(shapes, offs)
    ensures offs[0] == 0 && offs[|shapes|] == EndIndex(Line(shapes)) && Rises(offs)
  {
    assert shapes[..|shapes|] == shapes;
    forall i, j | 0 <= i <= j < |offs| ensures offs[i] <= offs[j] {
      LinePrefix(shapes[..j], i);
      assert shapes[..j][..i] == shapes[..i];
    }
  }

  /** The shapes of a path's edges, in path order. */
  ghost function ShapesOf(ids: seq<int>, shapes: map<int, seq<LatLon>>): seq<seq<LatLon>>
    requires forall i :: 0 <= i < |ids| ==> ids[i] in shapes
  {
    seq(|ids|, i requires 0 <= i < |ids| => shapes[ids[i]])
  }

  /** The offsets of the first `i` shapes are known. */
  ghost predicate OffsetsUpTo(ids: seq<int>, shapes: map<int, seq<LatLon>>, offs: seq<nat>, i: nat)
    requires i <= |ids| < |offs| && forall k :: 0 <= k < i ==> ids[k] in shapes
  {
    forall k {:trigger offs[k]} :: 0 <= k <= i ==> offs[k] == EndIndex(Line(ShapesOf(ids[..k], shapes)))
  }

  lemma NextOffset(ids: seq<int>, shapes: map<int, seq<LatLon>>, offs: seq<nat>, i: nat, line: seq<LatLon>)
    requires i < |ids| < |offs| && (forall k :: 0 <= k <= i ==> ids[k] in shapes) && OffsetsUpTo(ids, shapes, offs, i)
    requires line == Line(ShapesOf(ids[..i + 1], shapes))
    ensures OffsetsUpTo(ids, shapes, offs[i + 1 := EndIndex(line)], i + 1)
  {
  }

  lemma NextShape(ids: seq<int>, shapes: map<int, seq<LatLon>>, i: nat)
    requires i < |ids| && forall k :: 0 <= k <= i ==> ids[k] in shapes
    ensures Line(ShapesOf(ids[..i + 1], shapes)) == Join(Line(ShapesOf(ids[..i], shapes)), shapes[ids[i]])
  {
    var all := ShapesOf(ids[..i + 1], shapes);
    assert all[..i] == ShapesOf(ids[..i], shapes) && all[i] == shapes[ids[i]];
  }

  lemma AllShapes(ids: seq<int>, shapes: map<int, seq<LatLon>>, offs: seq<nat>)
    requires |offs| == |ids| + 1 && forall k :: 0 <= k < |ids| ==> ids[k] in shapes
    requires OffsetsUpTo(ids, shapes, offs, |ids|)
    ensures ids[..|ids|] == ids && OffsetsOf(ShapesOf(ids, shapes), offs)
  {
    var all := ShapesOf(ids, shapes);
    forall k | 0 <= k <= |ids| ensures offs[k] == EndIndex(Line(all[..k])) {
      assert all[..k] == ShapesOf(ids[..k], shapes);
    }
  }

  /** Concatenate the shapes and note where each edge begins; an edge with no shape at all is an error naming the first such edge. */
  method Assemble(ids: seq<int>, shapes: map<int, seq<LatLon>>) returns (r: Result<(seq<LatLon>, seq<nat>), int>)
    ensures r.Ok? <==> forall i :: 0 <= i < |ids| ==> ids[i] in shapes
    ensures r.Ok? ==> r.value.0 == Line(ShapesOf(ids, shapes)) && OffsetsOf(ShapesOf(ids, shapes), r.value.1)
    ensures r.Err? ==> exists i :: 0 <= i < |ids| && ids[i] == r.error && r.error !in shapes && forall k :: 0 <= k < i ==> ids[k] in shapes
  {
    var out: seq<LatLon> := [];
    var offs: seq<nat> := seq(|ids| + 1, _ => 0);
    for i := 0 to |ids|
      invariant |offs| == |ids| + 1 && forall k :: 0 <= k < i ==> ids[k] in shapes
      invariant out == Line(ShapesOf(ids[..i], shapes)) && OffsetsUpTo(ids, shapes, offs, i)
    {
      if ids[i] !in shapes {
        return Err(ids[i]);
      }
      var pts := shapes[ids[i]];
      NextShape(ids, shapes, i);
      if |out| > 0 && |pts| > 0 {
        pts := pts[1..];
      }
      out := out + pts;
      NextOffset(ids, shapes, offs, i, out);
      if |out| == 0 {
        offs := offs[i + 1 := 0];
        continue;
      }
      offs := offs[i + 1 := |out| - 1];
    }
    AllShapes(ids, shapes, offs);
    r := Ok((out, offs));
  }

  // ------------------------------------------------------------------ segments

  /** A run of edges of one stress level and facility, as index range of the line, end included. */
  datatype Segment = Segment(start: nat, end: nat, lts: nat, infra: Infra, lengthM: real)

  function TotalLength(segments: seq<Segment>): real {
    if segments == [] then 0.0 else TotalLength(segments[..|segments| - 1]) + segments[|segments| - 1].lengthM
  }

  predicate Rises(offs: seq<nat>) {
    forall i, j :: 0 <= i <= j < |offs| ==> offs[i] <= offs[j]
  }

  /** Number of leading edges that draw nothing. */
  function LeadingEmpty(offs: seq<nat>, n: nat): (k: nat)
    requires n < |offs|
    ensures k <= n
  {
    if n == 0 then 0
    else
      var k := LeadingEmpty(offs, n - 1);
      if k == n - 1 && offs[n] <= offs[n - 1] then n else k
  }

  /** The segments lie end to end between two indices of the line, each draws something, and neighbours differ. */
  ghost predicate Tiles(segments: seq<Segment>, from: nat, to: nat) {
    if segments == [] then from == to
    else
      && segments[0].start == from && segments[|segments| - 1].end == to
      && (forall k {:trigger segments[k]} :: 0 <= k < |segments| ==> segments[k].start < segments[k].end)
      && (forall j, k :: 0 <= j < k < |segments| && k == j + 1 ==>
            && segments[j].end == segments[k].start
            && (segments[j].lts != segments[k].lts || segments[j].infra != segments[k].infra))
  }

  /** Edge `i` of the route is drawn within a segment of its own stress level and facility. */
  ghost predicate Drawn(g: Graph, segments: seq<Segment>, e: nat, start: nat, end: nat)
    requires e < |g.lts| && e < |g.infra|
  {
    exists k {:trigger segments[k]} :: 0 <= k < |segments|
      && segments[k].start <= start && end <= segments[k].end && segments[k].lts == g.lts[e] && segments[k].infra == g.infra[e]
  }

  ghost predicate SegmentsOk(g: Graph, edges: seq<nat>, offs: seq<nat>, n: nat, segments: seq<Segment>)
    requires g.WellFormed() && g.HasAttributes() && n <= |edges| && |offs| == |edges| + 1
    requires forall i :: 0 <= i < |edges| ==> edges[i] < g.NumEdges()
  {
    && Tiles(segments, offs[0], offs[n])
    && (segments == [] <==> LeadingEmpty(offs, n) == n)
    && TotalLength(segments) == Walks.WalkLength(g, edges[LeadingEmpty(offs, n)..n])
    && forall i {:trigger edges[i]} :: 0 <= i < n && offs[i] < offs[i + 1] ==> Drawn(g, segments, edges[i], offs[i], offs[i + 1])
  }

  lemma {:induction false} LeadingFlat(offs: seq<nat>, n: nat)
    requires n < |offs| && Rises(offs) && LeadingEmpty(offs, n) == n
    ensures offs[n] == offs[0]
  {
    if n > 0 {
      assert offs[n - 1] <= offs[n];
      LeadingFlat(offs, n - 1);
    }
  }

  /** The last segment stretched to `end` and lengthened. */
  function Stretched(segments: seq<Segment>, end: nat, lengthM: real): seq<Segment>
    requires segments != []
  {
    var s := segments[|segments| - 1];
    segments[|segments| - 1 := s.(end := if s.end >= end then s.end else end, lengthM := s.lengthM + lengthM)]
  }

  lemma WalkLengthStep(g: Graph, edges: seq<nat>, from: nat, n: nat)
    requires from <= n < |edges|
    ensures Walks.WalkLength(g, edges[from..n + 1]) == Walks.WalkLength(g, edges[from..n]) + Walks.EdgeLength(g, edges[n])
  {
    assert Walks.Init(edges[from..n + 1]) == edges[from..n];
  }

  lemma TotalLengthStretched(segments: seq<Segment>, end: nat, lengthM: real)
    requires segments != []
    ensures TotalLength(Stretched(segments, end, lengthM)) == TotalLength(segments) + lengthM
  {
    var t := Stretched(segments, end, lengthM);
    assert t[..|t| - 1] == segments[..|segments| - 1];
  }

  /** Drawing within some segment survives stretching the last one. */
  lemma DrawnStretched(g: Graph, segments: seq<Segment>, to: nat, lengthM: real, e: nat, start: nat, end: nat)
    requires e < |g.lts| && e < |g.infra| && segments != [] && Drawn(g, segments, e, start, end)
    ensures Drawn(g, Stretched(segments, to, lengthM), e, start, end)
  {
    var k :| 0 <= k < |segments| && segments[k].start <= start && end <= segments[k].end && segments[k].lts == g.lts[e] && segments[k].infra == g.infra[e];
    var t := Stretched(segments, to, lengthM);
    assert t[k].start <= start && end <= t[k].end;
  }

  lemma TilesStretched(segments: seq<Segment>, from: nat, to: nat, to': nat, lengthM: real)
    requires segments != [] && Tiles(segments, from, to) && to <= to'
    ensures Tiles(Stretched(segments, to', lengthM), from, to')
  {
  }

  lemma TilesAppended(segments: seq<Segment>, from: nat, to: nat, s: Segment)
    requires Tiles(segments, from, to) && s.start == to && s.start < s.end
    requires segments != [] ==> segments[|segments| - 1].lts != s.lts || segments[|segments| - 1].infra != s.infra
    ensures Tiles(segments + [s], from, s.end)
  {
  }

  /** Folding an edge into the last run: it draws nothing, or it is of the run's own character. */
  lemma FoldStep(g: Graph, edges: seq<nat>, offs: seq<nat>, n: nat, segments: seq<Segment>)
    requires g.WellFormed() && g.HasAttributes() && n < |edges| && |offs| == |edges| + 1 && Rises(offs)
    requires forall i :: 0 <= i < |edges| ==> edges[i] < g.NumEdges()
    requires SegmentsOk(g, edges, offs, n, segments) && segments != []
    requires offs[n + 1] <= offs[n] || (segments[|segments| - 1].lts == g.lts[edges[n]] && segments[|segments| - 1].infra == g.infra[edges[n]])
    ensures SegmentsOk(g, edges, offs, n + 1, Stretched(segments, offs[n + 1], g.lengthM[edges[n]]))
  {
    var length := g.lengthM[edges[n]];
    var t := Stretched(segments, offs[n + 1], length);
    assert offs[n] <= offs[n + 1];
    TilesStretched(segments, offs[0], offs[n], offs[n + 1], length);
    TotalLengthStretched(segments, offs[n + 1], length);
    WalkLengthStep(g, edges, LeadingEmpty(offs, n), n);
    forall i | 0 <= i < n + 1 && offs[i] < offs[i + 1] ensures Drawn(g, t, edges[i], offs[i], offs[i + 1]) {
      if i < n {
        DrawnStretched(g, segments, offs[n + 1], length, edges[i], offs[i], offs[i + 1]);
      } else {
        assert t[|t| - 1].start <= offs[n];
      }
    }
  }

  lemma DrawnAppended(g: Graph, segments: seq<Segment>, s: Segment, e: nat, start: nat, end: nat)
    requires e < |g.lts| && e < |g.infra| && Drawn(g, segments, e, start, end)
    ensures Drawn(g, segments + [s], e, start, end)
  {
    var k :| 0 <= k < |segments| && segments[k].start <= start && end <= segments[k].end && segments[k].lts == g.lts[e] && segments[k].infra == g.infra[e];
    assert (segments + [s])[k] == segments[k];
  }

  /** Starting a run with an edge that draws something and differs from the run before. */
  lemma AppendStep(g: Graph, edges: seq<nat>, offs: seq<nat>, n: nat, segments: seq<Segment>, s: Segment)
    requires g.WellFormed() && g.HasAttributes() && n < |edges| && |offs| == |edges| + 1 && Rises(offs)
    requires forall i :: 0 <= i < |edges| ==> edges[i] < g.NumEdges()
    requires SegmentsOk(g, edges, offs, n, segments) && offs[n] < offs[n + 1]
    requires s == Segment(offs[n], offs[n + 1], g.lts[edges[n]], g.infra[edges[n]], g.lengthM[edges[n]])
    requires segments != [] ==> segments[|segments| - 1].lts != s.lts || segments[|segments| - 1].infra != s.infra
    ensures SegmentsOk(g, edges, offs, n + 1, segments + [s])
  {
    var t := segments + [s];
    TilesAppended(segments, offs[0], offs[n], s);
    assert TotalLength(t) == TotalLength(segments) + s.lengthM by {
      assert t[..|t| - 1] == segments;
    }
    WalkLengthStep(g, edges, LeadingEmpty(offs, n), n);
    AllDrawnAppended(g, edges, offs, n, segments, s);
  }

  lemma AllDrawnAppended(g: Graph, edges: seq<nat>, offs: seq<nat>, n: nat, segments: seq<Segment>, s: Segment)
    requires g.WellFormed() && g.HasAttributes() && n < |edges| && |offs| == |edges| + 1
    requires forall i :: 0 <= i < |edges| ==> edges[i] < g.NumEdges()
    requires forall i :: 0 <= i < n && offs[i] < offs[i + 1] ==> Drawn(g, segments, edges[i], offs[i], offs[i + 1])
    requires s == Segment(offs[n], offs[n + 1], g.lts[edges[n]], g.infra[edges[n]], g.lengthM[edges[n]])
    ensures forall i :: 0 <= i < n + 1 && offs[i] < offs[i + 1] ==> Drawn(g, segments + [s], edges[i], offs[i], offs[i + 1])
  {
    forall i | 0 <= i < n + 1 && offs[i] < offs[i + 1] ensures Drawn(g, segments + [s], edges[i], offs[i], offs[i + 1]) {
      if i < n {
        DrawnAppended(g, segments, s, edges[i], offs[i], offs[i + 1]);
      } else {
        assert (segments + [s])[|segments|] == s;
      }
    }
  }

  /** An edge that draws nothing, before anything has been drawn, is passed over. */
  lemma SkipStep(g: Graph, edges: seq<nat>, offs: seq<nat>, n: nat)
    requires g.WellFormed() && g.HasAttributes() && n < |edges| && |offs| == |edges| + 1 && Rises(offs)
    requires forall i :: 0 <= i < |edges| ==> edges[i] < g.NumEdges()
    requires SegmentsOk(g, edges, offs, n, []) && offs[n + 1] <= offs[n]
    ensures SegmentsOk(g, edges, offs, n + 1, [])
  {
    assert offs[n] <= offs[n + 1];
  }

  // ----------------------------------------------------------- totals by class

  type Character = (nat, Infra) -> bool

  /** Length of the edges whose stress and facility satisfy `c`. */
  function EdgesOfClass(g: Graph, edges: seq<nat>, c: Character): real
    requires |g.lts| == |g.infra| == |g.lengthM| && forall i :: 0 <= i < |edges| ==> edges[i] < |g.lts|
  {
    if edges == [] then 0.0
    else
      var e := edges[|edges| - 1];
      EdgesOfClass(g, edges[..|edges| - 1], c) + if c(g.lts[e], g.infra[e]) then g.lengthM[e] else 0.0
  }

  function SegmentsOfClass(segments: seq<Segment>, c: Character): real {
    if segments == [] then 0.0
    else
      var s := segments[|segments| - 1];
      SegmentsOfClass(segments[..|segments| - 1], c) + if c(s.lts, s.infra) then s.lengthM else 0.0
  }

  ghost predicate NoneDegenerate(offs: seq<nat>, n: nat) {
    n < |offs| && forall i :: 0 <= i < n ==> offs[i] < offs[i + 1]
  }

  /** When every edge draws something, segments and edges agree on the length of every class. */
  ghost predicate ClassesAgree(g: Graph, edges: seq<nat>, offs: seq<nat>, n: nat, segments: seq<Segment>)
    requires |g.lts| == |g.infra| == |g.lengthM| && (forall i :: 0 <= i < |edges| ==> edges[i] < |g.lts|) && n <= |edges|
  {
    NoneDegenerate(offs, n) ==> forall c: Character :: SegmentsOfClass(segments, c) == EdgesOfClass(g, edges[..n], c)
  }

  lemma EdgesOfClassStep(g: Graph, edges: seq<nat>, n: nat, c: Character)
    requires |g.lts| == |g.infra| == |g.lengthM| && (forall i :: 0 <= i < |edges| ==> edges[i] < |g.lts|) && n < |edges|
    ensures EdgesOfClass(g, edges[..n + 1], c) ==
            EdgesOfClass(g, edges[..n], c) + if c(g.lts[edges[n]], g.infra[edges[n]]) then g.lengthM[edges[n]] else 0.0
  {
    assert edges[..n + 1][..n] == edges[..n];
  }

  lemma ClassesFolded(g: Graph, edges: seq<nat>, offs: seq<nat>, n: nat, segments: seq<Segment>)
    requires |g.lts| == |g.infra| == |g.lengthM| && (forall i :: 0 <= i < |edges| ==> edges[i] < |g.lts|)
    requires n < |edges| && |offs| == |edges| + 1 && segments != [] && ClassesAgree(g, edges, offs, n, segments)
    requires offs[n + 1] <= offs[n] || (segments[|segments| - 1].lts == g.lts[edges[n]] && segments[|segments| - 1].infra == g.infra[edges[n]])
    ensures ClassesAgree(g, edges, offs, n + 1, Stretched(segments, offs[n + 1], g.lengthM[edges[n]]))
  {
    var t := Stretched(segments, offs[n + 1], g.lengthM[edges[n]]);
    if NoneDegenerate(offs, n + 1) {
      assert NoneDegenerate(offs, n) && offs[n] < offs[n + 1];
      assert t[..|t| - 1] == segments[..|segments| - 1];
      forall c: Character ensures SegmentsOfClass(t, c) == EdgesOfClass(g, edges[..n + 1], c) {
        EdgesOfClassStep(g, edges, n, c);
        assert SegmentsOfClass(segments, c) == EdgesOfClass(g, edges[..n], c);
      }
    }
  }

  lemma ClassesAppended(g: Graph, edges: seq<nat>, offs: seq<nat>, n: nat, segments: seq<Segment>, s: Segment)
    requires |g.lts| == |g.infra| == |g.lengthM| && (forall i :: 0 <= i < |edges| ==> edges[i] < |g.lts|)
    requires n < |edges| && |offs| == |edges| + 1 && ClassesAgree(g, edges, offs, n, segments)
    requires s.lts == g.lts[edges[n]] && s.infra == g.infra[edges[n]] && s.lengthM == g.lengthM[edges[n]]
    ensures ClassesAgree(g, edges, offs, n + 1, segments + [s])
  {
    var t := segments + [s];
    if NoneDegenerate(offs, n + 1) {
      assert NoneDegenerate(offs, n);
      assert t[..|t| - 1] == segments;
      forall c: Character ensures SegmentsOfClass(t, c) == EdgesOfClass(g, edges[..n + 1], c) {
        EdgesOfClassStep(g, edges, n, c);
        assert SegmentsOfClass(segments, c) == EdgesOfClass(g, edges[..n], c);
      }
    }
  }

  // ------------------------------------------------------- segment by segment

  /** The furthest of the edges' ends from index `a` up to `b` is `end`. */
  ghost predicate Reaches(offs: seq<nat>, a: nat, b: nat, end: nat)
    requires a < b < |offs|
  {
    && (forall i {:trigger offs[i]} :: a < i <= b ==> offs[i] <= end)
    && exists i {:trigger offs[i]} :: a < i <= b && offs[i] == end
  }

  /** Where offsets never go back that is the end of the last. */
  lemma RisingReaches(offs: seq<nat>, a: nat, b: nat, end: nat)
    requires a < b < |offs| && Rises(offs)
    ensures Reaches(offs, a, b, end) <==> end == offs[b]
  {
  }

  lemma ReachesOn(offs: seq<nat>, a: nat, b: nat, end: nat)
    requires a < b && b + 1 < |offs| && Reaches(offs, a, b, end)
    ensures Reaches(offs, a, b + 1, if end >= offs[b + 1] then end else offs[b + 1])
  {
  }

  /** Segment `s` is drawn for the edges from index `a` up to `b`: it starts where the first of them does and reaches as far as any of them, it is as long as they are, and those that draw anything are of its character. */
  ghost predicate IsSegment(g: Graph, edges: seq<nat>, offs: seq<nat>, s: Segment, a: nat, b: nat)
    requires g.HasAttributes() && a < b <= |edges| && |offs| == |edges| + 1
    requires forall i :: 0 <= i < |edges| ==> edges[i] < g.NumEdges()
  {
    && offs[a] < offs[a + 1] && s.start == offs[a] && Reaches(offs, a, b, s.end)
    && s.lengthM == Walks.WalkLength(g, edges[a..b])
    && forall i {:trigger edges[i]} :: a <= i < b && offs[i] < offs[i + 1] ==> s.lts == g.lts[edges[i]] && s.infra == g.infra[edges[i]]
  }

  /** The edges are cut into the segments' own stretches, one after the other: the first begins at the first edge that draws anything, and neighbours differ. */
  ghost predicate CutAt(g: Graph, edges: seq<nat>, offs: seq<nat>, n: nat, segments: seq<Segment>, cuts: seq<nat>)
    requires g.HasAttributes() && n <= |edges| && |offs| == |edges| + 1
    requires forall i :: 0 <= i < |edges| ==> edges[i] < g.NumEdges()
  {
    && |cuts| == |segments| + 1 && cuts[0] == LeadingEmpty(offs, n) && cuts[|segments|] == n
    && (segments == [] <==> LeadingEmpty(offs, n) == n)
    && forall k {:trigger StretchOk(g, edges, offs, n, segments, cuts, k)} :: 0 <= k < |segments| ==> StretchOk(g, edges, offs, n, segments, cuts, k)
  }

  /** Segment `k` stands for its stretch and differs from the one before. */
  ghost predicate StretchOk(g: Graph, edges: seq<nat>, offs: seq<nat>, n: nat, segments: seq<Segment>, cuts: seq<nat>, k: nat)
    requires g.HasAttributes() && n <= |edges| && |offs| == |edges| + 1 && k < |segments| && |cuts| == |segments| + 1
    requires forall i :: 0 <= i < |edges| ==> edges[i] < g.NumEdges()
  {
    && cuts[k] < cuts[k + 1] <= n && IsSegment(g, edges, offs, segments[k], cuts[k], cuts[k + 1])
    && (k > 0 ==> segments[k - 1].lts != segments[k].lts || segments[k - 1].infra != segments[k].infra)
  }

  lemma SegmentGrows(g: Graph, edges: seq<nat>, offs: seq<nat>, s: Segment, a: nat, b: nat)
    requires g.HasAttributes() && a < b < |edges| && |offs| == |edges| + 1 && |g.lengthM| == g.NumEdges()
    requires forall i :: 0 <= i < |edges| ==> edges[i] < g.NumEdges()
    requires IsSegment(g, edges, offs, s, a, b)
    requires offs[b + 1] <= offs[b] || (s.lts == g.lts[edges[b]] && s.infra == g.infra[edges[b]])
    ensures var end := offs[b + 1];
            IsSegment(g, edges, offs, s.(end := if s.end >= end then s.end else end, lengthM := s.lengthM + g.lengthM[edges[b]]), a, b + 1)
  {
    WalkLengthStep(g, edges, a, b);
    ReachesOn(offs, a, b, s.end);
  }

  /** Folding an edge into the last run moves the last cut on. */
  lemma CutFolded(g: Graph, edges: seq<nat>, offs: seq<nat>, n: nat, segments: seq<Segment>, cuts: seq<nat>)
    requires g.HasAttributes() && n < |edges| && |offs| == |edges| + 1 && |g.lengthM| == g.NumEdges()
    requires forall i :: 0 <= i < |edges| ==> edges[i] < g.NumEdges()
    requires CutAt(g, edges, offs, n, segments, cuts) && segments != []
    requires offs[n + 1] <= offs[n] || (segments[|segments| - 1].lts == g.lts[edges[n]] && segments[|segments| - 1].infra == g.infra[edges[n]])
    ensures CutAt(g, edges, offs, n + 1, Stretched(segments, offs[n + 1], g.lengthM[edges[n]]), cuts[|segments| := n + 1])
  {
    var last, next, t, more := |segments| - 1, n + 1, Stretched(segments, offs[n + 1], g.lengthM[edges[n]]), cuts[|segments| := n + 1];
    assert StretchOk(g, edges, offs, n, segments, cuts, last);
    SegmentGrows(g, edges, offs, segments[last], cuts[last], n);
    forall k | 0 <= k < |t| ensures StretchOk(g, edges, offs, next, t, more, k) {
      assert StretchOk(g, edges, offs, n, segments, cuts, k);
    }
  }

  /** Starting a run cuts before its first edge. */
  lemma CutAppended(g: Graph, edges: seq<nat>, offs: seq<nat>, n: nat, segments: seq<Segment>, cuts: seq<nat>, s: Segment)
    requires g.HasAttributes() && n < |edges| && |offs| == |edges| + 1 && |g.lengthM| == g.NumEdges()
    requires forall i :: 0 <= i < |edges| ==> edges[i] < g.NumEdges()
    requires CutAt(g, edges, offs, n, segments, cuts) && offs[n] < offs[n + 1]
    requires s == Segment(offs[n], offs[n + 1], g.lts[edges[n]], g.infra[edges[n]], g.lengthM[edges[n]])
    requires segments != [] ==> segments[|segments| - 1].lts != s.lts || segments[|segments| - 1].infra != s.infra
    ensures CutAt(g, edges, offs, n + 1, segments + [s], cuts + [n + 1])
  {
    var next, t, more := n + 1, segments + [s], cuts + [n + 1];
    WalkLengthStep(g, edges, n, n);
    assert IsSegment(g, edges, offs, s, n, n + 1);
    forall k | 0 <= k < |t| ensures StretchOk(g, edges, offs, next, t, more, k) {
      assert k < |segments| ==> StretchOk(g, edges, offs, n, segments, cuts, k);
    }
  }

  /** Take one more edge into account. */
  method AddEdge(g: Graph, edges: seq<nat>, offs: seq<nat>, i: nat, segments: seq<Segment>, ghost cuts: seq<nat>)
    returns (out: seq<Segment>, ghost cuts': seq<nat>)
    requires g.WellFormed() && g.HasAttributes() && i < |edges| && |offs| == |edges| + 1
    requires forall i :: 0 <= i < |edges| ==> edges[i] < g.NumEdges()
    requires (Rises(offs) ==> SegmentsOk(g, edges, offs, i, segments)) && ClassesAgree(g, edges, offs, i, segments)
    requires CutAt(g, edges, offs, i, segments, cuts)
    ensures (Rises(offs) ==> SegmentsOk(g, edges, offs, i + 1, out)) && ClassesAgree(g, edges, offs, i + 1, out)
    ensures CutAt(g, edges, offs, i + 1, out, cuts')
  {
    var e := edges[i];
    var start, end := offs[i], offs[i + 1];
    var degenerate := end <= start;
    var n := |segments|;
    if n > 0 && (degenerate || (segments[n - 1].lts == g.lts[e] && segments[n - 1].infra == g.infra[e])) {
      if Rises(offs) {
        FoldStep(g, edges, offs, i, segments);
      }
      ClassesFolded(g, edges, offs, i, segments);
      CutFolded(g, edges, offs, i, segments, cuts);
      return Stretched(segments, end, g.lengthM[e]), cuts[n := i + 1];
    }
    if degenerate {
      if Rises(offs) {
        SkipStep(g, edges, offs, i);
      }
      assert !NoneDegenerate(offs, i + 1);
      return segments, [i + 1];
    }
    var s := Segment(start, end, g.lts[e], g.infra[e], g.lengthM[e]);
    if Rises(offs) {
      AppendStep(g, edges, offs, i, segments, s);
    }
    ClassesAppended(g, edges, offs, i, segments, s);
    CutAppended(g, edges, offs, i, segments, cuts, s);
    return segments + [s], cuts + [i + 1];
  }

  /**
   Merge consecutive edges of one character into drawable runs. Lengths are
   left unrounded. The runs tile the line for offsets that never go back, as
   those of `Assemble` do not; which edges each run stands for, and the class
   totals, are right for any offsets.
   */
  method BuildSegments(g: Graph, edges: seq<nat>, offs: seq<nat>) returns (out: seq<Segment>, ghost cuts: seq<nat>)
    requires g.WellFormed() && g.HasAttributes()
    requires forall i :: 0 <= i < |edges| ==> edges[i] < g.NumEdges()
    ensures |edges| == 0 || |offs| != |edges| + 1 ==> out == []
    ensures |edges| > 0 && |offs| == |edges| + 1 ==>
              (Rises(offs) ==> SegmentsOk(g, edges, offs, |edges|, out)) && ClassesAgree(g, edges, offs, |edges|, out)
    ensures |edges| > 0 && |offs| == |edges| + 1 ==> CutAt(g, edges, offs, |edges|, out, cuts)
  {
    out, cuts := [], [0];
    if |edges| == 0 || |offs| != |edges| + 1 {
      return;
    }
    for i := 0 to |edges|
      invariant (Rises(offs) ==> SegmentsOk(g, edges, offs, i, out)) && ClassesAgree(g, edges, offs, i, out)
      invariant CutAt(g, edges, offs, i, out, cuts)
    {
      out, cuts := AddEdge(g, edges, offs, i, out, cuts);
    }
  }
}
