/**
 Folding shape nodes into edges preserves distances: between junctions, the
 edges `Build` emits offer exactly the journeys the raw ways do.
 */
module Contraction {
  import opened Geo
  import opened OsmBuild
  import opened GraphBuild
  import opened Bearings

  /** One extract: the kept ways, which nodes are cut points, and where every node is. */
  datatype Extract = Extract(metric: Metric, ways: seq<Way>, split: int -> bool, locs: map<int, LatLon>) {
    predicate IsNode(w: nat, i: nat) {
      w < |ways| && i < |ways[w].nodes|
    }

    function NodeAt(w: nat, i: nat): int
      requires IsNode(w, i)
    {
      ways[w].nodes[i]
    }

    /** Every node of every way has a location. */
    ghost predicate Located() {
      forall w, i {:trigger IsNode(w, i)} :: IsNode(w, i) ==> NodeAt(w, i) in locs
    }

    /** Cut points are where scanning puts them: at the ends of ways and wherever a node occurs twice. */
    ghost predicate CutAtJunctions() {
      && (forall w {:trigger ways[w]} :: 0 <= w < |ways| ==>
            |ways[w].nodes| >= 2 && split(ways[w].nodes[0]) && split(ways[w].nodes[|ways[w].nodes| - 1]))
      && (forall w, i, w', i' {:trigger OccursOnce(w, i, w', i')} :: OccursOnce(w, i, w', i'))
    }

    /** If these two places hold one node that is not a cut point, they are one place. */
    ghost predicate OccursOnce(w: nat, i: nat, w': nat, i': nat) {
      IsNode(w, i) && IsNode(w', i') && NodeAt(w, i) == NodeAt(w', i') && !split(NodeAt(w, i)) ==> w == w' && i == i'
    }

    /** Length of the stretch of way `w` from its node `i` to its node `j`. */
    ghost function Stretch(w: nat, i: nat, j: nat): real
      requires Located() && i <= j && IsNode(w, j)
    {
      AllOnWay(this, w, i, j);
      PathLength(metric, ShapeOf(ways[w].nodes[i..j + 1], locs))
    }

    /** A run with two distinct ends has a positive length. */
    ghost predicate NoEmptyRuns()
      requires Located()
    {
      forall w: nat, run: Run {:trigger IsRun(ways[w], split, run)} ::
        w < |ways| && IsRun(ways[w], split, run) && NodeAt(w, run.s) != NodeAt(w, run.t) ==> 0.0 < Stretch(w, run.s, run.t)
    }

    ghost predicate Ok() {
      IsMetric(metric) && Located() && CutAtJunctions() && NoEmptyRuns()
    }

    /** What `Build` emits for this extract. */
    ghost function Roads(): seq<Road> {
      AllRoads(metric, ways, split, locs)
    }
  }

  lemma AllOnWay(x: Extract, w: nat, i: nat, j: nat)
    requires x.Located() && i <= j && x.IsNode(w, j)
    ensures AllLocated(x.ways[w].nodes[i..j + 1], x.locs)
  {
    var ids := x.ways[w].nodes[i..j + 1];
    forall k | 0 <= k < |ids| ensures ids[k] in x.locs {
      assert x.IsNode(w, i + k) && ids[k] == x.NodeAt(w, i + k);
    }
  }

  // ---------------------------------------------------------- journeys over ways

  /** One step along a way, from node `i` to the next or, going back, the other way round. */
  datatype Hop = Hop(way: nat, i: nat, back: bool)

  ghost predicate HopOk(x: Extract, h: Hop) {
    x.IsNode(h.way, h.i + 1) && if h.back then x.ways[h.way].backward else x.ways[h.way].forward
  }

  function HopFrom(x: Extract, h: Hop): int
    requires x.IsNode(h.way, h.i + 1)
  {
    if h.back then x.NodeAt(h.way, h.i + 1) else x.NodeAt(h.way, h.i)
  }

  function HopTo(x: Extract, h: Hop): int
    requires x.IsNode(h.way, h.i + 1)
  {
    if h.back then x.NodeAt(h.way, h.i) else x.NodeAt(h.way, h.i + 1)
  }

  /** The distance between node `i` of a way and the next. */
  ghost function Gap(x: Extract, w: nat, i: nat): real
    requires x.Located() && x.IsNode(w, i + 1)
  {
    assert x.IsNode(w, i);
    x.metric(x.locs[x.NodeAt(w, i)], x.locs[x.NodeAt(w, i + 1)])
  }

  ghost predicate Travels(x: Extract, a: int, hs: seq<Hop>) {
    hs == [] || (Travels(x, a, hs[..|hs| - 1]) && HopOk(x, hs[|hs| - 1]) && HopFrom(x, hs[|hs| - 1]) == TravelEnd(x, a, hs[..|hs| - 1]))
  }

  ghost function TravelEnd(x: Extract, a: int, hs: seq<Hop>): int {
    if hs == [] || !HopOk(x, hs[|hs| - 1]) then a else HopTo(x, hs[|hs| - 1])
  }

  ghost function TravelLength(x: Extract, hs: seq<Hop>): real
    requires x.Located()
  {
    if hs == [] then 0.0
    else TravelLength(x, hs[..|hs| - 1]) + if HopOk(x, hs[|hs| - 1]) then Gap(x, hs[|hs| - 1].way, hs[|hs| - 1].i) else 0.0
  }

  // --------------------------------------------------------- journeys over roads

  ghost predicate Drives(roads: seq<Road>, a: int, rs: seq<Road>) {
    rs == [] || (Drives(roads, a, rs[..|rs| - 1]) && rs[|rs| - 1] in roads && rs[|rs| - 1].from == DriveEnd(a, rs[..|rs| - 1]))
  }

  ghost function DriveEnd(a: int, rs: seq<Road>): int {
    if rs == [] then a else rs[|rs| - 1].to
  }

  ghost function DriveLength(rs: seq<Road>): real {
    if rs == [] then 0.0 else DriveLength(rs[..|rs| - 1]) + rs[|rs| - 1].lengthM
  }

  lemma DriveOn(roads: seq<Road>, a: int, rs: seq<Road>, r: Road)
    requires Drives(roads, a, rs) && r in roads && r.from == DriveEnd(a, rs)
    ensures Drives(roads, a, rs + [r]) && DriveEnd(a, rs + [r]) == r.to && DriveLength(rs + [r]) == DriveLength(rs) + r.lengthM
  {
    assert (rs + [r])[..|rs|] == rs;
  }

  lemma TravelOn(x: Extract, a: int, hs: seq<Hop>, h: Hop)
    requires x.Located() && Travels(x, a, hs) && HopOk(x, h) && HopFrom(x, h) == TravelEnd(x, a, hs)
    ensures Travels(x, a, hs + [h]) && TravelEnd(x, a, hs + [h]) == HopTo(x, h)
    ensures TravelLength(x, hs + [h]) == TravelLength(x, hs) + Gap(x, h.way, h.i)
  {
    assert (hs + [h])[..|hs|] == hs;
  }

  // ------------------------------------------------------------------ stretches

  lemma StretchEmpty(x: Extract, w: nat, i: nat)
    requires x.Located() && x.IsNode(w, i)
    ensures x.Stretch(w, i, i) == 0.0
  {
  }

  lemma StretchRight(x: Extract, w: nat, i: nat, j: nat)
    requires x.Located() && i <= j && x.IsNode(w, j + 1)
    ensures x.IsNode(w, j) && x.Stretch(w, i, j + 1) == x.Stretch(w, i, j) + Gap(x, w, j)
  {
    AllOnWay(x, w, i, j);
    AllOnWay(x, w, i, j + 1);
    var ids := x.ways[w].nodes[i..j + 2];
    var shape := ShapeOf(ids, x.locs);
    assert ids[..|ids| - 1] == x.ways[w].nodes[i..j + 1];
    assert shape[..|shape| - 1] == ShapeOf(x.ways[w].nodes[i..j + 1], x.locs);
  }

  lemma {:induction false} StretchLeft(x: Extract, w: nat, i: nat, j: nat)
    requires x.Located() && i < j && x.IsNode(w, j)
    ensures x.IsNode(w, i + 1) && x.Stretch(w, i, j) == Gap(x, w, i) + x.Stretch(w, i + 1, j)
    decreases j
  {
    if i + 1 < j {
      StretchLeft(x, w, i, j - 1);
      StretchBothRight(x, w, i, j - 1);
    } else {
      StretchOfOne(x, w, i);
      StretchEmpty(x, w, i + 1);
    }
  }

  lemma StretchBothRight(x: Extract, w: nat, i: nat, j: nat)
    requires x.Located() && i < j && x.IsNode(w, j + 1)
    ensures x.IsNode(w, j) && x.IsNode(w, i + 1)
    ensures x.Stretch(w, i, j + 1) - x.Stretch(w, i, j) == x.Stretch(w, i + 1, j + 1) - x.Stretch(w, i + 1, j)
  {
    StretchRight(x, w, i, j);
    StretchRight(x, w, i + 1, j);
  }

  lemma StretchOfOne(x: Extract, w: nat, i: nat)
    requires x.Located() && x.IsNode(w, i + 1)
    ensures x.IsNode(w, i) && x.Stretch(w, i, i + 1) == Gap(x, w, i)
  {
    StretchRight(x, w, i, i);
    StretchEmpty(x, w, i);
  }

  lemma GapNonNegative(x: Extract, w: nat, i: nat)
    requires IsMetric(x.metric) && x.Located() && x.IsNode(w, i + 1)
    ensures 0.0 <= Gap(x, w, i)
  {
    assert x.IsNode(w, i);
    assert 0.0 <= x.metric(x.locs[x.NodeAt(w, i)], x.locs[x.NodeAt(w, i + 1)]);
  }

  lemma {:induction false} StretchNonNegative(x: Extract, w: nat, i: nat, j: nat)
    requires IsMetric(x.metric) && x.Located() && i <= j && x.IsNode(w, j)
    ensures 0.0 <= x.Stretch(w, i, j)
    decreases j - i
  {
    if i < j {
      StretchLeft(x, w, i, j);
      GapNonNegative(x, w, i);
      StretchNonNegative(x, w, i + 1, j);
    } else {
      StretchEmpty(x, w, i);
    }
  }

  // ------------------------------------------------------------ roads and runs

  lemma SegmentRoadIsRoad(x: Extract, w: nat, run: Run, r: Road)
    requires w < |x.ways| && IsRun(x.ways[w], x.split, run) && r in SegmentRoads(x.metric, x.ways[w], IdsOf(x.ways[w], run), x.locs)
    ensures r in x.Roads()
  {
    RunsAreExact(x.ways[w], x.split, run);
    RunRoadsContain(x.metric, x.ways[w], RunsFrom(x.ways[w], x.split, 0, 1), x.locs, run, r);
    WaysContribute(x.metric, x.ways, x.split, x.locs, w, r);
  }

  /** What a surviving run of ids turns into, one road a direction. */
  lemma SegmentRoadOf(metric: Metric, way: Way, ids: seq<int>, locs: map<int, LatLon>, back: bool) returns (r: Road)
    requires Survives(metric, ids, locs) && if back then way.backward else way.forward
    ensures r in SegmentRoads(metric, way, ids, locs) && r.lengthM == PathLength(metric, ShapeOf(ids, locs))
    ensures RidesPast(r, way, if back then Reverse(ids) else ids, locs)
  {
    SegmentRoadsExactly(metric, way, ids, locs);
    var rs := SegmentRoads(metric, way, ids, locs);
    r := if back then rs[|rs| - 1] else rs[0];
  }

  lemma SegmentRoadIs(metric: Metric, way: Way, ids: seq<int>, locs: map<int, LatLon>, r: Road) returns (back: bool)
    requires r in SegmentRoads(metric, way, ids, locs)
    ensures Survives(metric, ids, locs) && (if back then way.backward else way.forward)
    ensures r.lengthM == PathLength(metric, ShapeOf(ids, locs)) && RidesPast(r, way, if back then Reverse(ids) else ids, locs)
  {
    SegmentRoadsExactly(metric, way, ids, locs);
    var rs := SegmentRoads(metric, way, ids, locs);
    back := !(way.forward && r == rs[0]);
  }

  /** Road `r` stands for a run of way `w`, ridden backwards or not: its ends, its length, its tags and every point of its shape. */
  ghost predicate StandsFor(x: Extract, r: Road, w: nat, run: Run, back: bool)
    requires x.Located() && run.s < run.t && x.IsNode(w, run.t)
  {
    && r.way == x.ways[w].id && r.attrs == x.ways[w].attrs && (if back then x.ways[w].backward else x.ways[w].forward)
    && x.IsNode(w, run.s) && r.lengthM == x.Stretch(w, run.s, run.t)
    && r.from == x.NodeAt(w, if back then run.t else run.s) && r.to == x.NodeAt(w, if back then run.s else run.t)
    && |r.shape| == run.t - run.s + 1
    && forall k {:trigger r.shape[k]} :: 0 <= k < |r.shape| ==> IsAt(x, r.shape[k], w, if back then run.t - k else run.s + k)
  }

  ghost predicate IsAt(x: Extract, point: LatLon, w: nat, i: nat) {
    x.IsNode(w, i) && x.NodeAt(w, i) in x.locs && point == x.locs[x.NodeAt(w, i)]
  }

  /** A stretch in terms of the ids on it. */
  lemma RunShape(x: Extract, w: nat, s: nat, t: nat)
    requires x.Located() && s < t && x.IsNode(w, t)
    ensures var ids := x.ways[w].nodes[s..t + 1];
            |ids| >= 2 && ids[0] == x.NodeAt(w, s) && ids[|ids| - 1] == x.NodeAt(w, t)
            && AllLocated(ids, x.locs) && x.Stretch(w, s, t) == PathLength(x.metric, ShapeOf(ids, x.locs))
            && IdsOf(x.ways[w], Run(s, t)) == ids
  {
    AllOnWay(x, w, s, t);
  }

  /** Riding past a run's ids is riding along the run. */
  lemma RideIsRun(x: Extract, r: Road, w: nat, run: Run, back: bool)
    requires x.Located() && run.s < run.t && x.IsNode(w, run.t) && r.lengthM == x.Stretch(w, run.s, run.t)
    requires if back then x.ways[w].backward else x.ways[w].forward
    requires var ids := x.ways[w].nodes[run.s..run.t + 1]; RidesPast(r, x.ways[w], if back then Reverse(ids) else ids, x.locs)
    ensures StandsFor(x, r, w, run, back)
  {
    var ids := x.ways[w].nodes[run.s..run.t + 1];
    var ridden := if back then Reverse(ids) else ids;
    forall k | 0 <= k < |r.shape| ensures IsAt(x, r.shape[k], w, if back then run.t - k else run.s + k) {
      assert ridden[k] == ids[if back then run.t - run.s - k else k];
    }
  }

  /** A run that is not a closed loop is a road in each permitted direction, as long as the stretch it replaces. */
  lemma RunIsRoad(x: Extract, w: nat, run: Run, back: bool) returns (r: Road)
    requires x.Located() && x.NoEmptyRuns() && w < |x.ways| && IsRun(x.ways[w], x.split, run)
    requires x.NodeAt(w, run.s) != x.NodeAt(w, run.t)
    requires if back then x.ways[w].backward else x.ways[w].forward
    ensures r in x.Roads() && StandsFor(x, r, w, run, back)
  {
    var ids := x.ways[w].nodes[run.s..run.t + 1];
    RunShape(x, w, run.s, run.t);
    assert 0.0 < x.Stretch(w, run.s, run.t);
    r := SegmentRoadOf(x.metric, x.ways[w], ids, x.locs, back);
    RideIsRun(x, r, w, run, back);
    SegmentRoadIsRoad(x, w, run, r);
  }

  lemma RoadOnRun(x: Extract, w: nat, run: Run, r: Road) returns (back: bool)
    requires x.Located() && w < |x.ways| && run.s < run.t && x.IsNode(w, run.t)
    requires r in SegmentRoads(x.metric, x.ways[w], x.ways[w].nodes[run.s..run.t + 1], x.locs)
    ensures StandsFor(x, r, w, run, back)
  {
    RunShape(x, w, run.s, run.t);
    back := SegmentRoadIs(x.metric, x.ways[w], x.ways[w].nodes[run.s..run.t + 1], x.locs, r);
    RideIsRun(x, r, w, run, back);
  }

  /** Conversely every road is such a run. */
  lemma RoadIsRun(x: Extract, r: Road) returns (w: nat, run: Run, back: bool)
    requires x.Located() && r in x.Roads()
    ensures w < |x.ways| && IsRun(x.ways[w], x.split, run) && StandsFor(x, r, w, run, back)
  {
    w, run := RunOfRoad(x, r);
    back := RoadOnRun(x, w, run, r);
  }

  lemma RunOfRoad(x: Extract, r: Road) returns (w: nat, run: Run)
    requires r in x.Roads()
    ensures w < |x.ways| && IsRun(x.ways[w], x.split, run)
    ensures r in SegmentRoads(x.metric, x.ways[w], x.ways[w].nodes[run.s..run.t + 1], x.locs)
  {
    w := RoadsComeFromWays(x.metric, x.ways, x.split, x.locs, r);
    run := RunRoadsOrigin(x.metric, x.ways[w], RunsFrom(x.ways[w], x.split, 0, 1), x.locs, r);
    RunsAreExact(x.ways[w], x.split, run);
    assert IdsOf(x.ways[w], run) == x.ways[w].nodes[run.s..run.t + 1];
  }

  // ------------------------------------------------- roads unfold into journeys

  /** Hops along a way from node `s` on to node `t`. */
  lemma {:induction false} AlongWay(x: Extract, w: nat, s: nat, t: nat, a: int, hs: seq<Hop>) returns (more: seq<Hop>)
    requires x.Located() && s <= t && x.IsNode(w, t) && x.ways[w].forward
    requires Travels(x, a, hs) && TravelEnd(x, a, hs) == x.NodeAt(w, s)
    ensures Travels(x, a, more) && TravelEnd(x, a, more) == x.NodeAt(w, t)
    ensures TravelLength(x, more) == TravelLength(x, hs) + x.Stretch(w, s, t)
    decreases t - s
  {
    if s == t {
      more := hs;
      StretchEmpty(x, w, s);
    } else {
      StretchLeft(x, w, s, t);
      TravelOn(x, a, hs, Hop(w, s, false));
      more := AlongWay(x, w, s + 1, t, a, hs + [Hop(w, s, false)]);
    }
  }

  /** Hops back along a way from node `t` to node `s`. */
  lemma {:induction false} BackAlongWay(x: Extract, w: nat, s: nat, t: nat, a: int, hs: seq<Hop>) returns (more: seq<Hop>)
    requires x.Located() && s <= t && x.IsNode(w, t) && x.ways[w].backward
    requires Travels(x, a, hs) && TravelEnd(x, a, hs) == x.NodeAt(w, t)
    ensures Travels(x, a, more) && TravelEnd(x, a, more) == x.NodeAt(w, s)
    ensures TravelLength(x, more) == TravelLength(x, hs) + x.Stretch(w, s, t)
    decreases t - s
  {
    if s == t {
      more := hs;
      StretchEmpty(x, w, s);
    } else {
      StretchRight(x, w, s, t - 1);
      TravelOn(x, a, hs, Hop(w, t - 1, true));
      more := BackAlongWay(x, w, s, t - 1, a, hs + [Hop(w, t - 1, true)]);
    }
  }

  /** Every drive over emitted roads is a journey over the raw ways, of the same length. */
  lemma {:induction false} DriveUnfolds(x: Extract, a: int, rs: seq<Road>) returns (hs: seq<Hop>)
    requires x.Located() && Drives(x.Roads(), a, rs)
    ensures Travels(x, a, hs) && TravelEnd(x, a, hs) == DriveEnd(a, rs)
    ensures TravelLength(x, hs) == DriveLength(rs)
    decreases |rs|
  {
    if rs == [] {
      hs := [];
    } else {
      hs := DriveUnfolds(x, a, rs[..|rs| - 1]);
      var w, run, back := RoadIsRun(x, rs[|rs| - 1]);
      if back {
        hs := BackAlongWay(x, w, run.s, run.t, a, hs);
      } else {
        hs := AlongWay(x, w, run.s, run.t, a, hs);
      }
    }
  }

  // --------------------------------------------------- journeys fold into roads

  /**
   How far a drive can follow a journey. A journey standing at a cut point has
   been followed all the way; one standing inside a run has been followed to
   the end of the run it entered by, and has come at least the stretch from
   there.
   */
  datatype Arrival = AtCut | Inside(w: nat, run: Run, j: nat, back: bool)

  ghost predicate Follows(x: Extract, v: int, length: real, at: int, driven: real, arr: Arrival)
    requires x.Located()
  {
    match arr
    case AtCut => x.split(v) && at == v && driven <= length
    case Inside(w, run, j, back) =>
      && w < |x.ways| && IsRun(x.ways[w], x.split, run) && run.s < j < run.t && x.NodeAt(w, j) == v
      && (if back then x.ways[w].backward && at == x.NodeAt(w, run.t) && driven + x.Stretch(w, j, run.t) <= length
          else x.ways[w].forward && at == x.NodeAt(w, run.s) && driven + x.Stretch(w, run.s, j) <= length)
  }

  /** The first cut point after node `i`. */
  lemma {:induction false} CutAfter(x: Extract, w: nat, i: nat) returns (t: nat)
    requires x.CutAtJunctions() && x.IsNode(w, i + 1)
    ensures i < t && x.IsNode(w, t) && x.split(x.NodeAt(w, t)) && forall k {:trigger x.ways[w].nodes[k]} :: i < k < t ==> !x.split(x.ways[w].nodes[k])
    decreases |x.ways[w].nodes| - i
  {
    if x.split(x.NodeAt(w, i + 1)) {
      t := i + 1;
    } else {
      t := CutAfter(x, w, i + 1);
    }
  }

  /** The last cut point before node `i`. */
  lemma {:induction false} CutBefore(x: Extract, w: nat, i: nat) returns (s: nat)
    requires x.CutAtJunctions() && 0 < i && x.IsNode(w, i)
    ensures s < i && x.split(x.NodeAt(w, s)) && forall k {:trigger x.ways[w].nodes[k]} :: s < k < i ==> !x.split(x.ways[w].nodes[k])
    decreases i
  {
    if x.split(x.NodeAt(w, i - 1)) {
      s := i - 1;
    } else {
      s := CutBefore(x, w, i - 1);
    }
  }

  lemma RunEndsAreCuts(x: Extract, w: nat, run: Run)
    requires x.CutAtJunctions() && w < |x.ways| && IsRun(x.ways[w], x.split, run)
    ensures x.split(x.NodeAt(w, run.s)) && x.split(x.NodeAt(w, run.t))
  {
    assert x.split(x.ways[w].nodes[0]);
  }

  /** What a drive has achieved: it starts at `a`, ends at `at` and is `driven` long. */
  ghost predicate Drive(x: Extract, a: int, rs: seq<Road>, at: int, driven: real) {
    Drives(x.Roads(), a, rs) && DriveEnd(a, rs) == at && DriveLength(rs) == driven
  }

  /** Reaching the far end of a run closes it: one road more, or none for a closed loop. */
  lemma CloseRun(x: Extract, a: int, rs: seq<Road>, w: nat, run: Run, back: bool, length: real) returns (more: seq<Road>)
    requires x.Ok() && w < |x.ways| && IsRun(x.ways[w], x.split, run)
    requires if back then x.ways[w].backward else x.ways[w].forward
    requires Drives(x.Roads(), a, rs) && DriveEnd(a, rs) == x.NodeAt(w, if back then run.t else run.s)
    requires DriveLength(rs) + x.Stretch(w, run.s, run.t) <= length
    ensures Drives(x.Roads(), a, more) && |more| <= |rs| + 1
    ensures Follows(x, x.NodeAt(w, if back then run.s else run.t), length, DriveEnd(a, more), DriveLength(more), AtCut)
  {
    RunEndsAreCuts(x, w, run);
    if x.NodeAt(w, run.s) == x.NodeAt(w, run.t) {
      StretchNonNegative(x, w, run.s, run.t);
      more := rs;
    } else {
      var r := RunIsRoad(x, w, run, back);
      DriveOn(x.Roads(), a, rs, r);
      more := rs + [r];
    }
  }

  lemma StretchOne(x: Extract, w: nat, i: nat)
    requires x.Located() && x.IsNode(w, i + 1)
    ensures x.Stretch(w, i, i + 1) == Gap(x, w, i)
  {
    StretchRight(x, w, i, i);
    StretchEmpty(x, w, i);
  }

  /** A hop that leaves a cut point enters a run, and may already close it. */
  lemma LeaveCut(x: Extract, a: int, rs: seq<Road>, h: Hop, length: real) returns (more: seq<Road>, arr: Arrival)
    requires x.Ok() && HopOk(x, h) && x.split(HopFrom(x, h))
    requires Drives(x.Roads(), a, rs) && DriveEnd(a, rs) == HopFrom(x, h) && DriveLength(rs) <= length
    ensures Drives(x.Roads(), a, more) && |more| <= |rs| + 1
    ensures Follows(x, HopTo(x, h), length + Gap(x, h.way, h.i), DriveEnd(a, more), DriveLength(more), arr)
  {
    var w, i := h.way, h.i;
    StretchOne(x, w, i);
    if x.split(HopTo(x, h)) {
      arr := AtCut;
      more := CloseRun(x, a, rs, w, Run(i, i + 1), h.back, length + Gap(x, w, i));
    } else {
      more := rs;
      if h.back {
        var s := CutBefore(x, w, i + 1);
        arr := Inside(w, Run(s, i + 1), i, true);
      } else {
        var t := CutAfter(x, w, i);
        arr := Inside(w, Run(i, t), i + 1, false);
      }
    }
  }

  /** Inside a run a node is nowhere else, so the next hop goes one node on or one node back. */
  lemma InsideIsUnique(x: Extract, h: Hop, w: nat, run: Run, j: nat)
    requires x.CutAtJunctions() && HopOk(x, h) && w < |x.ways| && IsRun(x.ways[w], x.split, run) && run.s < j < run.t
    requires HopFrom(x, h) == x.NodeAt(w, j)
    ensures h.way == w && (if h.back then h.i + 1 else h.i) == j
  {
    assert !x.split(x.ways[w].nodes[j]);
    assert x.OccursOnce(w, j, h.way, if h.back then h.i + 1 else h.i);
  }

  /** Turning back inside a run loses nothing: the part of the run not yet driven only shrinks. */
  lemma RetraceOnward(x: Extract, at: int, driven: real, length: real, w: nat, run: Run, j: nat) returns (arr: Arrival)
    requires x.Ok() && w < |x.ways| && IsRun(x.ways[w], x.split, run) && run.s < j < run.t
    requires Follows(x, x.NodeAt(w, j), length, at, driven, Inside(w, run, j, true))
    ensures Follows(x, x.NodeAt(w, j + 1), length + Gap(x, w, j), at, driven, arr)
  {
    arr := if j + 1 == run.t then AtCut else Inside(w, run, j + 1, true);
    GapNonNegative(x, w, j);
    StretchLeft(x, w, j, run.t);
    RunEndsAreCuts(x, w, run);
    StretchNonNegative(x, w, j, run.t);
  }

  lemma RetraceBackward(x: Extract, at: int, driven: real, length: real, w: nat, run: Run, k: nat) returns (arr: Arrival)
    requires x.Ok() && w < |x.ways| && IsRun(x.ways[w], x.split, run) && run.s < k + 1 < run.t
    requires Follows(x, x.NodeAt(w, k + 1), length, at, driven, Inside(w, run, k + 1, false))
    ensures Follows(x, x.NodeAt(w, k), length + Gap(x, w, k), at, driven, arr)
  {
    arr := if k == run.s then AtCut else Inside(w, run, k, false);
    GapNonNegative(x, w, k);
    StretchRight(x, w, run.s, k);
    RunEndsAreCuts(x, w, run);
    StretchNonNegative(x, w, run.s, k + 1);
  }

  /** The hop that reaches the end of a run drives the run. */
  lemma HopToRunEnd(x: Extract, a: int, rs: seq<Road>, length: real, h: Hop, run: Run) returns (more: seq<Road>)
    requires x.Ok() && HopOk(x, h) && !h.back && IsRun(x.ways[h.way], x.split, run) && run.s < h.i && h.i + 1 == run.t
    requires Drives(x.Roads(), a, rs)
    requires Follows(x, HopFrom(x, h), length, DriveEnd(a, rs), DriveLength(rs), Inside(h.way, run, h.i, false))
    ensures Drives(x.Roads(), a, more) && |more| <= |rs| + 1
    ensures Follows(x, HopTo(x, h), length + Gap(x, h.way, h.i), DriveEnd(a, more), DriveLength(more), AtCut)
  {
    StretchRight(x, h.way, run.s, h.i);
    more := CloseRun(x, a, rs, h.way, run, false, length + Gap(x, h.way, h.i));
  }

  lemma HopOnward(x: Extract, a: int, rs: seq<Road>, length: real, h: Hop, run: Run, back: bool)
    returns (more: seq<Road>, arr: Arrival)
    requires x.Ok() && HopOk(x, h) && !h.back && IsRun(x.ways[h.way], x.split, run) && run.s < h.i < run.t
    requires Drives(x.Roads(), a, rs)
    requires Follows(x, HopFrom(x, h), length, DriveEnd(a, rs), DriveLength(rs), Inside(h.way, run, h.i, back))
    ensures Drives(x.Roads(), a, more) && |more| <= |rs| + 1
    ensures Follows(x, HopTo(x, h), length + Gap(x, h.way, h.i), DriveEnd(a, more), DriveLength(more), arr)
  {
    var w, j := h.way, h.i;
    if back {
      more := rs;
      arr := RetraceOnward(x, DriveEnd(a, rs), DriveLength(rs), length, w, run, j);
    } else if j + 1 < run.t {
      more, arr := rs, Inside(w, run, j + 1, false);
      StretchRight(x, w, run.s, j);
    } else {
      more := HopToRunEnd(x, a, rs, length, h, run);
      arr := AtCut;
    }
  }

  lemma HopBackward(x: Extract, a: int, rs: seq<Road>, length: real, h: Hop, run: Run, back: bool)
    returns (more: seq<Road>, arr: Arrival)
    requires x.Ok() && HopOk(x, h) && h.back && IsRun(x.ways[h.way], x.split, run) && run.s < h.i + 1 < run.t
    requires Drives(x.Roads(), a, rs)
    requires Follows(x, HopFrom(x, h), length, DriveEnd(a, rs), DriveLength(rs), Inside(h.way, run, h.i + 1, back))
    ensures Drives(x.Roads(), a, more) && |more| <= |rs| + 1
    ensures Follows(x, HopTo(x, h), length + Gap(x, h.way, h.i), DriveEnd(a, more), DriveLength(more), arr)
  {
    var w, k := h.way, h.i;
    if !back {
      more := rs;
      arr := RetraceBackward(x, DriveEnd(a, rs), DriveLength(rs), length, w, run, k);
    } else if k > run.s {
      more, arr := rs, Inside(w, run, k, true);
      StretchLeft(x, w, k, run.t);
    } else {
      StretchLeft(x, w, k, run.t);
      more := CloseRun(x, a, rs, w, run, true, length + Gap(x, w, k));
      arr := AtCut;
    }
  }

  lemma HopInside(x: Extract, a: int, rs: seq<Road>, length: real, run: Run, j: nat, back: bool, h: Hop)
    returns (more: seq<Road>, arr: Arrival)
    requires x.Ok() && HopOk(x, h) && j == (if h.back then h.i + 1 else h.i)
    requires IsRun(x.ways[h.way], x.split, run) && run.s < j < run.t && Drives(x.Roads(), a, rs)
    requires Follows(x, HopFrom(x, h), length, DriveEnd(a, rs), DriveLength(rs), Inside(h.way, run, j, back))
    ensures Drives(x.Roads(), a, more) && |more| <= |rs| + 1
    ensures Follows(x, HopTo(x, h), length + Gap(x, h.way, h.i), DriveEnd(a, more), DriveLength(more), arr)
  {
    if h.back {
      more, arr := HopBackward(x, a, rs, length, h, run, back);
    } else {
      more, arr := HopOnward(x, a, rs, length, h, run, back);
    }
  }

  /** Whatever the journey does next, the drive can keep following it. */
  lemma FollowHop(x: Extract, a: int, rs: seq<Road>, arr: Arrival, h: Hop, length: real) returns (more: seq<Road>, arr': Arrival)
    requires x.Ok() && HopOk(x, h) && Drives(x.Roads(), a, rs)
    requires Follows(x, HopFrom(x, h), length, DriveEnd(a, rs), DriveLength(rs), arr)
    ensures Drives(x.Roads(), a, more) && |more| <= |rs| + 1
    ensures Follows(x, HopTo(x, h), length + Gap(x, h.way, h.i), DriveEnd(a, more), DriveLength(more), arr')
  {
    match arr
    case AtCut =>
      more, arr' := LeaveCut(x, a, rs, h, length);
    case Inside(w, run, j, back) =>
      InsideIsUnique(x, h, w, run, j);
      more, arr' := HopInside(x, a, rs, length, run, j, back, h);
  }

  /** Every journey that starts at a cut point is followed by a drive that is never longer. */
  lemma {:induction false} JourneyFolds(x: Extract, a: int, hs: seq<Hop>) returns (rs: seq<Road>, arr: Arrival)
    requires x.Ok() && x.split(a) && Travels(x, a, hs)
    ensures Drives(x.Roads(), a, rs) && |rs| <= |hs|
    ensures Follows(x, TravelEnd(x, a, hs), TravelLength(x, hs), DriveEnd(a, rs), DriveLength(rs), arr)
    decreases |hs|
  {
    if hs == [] {
      rs, arr := [], AtCut;
    } else {
      var init := hs[..|hs| - 1];
      rs, arr := JourneyFolds(x, a, init);
      rs, arr := FollowHop(x, a, rs, arr, hs[|hs| - 1], TravelLength(x, init));
    }
  }

  // ------------------------------------------------------------------ the theorem

  /** `d` is a lower bound on the length of every journey over the ways. */
  ghost predicate NoShorterJourney(x: Extract, a: int, b: int, d: real)
    requires x.Located()
  {
    forall hs {:trigger Travels(x, a, hs)} :: Travels(x, a, hs) && TravelEnd(x, a, hs) == b ==> d <= TravelLength(x, hs)
  }

  ghost predicate NoShorterDrive(roads: seq<Road>, a: int, b: int, d: real) {
    forall rs {:trigger Drives(roads, a, rs)} :: Drives(roads, a, rs) && DriveEnd(a, rs) == b ==> d <= DriveLength(rs)
  }

  ghost predicate Reachable(x: Extract, a: int, b: int) {
    exists hs :: Travels(x, a, hs) && TravelEnd(x, a, hs) == b
  }

  ghost predicate Drivable(roads: seq<Road>, a: int, b: int) {
    exists rs :: Drives(roads, a, rs) && DriveEnd(a, rs) == b
  }

  lemma FoldsToCut(x: Extract, a: int, b: int, hs: seq<Hop>) returns (rs: seq<Road>)
    requires x.Ok() && x.split(a) && x.split(b) && Travels(x, a, hs) && TravelEnd(x, a, hs) == b
    ensures Drives(x.Roads(), a, rs) && DriveEnd(a, rs) == b && DriveLength(rs) <= TravelLength(x, hs) && |rs| <= |hs|
  {
    var arr;
    rs, arr := JourneyFolds(x, a, hs);
    CutsAreNotInside(x, b, TravelLength(x, hs), DriveEnd(a, rs), DriveLength(rs), arr);
  }

  lemma CutsAreNotInside(x: Extract, v: int, length: real, at: int, driven: real, arr: Arrival)
    requires x.Located() && Follows(x, v, length, at, driven, arr) && x.split(v)
    ensures arr == AtCut
  {
  }

  /**
   Contraction preserves reachability and distance: between two cut points, a
   number bounds all journeys over the raw ways from below exactly when it
   bounds all drives over the emitted roads, and one exists exactly when the
   other does.
   */
  lemma ContractionPreservesDistance(x: Extract, a: int, b: int, d: real)
    requires x.Ok() && x.split(a) && x.split(b)
    ensures Reachable(x, a, b) <==> Drivable(x.Roads(), a, b)
    ensures NoShorterJourney(x, a, b, d) <==> NoShorterDrive(x.Roads(), a, b, d)
  {
    forall hs | Travels(x, a, hs) && TravelEnd(x, a, hs) == b
      ensures exists rs :: Drives(x.Roads(), a, rs) && DriveEnd(a, rs) == b && DriveLength(rs) <= TravelLength(x, hs)
    {
      var rs := FoldsToCut(x, a, b, hs);
    }
    forall rs | Drives(x.Roads(), a, rs) && DriveEnd(a, rs) == b
      ensures exists hs :: Travels(x, a, hs) && TravelEnd(x, a, hs) == b && TravelLength(x, hs) == DriveLength(rs)
    {
      var hs := DriveUnfolds(x, a, rs);
    }
  }

  /** Scanning puts the cut points where the theorem needs them. */
  lemma ScanCutsAtJunctions(x: Extract, use: map<int, nat>)
    requires Saturated(use, x.ways) && (forall id :: x.split(id) <==> UseOf(use, id) >= 2)
    requires forall k :: 0 <= k < |x.ways| ==> |x.ways[k].nodes| >= 2
    ensures x.CutAtJunctions()
  {
    forall id ensures x.split(id) <==> IsJunction(x.ways, id) {
      assert UseOf(use, id) == if IsJunction(x.ways, id) then 2 else TotalUse(x.ways, id);
    }
    forall w | 0 <= w < |x.ways| ensures x.split(x.ways[w].nodes[0]) && x.split(x.ways[w].nodes[|x.ways[w].nodes| - 1]) {
      assert IsEndOf(x.ways[w], x.ways[w].nodes[0]) && IsEndOf(x.ways[w], x.ways[w].nodes[|x.ways[w].nodes| - 1]);
    }
    forall w: nat, i: nat, w': nat, i': nat ensures x.OccursOnce(w, i, w', i') {
      if x.IsNode(w, i) && x.IsNode(w', i') && x.NodeAt(w, i) == x.NodeAt(w', i') && !x.split(x.NodeAt(w, i)) {
        NonJunctionOccursOnce(x.ways, x.NodeAt(w, i), w, i, w', i');
      }
    }
  }

  /** Positive hop lengths are more than the theorem needs. */
  lemma PositiveHopsSuffice(x: Extract)
    requires IsMetric(x.metric) && x.Located()
    requires forall w: nat, i: nat {:trigger Gap(x, w, i)} :: x.IsNode(w, i + 1) ==> 0.0 < Gap(x, w, i)
    ensures x.NoEmptyRuns()
  {
    forall w: nat, run: Run | w < |x.ways| && IsRun(x.ways[w], x.split, run) ensures 0.0 < x.Stretch(w, run.s, run.t) {
      PositiveStretch(x, w, run.s, run.t);
    }
  }

  lemma PositiveStretch(x: Extract, w: nat, s: nat, t: nat)
    requires IsMetric(x.metric) && x.Located() && s < t && x.IsNode(w, t) && 0.0 < Gap(x, w, s)
    ensures 0.0 < x.Stretch(w, s, t)
  {
    StretchLeft(x, w, s, t);
    StretchNonNegative(x, w, s + 1, t);
  }
}
