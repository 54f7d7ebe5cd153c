/**
 The compass bearings at an edge's two ends (internal/osm/build.go:179-209).
 Bearings are measured by a function of two points; what is modelled is which
 points they are measured between.
 */
module Bearings {
  import opened Wrappers
  import opened Geo

  type Bearing = (LatLon, LatLon) -> real

  function Reverse<T>(s: seq<T>): (r: seq<T>)
    ensures |r| == |s| && forall i :: 0 <= i < |s| ==> r[i] == s[|s| - 1 - i]
  {
    seq(|s|, i requires 0 <= i < |s| => s[|s| - 1 - i])
  }

  /** The first point from index `i` on that differs from the first of all. */
  function Leaving(shape: seq<LatLon>, i: nat): Option<nat>
    requires shape != []
    decreases |shape| - i
  {
    if i >= |shape| then None else if shape[i] != shape[0] then Some(i) else Leaving(shape, i + 1)
  }

  /** The last point before index `i` that differs from the last of all. */
  function Arriving(shape: seq<LatLon>, i: nat): Option<nat>
    requires shape != [] && i <= |shape|
  {
    if i == 0 then None else if shape[i - 1] != shape[|shape| - 1] then Some(i - 1) else Arriving(shape, i - 1)
  }

  function StartBearing(bearing: Bearing, shape: seq<LatLon>): real {
    if shape == [] || Leaving(shape, 1).None? then 0.0 else LeavingIsIndex(shape, 1); bearing(shape[0], shape[Leaving(shape, 1).value])
  }

  function EndBearing(bearing: Bearing, shape: seq<LatLon>): real {
    if shape == [] || Arriving(shape, |shape| - 1).None? then 0.0
    else ArrivingIsIndex(shape, |shape| - 1); bearing(shape[Arriving(shape, |shape| - 1).value], shape[|shape| - 1])
  }

  lemma {:induction false} LeavingIsIndex(shape: seq<LatLon>, i: nat)
    requires shape != []
    ensures match Leaving(shape, i)
            case Some(k) => i <= k < |shape| && shape[k] != shape[0] && forall j :: i <= j < k ==> shape[j] == shape[0]
            case None => forall j :: i <= j < |shape| ==> shape[j] == shape[0]
    decreases |shape| - i
  {
    if i < |shape| && shape[i] == shape[0] {
      LeavingIsIndex(shape, i + 1);
    }
  }

  lemma {:induction false} ArrivingIsIndex(shape: seq<LatLon>, i: nat)
    requires shape != [] && i <= |shape|
    ensures match Arriving(shape, i)
            case Some(k) => k < i && shape[k] != shape[|shape| - 1] && forall j :: k < j < i ==> shape[j] == shape[|shape| - 1]
            case None => forall j :: 0 <= j < i ==> shape[j] == shape[|shape| - 1]
  {
    if i > 0 && shape[i - 1] == shape[|shape| - 1] {
      ArrivingIsIndex(shape, i - 1);
    }
  }

  /** Skip to the first points that differ, from either end. */
  method EndBearings(bearing: Bearing, shape: seq<LatLon>) returns (start: real, end: real)
    ensures start == StartBearing(bearing, shape) && end == EndBearing(bearing, shape)
  {
    start, end := 0.0, 0.0;
    if shape == [] {
      return;
    }
    var i := 1;
    while i < |shape|
      invariant 1 <= i <= |shape| && start == 0.0 && Leaving(shape, 1) == Leaving(shape, i)
    {
      if shape[i] != shape[0] {
        start := bearing(shape[0], shape[i]);
        break;
      }
      i := i + 1;
    }
    var last := |shape| - 1;
    i := last - 1;
    while i >= 0
      invariant -1 <= i < last && end == 0.0 && Arriving(shape, last) == Arriving(shape, i + 1)
      decreases i + 1
    {
      if shape[i] != shape[last] {
        end := bearing(shape[i], shape[last]);
        break;
      }
      i := i - 1;
    }
  }

  /** Where no point is repeated at an end, an edge leaves towards its second point and arrives from its last but one. */
  lemma BearingsAtTheEnds(bearing: Bearing, shape: seq<LatLon>)
    requires |shape| >= 2
    ensures shape[0] != shape[1] ==> StartBearing(bearing, shape) == bearing(shape[0], shape[1])
    ensures shape[|shape| - 2] != shape[|shape| - 1] ==> EndBearing(bearing, shape) == bearing(shape[|shape| - 2], shape[|shape| - 1])
  {
  }

  /** Repeating the end points changes neither bearing. */
  lemma RepeatsDoNotMatter(bearing: Bearing, shape: seq<LatLon>)
    requires shape != []
    ensures StartBearing(bearing, [shape[0]] + shape) == StartBearing(bearing, shape)
    ensures EndBearing(bearing, shape + [shape[|shape| - 1]]) == EndBearing(bearing, shape)
  {
    LeavingShifts(shape, 1);
    ArrivingShifts(shape, |shape| - 1);
    LeavingIsIndex(shape, 1);
    ArrivingIsIndex(shape, |shape| - 1);
  }

  lemma {:induction false} LeavingShifts(shape: seq<LatLon>, i: nat)
    requires shape != []
    ensures var k := Leaving(shape, i); Leaving([shape[0]] + shape, i + 1) == if k.None? then None else Some(k.value + 1)
    decreases |shape| - i
  {
    if i < |shape| {
      LeavingShifts(shape, i + 1);
    }
  }

  lemma {:induction false} ArrivingShifts(shape: seq<LatLon>, i: nat)
    requires shape != [] && i <= |shape|
    ensures Arriving(shape + [shape[|shape| - 1]], i) == Arriving(shape, i)
  {
    if i > 0 {
      ArrivingShifts(shape, i - 1);
    }
  }

  // ------------------------------------------------------------- the other direction

  function Mirror(k: Option<nat>, n: nat): Option<nat> {
    if k.Some? && k.value < n then Some(n - 1 - k.value) else None
  }

  lemma {:induction false} LeavingMirrors(shape: seq<LatLon>, i: nat)
    requires shape != [] && i <= |shape|
    ensures Leaving(Reverse(shape), i) == Mirror(Arriving(shape, |shape| - i), |shape|)
    decreases |shape| - i
  {
    if i < |shape| {
      LeavingMirrors(shape, i + 1);
    }
  }

  lemma {:induction false} ArrivingMirrors(shape: seq<LatLon>, i: nat)
    requires shape != [] && i <= |shape|
    ensures Arriving(Reverse(shape), i) == Mirror(Leaving(shape, |shape| - i), |shape|)
  {
    if i > 0 {
      ArrivingMirrors(shape, i - 1);
    }
  }

  /** An edge and its twin measure their bearings between the same points, the other way round. */
  lemma TwinBearings(bearing: Bearing, shape: seq<LatLon>)
    ensures StartBearing(bearing, Reverse(shape)) == EndBearing((a: LatLon, b: LatLon) => bearing(b, a), shape)
    ensures EndBearing(bearing, Reverse(shape)) == StartBearing((a: LatLon, b: LatLon) => bearing(b, a), shape)
  {
    if shape != [] {
      LeavingMirrors(shape, 1);
      ArrivingMirrors(shape, |shape| - 1);
      ArrivingIsIndex(shape, |shape| - 1);
      LeavingIsIndex(shape, 1);
    }
  }
}
