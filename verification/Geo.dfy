/**
 Coordinates and straight-line distance (internal/geo/geo.go).

 Great-circle trigonometry is replaced by an abstract metric: everything the
 router relies on is that distance is non-negative, zero on equal points,
 symmetric and satisfies the triangle inequality.
 */
module Geo {
  datatype LatLon = LatLon(lat: real, lon: real)

  type Metric = (LatLon, LatLon) -> real

  ghost predicate IsMetric(d: Metric) {
    && (forall a, b :: 0.0 <= d(a, b))
    && (forall a :: d(a, a) == 0.0)
    && (forall a, b :: d(a, b) == d(b, a))
    && (forall a, b, c :: d(a, c) <= d(a, b) + d(b, c))
  }
}
