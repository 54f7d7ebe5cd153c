/**
 The loaded routing graph (internal/graph/graph.go), as the immutable value
 every search reads. Loading it is the business of module GraphLoad.
 */
module RoadGraph {
  import opened Geo

  datatype Infra = InfraNone | Pedestrian | SharedLane | PaintedLane | BufferedLane | CyclePath | ProtectedTrack

  datatype Surface = SurfaceUnknown | Paved | Compacted | Loose | BadSurface

  datatype Control = NoControl | Signal | Stop | Yield | Crossing | Roundabout

  datatype Lit = LitUnknown | LitNo | LitYes

  /** Parallel columns; edges are sorted by source node and edge `e` is row `e`. */
  datatype Graph = Graph(
    metric: Metric,
    loc: seq<LatLon>,
    control: seq<Control>,
    nodeMaxLTS: seq<nat>,
    from: seq<nat>,
    to: seq<nat>,
    lengthM: seq<real>,
    infra: seq<Infra>,
    surface: seq<Surface>,
    lts: seq<nat>,
    crashScore: seq<real>,
    gradePct: seq<real>,
    lit: seq<Lit>,
    bearingStart: seq<real>,
    bearingEnd: seq<real>,
    offs: seq<nat>)
  {
    function NumNodes(): nat { |loc| }

    function NumEdges(): nat { |from| }

    /** Topology: every column the router itself indexes, and exact CSR offsets. */
    ghost predicate WellFormed() {
      && |to| == |lengthM| == NumEdges()
      && (forall e {:trigger from[e]} :: 0 <= e < NumEdges() ==> from[e] < NumNodes())
      && (forall e {:trigger to[e]} :: 0 <= e < NumEdges() ==> to[e] < NumNodes())
      && (forall e :: 0 <= e < NumEdges() ==> 0.0 <= lengthM[e])
      && ExactOffsets(from, NumNodes(), offs)
    }

    /** The attribute columns the safety model reads have one row per edge or node. */
    ghost predicate HasAttributes() {
      && |control| == |nodeMaxLTS| == NumNodes()
      && |infra| == |surface| == |lts| == |crashScore| == |gradePct| == |lit| == NumEdges()
      && |bearingStart| == |bearingEnd| == NumEdges()
    }

    /** The half-open range of edges leaving node `n`. */
    function OutEdges(n: nat): (range: (nat, nat))
      requires WellFormed() && n < NumNodes()
      ensures range.0 <= range.1 <= NumEdges()
      ensures forall e :: range.0 <= e < range.1 <==> 0 <= e < NumEdges() && from[e] == n
    {
      (offs[n], offs[n + 1])
    }

    /** The two edges are the same stretch of road in opposite directions. */
    predicate IsReverseOf(a: nat, b: nat)
      requires a < |from| && b < |from| && |to| == |from|
    {
      from[a] == to[b] && to[a] == from[b]
    }
  }

  /** `offs[v]..offs[v + 1]` is exactly the set of rows whose source is `v`. */
  ghost predicate ExactOffsets(from: seq<nat>, n: nat, offs: seq<nat>) {
    && |offs| == n + 1
    && (forall v, w {:trigger offs[v], offs[w]} :: 0 <= v < n && w == v + 1 ==> offs[v] <= offs[w] <= |from|)
    && (forall v, w, e {:trigger offs[v], offs[w], from[e]} :: 0 <= v < n && w == v + 1 && 0 <= e < |from| ==>
          (offs[v] <= e < offs[w] <==> from[e] == v))
  }
}
