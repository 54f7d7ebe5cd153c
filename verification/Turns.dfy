/**
 Which way a movement through a junction turns, and what turning costs
 (internal/safety/turn.go:31-104, internal/geo/geo.go).
 */
module Turns {
  import opened RoadGraph
  import opened Safety

  // -------------------------------------------------------------- which way

  /** The change of bearing, some full circles on. */
  function Around(change: real, k: int): real {
    change + 360.0 * k as real
  }

  /** Between 35 degrees and about turn, clockwise. */
  ghost predicate TurnsRight(change: real) {
    exists k: int {:trigger Around(change, k)} :: 35.0 <= Around(change, k) < 180.0
  }

  /** Between 35 degrees and about turn, anticlockwise. */
  ghost predicate TurnsLeft(change: real) {
    exists k: int {:trigger Around(change, k)} :: -180.0 <= Around(change, k) <= -35.0
  }

  ghost predicate IsBearing(b: real) {
    0.0 <= b < 360.0
  }

  /** The turn angle is the change of bearing, brought within half a circle either way. */
  lemma AngleIsChange(from: real, to: real) returns (k: int)
    requires IsBearing(from) && IsBearing(to)
    ensures -180.0 <= TurnAngleDeg(from, to) < 180.0 && TurnAngleDeg(from, to) == Around(to - from, k)
  {
    var x := to - from + 540.0;
    k := 1 - (x / 360.0).Floor;
    assert (x / 360.0).Floor == if x < 360.0 then 0 else if x < 720.0 then 1 else 2;
  }

  /** Only one number of circles brings it there. */
  lemma OneWayAround(change: real, j: int, k: int)
    requires -180.0 <= Around(change, j) < 180.0 && -180.0 <= Around(change, k) < 180.0
    ensures j == k
  {
  }

  /** A movement that does not double back turns right or left exactly when its bearing changes that way by 35 degrees or more. */
  lemma TurnIsByBearing(m: Model, g: Graph, e: nat, f: nat)
    requires g.WellFormed() && g.HasAttributes() && e < g.NumEdges() && f < g.NumEdges() && !g.IsReverseOf(e, f)
    requires IsBearing(g.bearingEnd[e]) && IsBearing(g.bearingStart[f])
    ensures m.ClassifyTurn(g, e, f) == Right <==> TurnsRight(g.bearingStart[f] - g.bearingEnd[e])
    ensures m.ClassifyTurn(g, e, f) == Left <==> TurnsLeft(g.bearingStart[f] - g.bearingEnd[e])
    ensures m.ClassifyTurn(g, e, f) != UTurn
  {
    var change := g.bearingStart[f] - g.bearingEnd[e];
    var k := AngleIsChange(g.bearingEnd[e], g.bearingStart[f]);
    if j: int :| 35.0 <= Around(change, j) < 180.0 {
      OneWayAround(change, j, k);
    }
    if j: int :| -180.0 <= Around(change, j) <= -35.0 {
      OneWayAround(change, j, k);
    }
  }

  // -------------------------------------------------------------- what it costs

  /** How dangerous a kind of movement is, least first. */
  function Rank(kind: TurnKind): nat {
    match kind
    case Straight => 0
    case Right => 1
    case Left => 2
    case UTurn => 3
  }

  predicate StaysSeparated(g: Graph, e: nat, f: nat)
    requires g.HasAttributes() && e < g.NumEdges() && f < g.NumEdges()
  {
    IsSeparated(g.infra[e]) && IsSeparated(g.infra[f])
  }

  /** What a movement is exposed to: the streets it crosses, how the junction is controlled, and whether it stays separated from them. */
  function Exposure(stress: real, control: real, separated: bool): real {
    stress * control * if separated then PROTECTED_CONTINUATION_FACTOR else 1.0
  }

  function ExposureAt(g: Graph, e: nat, f: nat): real
    requires g.WellFormed() && g.HasAttributes() && e < g.NumEdges() && f < g.NumEdges()
  {
    Exposure(CrossingFactor(g.nodeMaxLTS[g.to[e]]), ControlFactor(g.control[g.to[e]]), StaysSeparated(g, e, f))
  }

  /** `c` is what a movement with this base price and exposure costs at this weight. */
  ghost predicate Costs(c: real, weight: real, base: real, exposure: real) {
    c == weight * base * exposure
  }

  lemma ConflictIsExposure(weight: real, base: real, stress: real, control: real, separated: bool)
    ensures Costs(weight * Conflict(base, stress, control, separated), weight, base, Exposure(stress, control, separated))
  {
    var kept := if separated then PROTECTED_CONTINUATION_FACTOR else 1.0;
    assert base * stress * control * kept == base * (stress * control * kept);
  }

  lemma FactorBounds(stress: nat, control: Control)
    ensures 0.3 <= CrossingFactor(stress) <= 4.0 && 0.25 <= ControlFactor(control) <= 1.0
  {
  }

  lemma ExposureBounds(stress: real, control: real, separated: bool)
    requires 0.0 < stress <= 4.0 && 0.0 < control <= 1.0
    ensures 0.0 < Exposure(stress, control, separated) <= 4.0
  {
    ProductBounds(stress, control);
    ScaledDown(stress * control, separated);
  }

  lemma ProductBounds(a: real, b: real)
    requires 0.0 < a <= 4.0 && 0.0 < b <= 1.0
    ensures 0.0 < a * b <= 4.0
  {
    assert a * (1.0 - b) >= 0.0;
  }

  lemma ScaledDown(x: real, separated: bool)
    requires 0.0 < x <= 4.0
    ensures 0.0 < (x * if separated then PROTECTED_CONTINUATION_FACTOR else 1.0) <= 4.0
  {
  }

  lemma PriceOfTurn(weight: real, base: real, stress: nat, control: Control, separated: bool) returns (c: real, exposure: real)
    requires 0.0 < base <= 40.0
    ensures c == weight * Conflict(base, CrossingFactor(stress), ControlFactor(control), separated)
    ensures exposure == Exposure(CrossingFactor(stress), ControlFactor(control), separated)
    ensures Costs(c, weight, base, exposure) && 0.0 < exposure <= 4.0
  {
    c := weight * Conflict(base, CrossingFactor(stress), ControlFactor(control), separated);
    exposure := Exposure(CrossingFactor(stress), ControlFactor(control), separated);
    FactorBounds(stress, control);
    ExposureBounds(CrossingFactor(stress), ControlFactor(control), separated);
    ConflictIsExposure(weight, base, CrossingFactor(stress), ControlFactor(control), separated);
  }

  /** A movement that does not double back is priced by its kind and its exposure. */
  lemma TurnIsScaled(m: Model, g: Graph, e: nat, f: nat) returns (c: real, base: real, exposure: real)
    requires g.WellFormed() && g.HasAttributes() && e < g.NumEdges() && f < g.NumEdges() && m.ClassifyTurn(g, e, f) != UTurn
    ensures c == m.TurnCost(g, e, f) && base == m.BaseTurn(m.ClassifyTurn(g, e, f)) && exposure == ExposureAt(g, e, f)
    ensures Costs(c, m.profile.weightTurn, base, exposure) && 0.0 < base <= 40.0 && 0.0 < exposure <= 4.0
  {
    base := m.BaseTurn(m.ClassifyTurn(g, e, f));
    c, exposure := PriceOfTurn(m.profile.weightTurn, base, g.nodeMaxLTS[g.to[e]], g.control[g.to[e]], StaysSeparated(g, e, f));
  }

  lemma Times(a: real, b: real, k: real)
    requires a <= b && 0.0 <= k
    ensures a * k <= b * k
    ensures a < b && 0.0 < k ==> a * k < b * k
  {
  }

  /** A less dangerous kind of movement and a lesser exposure make a cheaper turn. */
  lemma Compare(weight: real, base: real, base': real, exposure: real, exposure': real, c: real, c': real)
    requires 0.0 <= weight && 0.0 < base <= base' && 0.0 < exposure <= exposure'
    requires Costs(c, weight, base, exposure) && Costs(c', weight, base', exposure')
    ensures c <= c'
    ensures 0.0 < weight && (base < base' || exposure < exposure') ==> c < c'
  {
    Times(base, base', weight);
    Times(0.0, base, weight);
    Times(weight * base, weight * base', exposure);
    Times(exposure, exposure', weight * base');
    Times(0.0, base', weight);
  }

  /** Of two movements the less dangerous and no more exposed is the cheaper. */
  lemma CompareTurns(m: Model, g: Graph, e: nat, f: nat, e': nat, f': nat)
    requires g.WellFormed() && g.HasAttributes() && WeightsNonNegative(m.profile)
    requires e < g.NumEdges() && f < g.NumEdges() && e' < g.NumEdges() && f' < g.NumEdges()
    requires Rank(m.ClassifyTurn(g, e, f)) <= Rank(m.ClassifyTurn(g, e', f')) < 3 && ExposureAt(g, e, f) <= ExposureAt(g, e', f')
    ensures m.TurnCost(g, e, f) <= m.TurnCost(g, e', f')
    ensures 0.0 < m.profile.weightTurn && (Rank(m.ClassifyTurn(g, e, f)) < Rank(m.ClassifyTurn(g, e', f')) || ExposureAt(g, e, f) < ExposureAt(g, e', f')) ==>
              m.TurnCost(g, e, f) < m.TurnCost(g, e', f')
  {
    assert 0.0 <= m.profile.Weights()[5];
    var c, base, exposure := TurnIsScaled(m, g, e, f);
    var c', base', exposure' := TurnIsScaled(m, g, e', f');
    Compare(m.profile.weightTurn, base, base', exposure, exposure', c, c');
  }

  /** At one junction, as long as the rider stays separated in both or in neither, straight on is cheaper than right, and right than left. */
  lemma LeftIsDearest(m: Model, g: Graph, e: nat, f: nat, e': nat, f': nat)
    requires g.WellFormed() && g.HasAttributes() && WeightsNonNegative(m.profile)
    requires e < g.NumEdges() && f < g.NumEdges() && e' < g.NumEdges() && f' < g.NumEdges()
    requires g.to[e] == g.to[e'] && (StaysSeparated(g, e, f) <==> StaysSeparated(g, e', f'))
    requires Rank(m.ClassifyTurn(g, e, f)) < Rank(m.ClassifyTurn(g, e', f')) < 3
    ensures m.TurnCost(g, e, f) <= m.TurnCost(g, e', f')
    ensures 0.0 < m.profile.weightTurn ==> m.TurnCost(g, e, f) < m.TurnCost(g, e', f')
  {
    CompareTurns(m, g, e, f, e', f');
  }

  /** Crossing a busier street is more exposed, any control less than none, and staying separated less than not. */
  lemma ExposureRises(stress: nat, stress': nat, control: Control, separated: bool)
    requires 1 <= stress < stress' <= 4
    ensures Exposure(CrossingFactor(stress), ControlFactor(control), separated) < Exposure(CrossingFactor(stress'), ControlFactor(control), separated)
  {
    FactorBounds(stress, control);
    Times(CrossingFactor(stress), CrossingFactor(stress'), ControlFactor(control));
  }

  lemma ControlLessens(stress: nat, control: Control, separated: bool)
    requires control != NoControl
    ensures Exposure(CrossingFactor(stress), ControlFactor(control), separated) < Exposure(CrossingFactor(stress), ControlFactor(NoControl), separated)
  {
    FactorBounds(stress, control);
    Times(ControlFactor(control), 1.0, CrossingFactor(stress));
  }

  lemma SeparationLessens(stress: nat, control: Control)
    ensures Exposure(CrossingFactor(stress), ControlFactor(control), true) < Exposure(CrossingFactor(stress), ControlFactor(control), false)
  {
    FactorBounds(stress, control);
    Times(0.0, CrossingFactor(stress), ControlFactor(control));
  }

  /** Doubling back on the quietest street is dearer than the worst ordinary turn. */
  lemma DoublingBackIsDearest(m: Model, g: Graph, e: nat, f: nat, e': nat, f': nat)
    requires g.WellFormed() && g.HasAttributes() && WeightsNonNegative(m.profile)
    requires e < g.NumEdges() && f < g.NumEdges() && e' < g.NumEdges() && f' < g.NumEdges()
    requires !g.IsReverseOf(e, f) && g.IsReverseOf(e', f')
    ensures m.TurnCost(g, e, f) <= m.TurnCost(g, e', f')
    ensures 0.0 < m.profile.weightTurn ==> m.TurnCost(g, e, f) < m.TurnCost(g, e', f')
  {
    assert 0.0 <= m.profile.Weights()[5];
    var w := m.profile.weightTurn;
    var c, base, exposure := TurnIsScaled(m, g, e, f);
    Compare(w, base, 75.0, exposure, 4.0, c, w * 75.0 * 4.0);
  }

  // -------------------------------------------------------------- in numbers

  /** At an uncontrolled junction of stress 2, off separated ways and at weight 1: 24 to the left, 6 to the right and 2.4 straight on. */
  lemma TurnsInNumbers(m: Model, g: Graph, e: nat, f: nat)
    requires g.WellFormed() && g.HasAttributes() && e < g.NumEdges() && f < g.NumEdges() && !g.IsReverseOf(e, f)
    requires g.nodeMaxLTS[g.to[e]] == 2 && g.control[g.to[e]] == NoControl && m.profile.weightTurn == 1.0 && g.infra[e] == InfraNone
    requires g.bearingEnd[e] == 0.0
    ensures g.bearingStart[f] == 270.0 ==> m.TurnCost(g, e, f) == 24.0
    ensures g.bearingStart[f] == 90.0 ==> m.TurnCost(g, e, f) == 6.0
    ensures g.bearingStart[f] == 20.0 ==> m.TurnCost(g, e, f) == 2.4
  {
    if g.bearingStart[f] == 270.0 {
      assert Around(270.0, -1) == -90.0;
      TurnIsByBearing(m, g, e, f);
    } else if g.bearingStart[f] == 90.0 {
      assert Around(90.0, 0) == 90.0;
      TurnIsByBearing(m, g, e, f);
    } else if g.bearingStart[f] == 20.0 {
      var k := AngleIsChange(0.0, 20.0);
      OneWayAround(20.0, 0, k);
    }
  }
}
