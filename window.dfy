/**
 * Windows: intervals `[start_t, end_t]` of an edge (as fractions of its
 * length, 0 at `Edge.start` and 1 at `Edge.end`) over which the distance
 * field is known in closed form. A circular window is lit by a point
 * source, given in local edge coordinates (the edge runs from `(0, 0)` to
 * `(L, 0)`); a linear window is lit by a straight front travelling at angle
 * `source_direction` to the edge.
 */
module Windows {
  import opened Results
  import opened RealMath
  import opened Vectors
  import opened Meshes

  datatype Window =
    | Circular(edgeId: EdgeId, startT: real, endT: real, cumulativeDistance: real, sourcePoint: Vec2)
    | Linear(edgeId: EdgeId, startT: real, endT: real, sourceDirection: real, startDistance: real)

  /**
   * The body shared by `get_start_distance` and `get_end_distance`, once
   * the edge's length has been looked up: the distance value at fraction
   * `t` of an edge of length `edgeLength`.
   */
  ghost function DistanceAlong(w: Window, edgeLength: real, t: real): (r: real)
    ensures w.Circular? ==> r >= w.cumulativeDistance
  {
    match w
    case Circular(_, _, _, cumulativeDistance, sourcePoint) =>
      var point := Vec2(t * edgeLength, 0.0);
      var sourceToPoint := point.Sub(Vector2(sourcePoint)).value;
      cumulativeDistance + sourceToPoint.Length()
    case Linear(_, _, _, sourceDirection, startDistance) =>
      var edgeToT := edgeLength * t;
      startDistance + edgeToT * Cos(sourceDirection)
  }

  /** `get_start_distance`: the distance value at the start of the window. */
  ghost function StartDistance(w: Window, m: Mesh): (r: real)
    requires EdgeResolves(m, w.edgeId)
    ensures w.Circular? ==> r >= w.cumulativeDistance
  {
    DistanceAlong(w, EdgeLength(m, w.edgeId), w.startT)
  }

  /** `get_end_distance`: the distance value at the end of the window. */
  ghost function EndDistance(w: Window, m: Mesh): (r: real)
    requires EdgeResolves(m, w.edgeId)
    ensures w.Circular? ==> r >= w.cumulativeDistance
  {
    DistanceAlong(w, EdgeLength(m, w.edgeId), w.endT)
  }

  // ---------------------------------------------------------------------
  // Linear windows

  /** At the edge's start point a linear window has its `start_distance`. */
  lemma LinearAtEdgeStart(w: Window, l: real)
    requires w.Linear?
    ensures DistanceAlong(w, l, 0.0) == w.startDistance
  {
  }

  /** Between two fractions the distance grows by the covered length times the cosine. */
  lemma LinearSpan(w: Window, l: real, t1: real, t2: real)
    requires w.Linear?
    ensures DistanceAlong(w, l, t2) - DistanceAlong(w, l, t1) == (l * (t2 - t1)) * Cos(w.sourceDirection)
  {
    var c := Cos(w.sourceDirection);
    ProductDifference(l, t2, t1, c);
  }

  lemma ProductDifference(l: real, e: real, s: real, c: real)
    ensures (l * e) * c - (l * s) * c == (l * (e - s)) * c
  {
  }

  /** A front perpendicular to the edge gives the same distance everywhere. */
  lemma PerpendicularFrontIsLevel(w: Window, l: real, t: real)
    requires w.Linear? && Cos(w.sourceDirection) == 0.0
    ensures DistanceAlong(w, l, t) == w.startDistance
  {
  }

  // ---------------------------------------------------------------------
  // Circular windows

  /** A point source at the edge's start point: the offset plus the length travelled. */
  lemma CircularSourceAtEdgeStart(w: Window, l: real, t: real)
    requires w.Circular? && w.sourcePoint == Vec2(0.0, 0.0)
    requires 0.0 <= t && 0.0 <= l
    ensures DistanceAlong(w, l, t) == w.cumulativeDistance + t * l
  {
    ProductNonNegative(t, l, t * l);
    OnAxisLength(Vec2(t * l, 0.0).Sub(Vector2(w.sourcePoint)).value, t * l);
  }

  lemma OnAxisLength(d: Vec2, a: real)
    requires d == Vec2(a, 0.0) && 0.0 <= a
    ensures d.Length() == a
  {
    assert Sq(a) + Sq(0.0) == Sq(a);
    SqrtOfSquare(a);
  }

  /**
   * A point source at height `h` above the edge's start point: `h` away at
   * the start point, and the hypotenuse away further along.
   */
  lemma CircularSourceAboveEdgeStart(w: Window, l: real, t: real, h: real)
    requires w.Circular? && w.sourcePoint == Vec2(0.0, h) && 0.0 <= h
    ensures DistanceAlong(w, l, 0.0) == w.cumulativeDistance + h
    ensures DistanceAlong(w, l, t) == w.cumulativeDistance + Sqrt(Sq(t * l) + Sq(h))
  {
    assert Vec2(0.0 * l, 0.0).Sub(Vector2(w.sourcePoint)).value == Vec2(0.0, -h);
    SquareOfNegative(h);
    assert Sq(0.0) + Sq(-h) == Sq(h);
    SqrtOfSquare(h);
    assert Vec2(t * l, 0.0).Sub(Vector2(w.sourcePoint)).value == Vec2(t * l, -h);
  }

  // ---------------------------------------------------------------------
  // Both kinds

  /** A window of zero extent has equal distances at its two ends. */
  lemma DegenerateWindowIsLevel(w: Window, m: Mesh)
    requires EdgeResolves(m, w.edgeId)
    requires w.startT == w.endT
    ensures StartDistance(w, m) == EndDistance(w, m)
  {
  }

  // ---------------------------------------------------------------------
  // The unit edge of the window tests

  /** One edge of length 1 from `(0, 0, 0)` to `(1, 0, 0)`, and no faces. */
  function UnitEdgeMesh(): Mesh {
    Mesh([Vertex(Vec3(0.0, 0.0, 0.0), Some(0.0)), Vertex(Vec3(1.0, 0.0, 0.0), Some(1.0))],
         [Edge(0, 1)],
         [])
  }

  lemma UnitEdgeHasLengthOne()
    ensures EdgeResolves(UnitEdgeMesh(), 0)
    ensures EdgeLength(UnitEdgeMesh(), 0) == 1.0
  {
    var m := UnitEdgeMesh();
    assert m.vertices[0].position.Sub(Vector3(m.vertices[1].position)).value == Vec3(-1.0, 0.0, 0.0);
    LengthOfNegativeUnitX();
  }

  lemma LengthOfNegativeUnitX()
    ensures Vec3(-1.0, 0.0, 0.0).Length() == 1.0
  {
    assert Sq(-1.0) + Sq(0.0) + Sq(0.0) == Sq(1.0);
    SqrtOfSquare(1.0);
  }

  /** On an edge of length 1 the distances are the field at fractions of length 1. */
  lemma OnEdgeOfLengthOne(w: Window, m: Mesh, l: real)
    requires EdgeResolves(m, w.edgeId) && EdgeLength(m, w.edgeId) == l && l == 1.0
    ensures StartDistance(w, m) == DistanceAlong(w, l, w.startT)
    ensures EndDistance(w, m) == DistanceAlong(w, l, w.endT)
  {
  }

  // The cases of the window tests, one lemma per window, on any edge of
  // length `l == 1` (such as the one of `UnitEdgeMesh`).

  /** A front perpendicular to the edge: 1 at both ends. */
  lemma LinearPerpendicularExample(w: Window, m: Mesh, l: real)
    requires w == Linear(0, 0.0, 1.0, Pi / 2.0, 1.0)
    requires EdgeResolves(m, w.edgeId) && EdgeLength(m, w.edgeId) == l && l == 1.0
    ensures StartDistance(w, m) == 1.0 && EndDistance(w, m) == 1.0
  {
    OnEdgeOfLengthOne(w, m, l);
    CosHalfPi();
  }

  /** A front at 45 degrees over the whole edge. */
  lemma LinearDiagonalExample(w: Window, m: Mesh, l: real)
    requires w == Linear(0, 0.0, 1.0, Pi / 4.0, 1.0)
    requires EdgeResolves(m, w.edgeId) && EdgeLength(m, w.edgeId) == l && l == 1.0
    ensures StartDistance(w, m) == 1.0
    ensures EndDistance(w, m) == 1.0 + Sqrt(2.0) / 2.0
  {
    OnEdgeOfLengthOne(w, m, l);
    CosQuarterPi();
  }

  /** A front at 45 degrees over the first half of the edge. */
  lemma LinearHalfEdgeExample(w: Window, m: Mesh, l: real)
    requires w == Linear(0, 0.0, 0.5, Pi / 4.0, 1.0)
    requires EdgeResolves(m, w.edgeId) && EdgeLength(m, w.edgeId) == l && l == 1.0
    ensures StartDistance(w, m) == 1.0
    ensures EndDistance(w, m) == 1.0 + Sqrt(2.0) / 2.0 / 2.0
  {
    OnEdgeOfLengthOne(w, m, l);
    CosQuarterPi();
  }

  /** A front at 45 degrees from a quarter to a half of the edge. */
  lemma LinearQuarterToHalfExample(w: Window, m: Mesh, l: real)
    requires w == Linear(0, 0.25, 0.5, Pi / 4.0, 1.0)
    requires EdgeResolves(m, w.edgeId) && EdgeLength(m, w.edgeId) == l && l == 1.0
    ensures StartDistance(w, m) == 1.0 + Sqrt(2.0) / 2.0 / 4.0
    ensures EndDistance(w, m) == 1.0 + Sqrt(2.0) / 2.0 / 2.0
  {
    OnEdgeOfLengthOne(w, m, l);
    CosQuarterPi();
  }

  /** A point source at the edge's start: `sigma` there, `sigma + 1` at the end. */
  lemma CircularSourceAtStartExample(w: Window, m: Mesh, l: real)
    requires w == Circular(0, 0.0, 1.0, 1.0, Vec2(0.0, 0.0))
    requires EdgeResolves(m, w.edgeId) && EdgeLength(m, w.edgeId) == l && l == 1.0
    ensures StartDistance(w, m) == 1.0
    ensures EndDistance(w, m) == 1.0 + 1.0
  {
    OnEdgeOfLengthOne(w, m, l);
    assert DistanceAlong(w, l, w.startT) == 1.0 by {
      CircularSourceAtEdgeStart(w, l, w.startT);
    }
    assert DistanceAlong(w, l, w.endT) == 1.0 + 1.0 by {
      CircularSourceAtEdgeStart(w, l, w.endT);
    }
  }

  /** A point source a unit above the edge's start: `sigma + 1`, then `sigma + sqrt 2`. */
  lemma CircularSourceAboveStartExample(w: Window, m: Mesh, l: real)
    requires w == Circular(0, 0.0, 1.0, 1.0, Vec2(0.0, 1.0))
    requires EdgeResolves(m, w.edgeId) && EdgeLength(m, w.edgeId) == l && l == 1.0
    ensures StartDistance(w, m) == 1.0 + 1.0
    ensures EndDistance(w, m) == 1.0 + Sqrt(2.0)
  {
    OnEdgeOfLengthOne(w, m, l);
    SourceAboveStartOnUnitLength(w, l);
  }

  lemma SourceAboveStartOnUnitLength(w: Window, l: real)
    requires w == Circular(0, 0.0, 1.0, 1.0, Vec2(0.0, 1.0)) && l == 1.0
    ensures DistanceAlong(w, l, w.startT) == 1.0 + 1.0
    ensures DistanceAlong(w, l, w.endT) == 1.0 + Sqrt(2.0)
  {
    CircularSourceAboveEdgeStart(w, 1.0, 1.0, 1.0);
    assert Sq(1.0 * 1.0) + Sq(1.0) == 2.0;
  }
}
