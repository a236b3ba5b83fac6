/**
 * Algebraic laws of the vector operators: round trips, the type dispatch of
 * the right operand, and the geometry of lengths, normalization and
 * projection.
 */
module VectorLaws {
  import opened Results
  import opened RealMath
  import opened Vectors

  /** Subtracting what was added gives back the original vector. */
  lemma AddThenSubRoundTrip2(v: Vec2, other: Operand)
    requires other.Float? || other.Vector2?
    ensures v.Add(other).Ok? && v.Add(other).value.Sub(other) == Ok(v)
  {
  }

  lemma AddThenSubRoundTrip3(v: Vec3, other: Operand)
    requires other.Float? || other.Vector3?
    ensures v.Add(other).Ok? && v.Add(other).value.Sub(other) == Ok(v)
  {
  }

  /**
   * A float operand acts like the vector whose every component is that
   * float: it reaches every component.
   */
  lemma FloatActsOnEveryComponent2(v: Vec2, s: real)
    ensures v.Add(Float(s)) == v.Add(Vector2(Vec2(s, s)))
    ensures v.Sub(Float(s)) == v.Sub(Vector2(Vec2(s, s)))
    ensures v.Mul(Float(s)) == v.Mul(Vector2(Vec2(s, s)))
  {
    assert v.Mul(Float(s)).value == v.Mul(Vector2(Vec2(s, s))).value;
  }

  lemma FloatActsOnEveryComponent3(v: Vec3, s: real)
    ensures v.Add(Float(s)) == v.Add(Vector3(Vec3(s, s, s)))
    ensures v.Sub(Float(s)) == v.Sub(Vector3(Vec3(s, s, s)))
    ensures v.Mul(Float(s)) == v.Mul(Vector3(Vec3(s, s, s)))
  {
    assert v.Mul(Float(s)).value == v.Mul(Vector3(Vec3(s, s, s))).value;
  }

  /**
   * `+`, `-` and `*` refuse an `int` (and a vector of the other dimension)
   * with `TypeError`; `/` accepts a non-zero `int` as if it were a float.
   */
  lemma NonFloatScalarsRejected(v: Vec2, w: Vec3, i: int)
    ensures v.Add(Int(i)) == v.Sub(Int(i)) == v.Mul(Int(i)) == Err(TypeError)
    ensures w.Add(Int(i)) == w.Sub(Int(i)) == w.Mul(Int(i)) == Err(TypeError)
    ensures v.Add(Vector3(w)) == v.Mul(Vector3(w)) == Err(TypeError)
    ensures w.Add(Vector2(v)) == w.Mul(Vector2(v)) == Err(TypeError)
    ensures i != 0 ==> v.Div(Int(i)) == v.Div(Float(i as real)) && w.Div(Int(i)) == w.Div(Float(i as real))
  {
  }

  /**
   * A vector operand of `*` gives the componentwise product, a vector, and
   * not the dot product; the product is symmetric in its two factors.
   */
  lemma MulByVectorIsComponentwise2(v: Vec2, w: Vec2)
    ensures v.Mul(Vector2(w)) == w.Mul(Vector2(v))
    ensures v.Mul(Vector2(w)).value.x == v.x * w.x && v.Mul(Vector2(w)).value.y == v.y * w.y
  {
    assert v.Mul(Vector2(w)).value == w.Mul(Vector2(v)).value;
  }

  lemma MulByVectorIsComponentwise3(v: Vec3, w: Vec3)
    ensures v.Mul(Vector3(w)) == w.Mul(Vector3(v))
    ensures var p := v.Mul(Vector3(w)).value; p.x == v.x * w.x && p.y == v.y * w.y && p.z == v.z * w.z
  {
    assert v.Mul(Vector3(w)).value == w.Mul(Vector3(v)).value;
  }

  /** Dividing by a non-zero float is undone by multiplying by it. */
  lemma DivThenMulRoundTrip2(v: Vec2, s: real)
    requires s != 0.0
    ensures v.Div(Float(s)).Ok? && v.Div(Float(s)).value.Mul(Float(s)) == Ok(v)
  {
    QuotientTimesDivisor(v.x, s);
    QuotientTimesDivisor(v.y, s);
    assert v.Div(Float(s)).value.Mul(Float(s)).value == v;
  }

  lemma DivThenMulRoundTrip3(v: Vec3, s: real)
    requires s != 0.0
    ensures v.Div(Float(s)).Ok? && v.Div(Float(s)).value.Mul(Float(s)) == Ok(v)
  {
    QuotientTimesDivisor(v.x, s);
    QuotientTimesDivisor(v.y, s);
    QuotientTimesDivisor(v.z, s);
    assert v.Div(Float(s)).value.Mul(Float(s)).value == v;
  }

  lemma DotCommutative2(a: Vec2, b: Vec2)
    ensures a.Dot(b) == b.Dot(a)
  {
  }

  lemma DotCommutative3(a: Vec3, b: Vec3)
    ensures a.Dot(b) == b.Dot(a)
  {
  }

  /** `v.dot(v)` is the squared length (where the square root exists). */
  lemma DotSelfIsLengthSquared2(v: Vec2)
    requires HasSqrt(v.Dot(v))
    ensures v.Dot(v) == Sq(v.Length())
  {
    assert v.Dot(v) == Sq(v.x) + Sq(v.y);
  }

  lemma DotSelfIsLengthSquared3(v: Vec3)
    requires HasSqrt(v.Dot(v))
    ensures v.Dot(v) == Sq(v.Length())
  {
    assert v.Dot(v) == Sq(v.x) + Sq(v.y) + Sq(v.z);
  }

  /** Every vector but zero has a positive dot product with itself. */
  lemma DotSelfPositive2(v: Vec2)
    requires v != Vec2(0.0, 0.0)
    ensures v.Dot(v) > 0.0
  {
    assert v.Dot(v) == Sq(v.x) + Sq(v.y);
    SquareNonNegative(v.x);
    SquareNonNegative(v.y);
    if v.x != 0.0 { SquarePositive(v.x); } else { SquarePositive(v.y); }
  }

  lemma DotSelfPositive3(v: Vec3)
    requires v != Vec3(0.0, 0.0, 0.0)
    ensures v.Dot(v) > 0.0
  {
    assert v.Dot(v) == Sq(v.x) + Sq(v.y) + Sq(v.z);
    SquareNonNegative(v.x);
    SquareNonNegative(v.y);
    SquareNonNegative(v.z);
    if v.x != 0.0 {
      SquarePositive(v.x);
    } else if v.y != 0.0 {
      SquarePositive(v.y);
    } else {
      SquarePositive(v.z);
    }
  }

  /** The length is zero exactly for the zero vector. */
  lemma LengthZeroIffZero2(v: Vec2)
    requires HasSqrt(v.Dot(v))
    ensures v.Length() == 0.0 <==> v == Vec2(0.0, 0.0)
  {
    DotSelfIsLengthSquared2(v);
    if v != Vec2(0.0, 0.0) {
      DotSelfPositive2(v);
      SqrtPositive(v.Dot(v));
    } else {
      SqrtOfSquare(0.0);
    }
  }

  lemma LengthZeroIffZero3(v: Vec3)
    requires HasSqrt(v.Dot(v))
    ensures v.Length() == 0.0 <==> v == Vec3(0.0, 0.0, 0.0)
  {
    assert v.Dot(v) == Sq(v.x) + Sq(v.y) + Sq(v.z);
    if v != Vec3(0.0, 0.0, 0.0) {
      DotSelfPositive3(v);
      SqrtPositive(v.Dot(v));
    } else {
      SqrtOfSquare(0.0);
    }
  }

  /** Normalizing the zero vector raises `ValueError`. */
  lemma NormalizeZeroFails2()
    ensures Vec2(0.0, 0.0).Normalized() == Err(ValueError)
  {
    SqrtOfSquare(0.0);
  }

  lemma NormalizeZeroFails3()
    ensures Vec3(0.0, 0.0, 0.0).Normalized() == Err(ValueError)
  {
    SqrtOfSquare(0.0);
  }

  /** Normalizing any other vector succeeds with a vector of length 1. */
  lemma NormalizedHasUnitLength2(v: Vec2)
    requires HasSqrt(v.Dot(v))
    requires v != Vec2(0.0, 0.0)
    ensures v.Normalized().Ok? && v.Normalized().value.Length() == 1.0
  {
    LengthZeroIffZero2(v);
    DotSelfIsLengthSquared2(v);
    assert v.Dot(v) == Sq(v.x) + Sq(v.y);
    var l := v.Length();
    SquarePositive(l);
    SquareOfQuotient(v.x, l);
    SquareOfQuotient(v.y, l);
    var a, b, s := Sq(v.x / l), Sq(v.y / l), Sq(l);
    WeightsSumToOne(a, b, s, a * s, b * s);
    SqrtOfSquare(1.0);
  }

  lemma NormalizedHasUnitLength3(v: Vec3)
    requires HasSqrt(v.Dot(v))
    requires v != Vec3(0.0, 0.0, 0.0)
    ensures v.Normalized().Ok? && v.Normalized().value.Length() == 1.0
  {
    LengthZeroIffZero3(v);
    DotSelfIsLengthSquared3(v);
    assert v.Dot(v) == Sq(v.x) + Sq(v.y) + Sq(v.z);
    var l := v.Length();
    SquarePositive(l);
    SquareOfQuotient(v.x, l);
    SquareOfQuotient(v.y, l);
    SquareOfQuotient(v.z, l);
    var a, b, c, s := Sq(v.x / l), Sq(v.y / l), Sq(v.z / l), Sq(l);
    WeightsSumToOne3(a, b, c, s, a * s, b * s, c * s);
    SqrtOfSquare(1.0);
  }

  /** Projecting onto the zero vector raises `ValueError`. */
  lemma ProjectOntoZeroFails2(v: Vec2)
    ensures v.Project(Vec2(0.0, 0.0)) == Err(ValueError)
  {
    SqrtOfSquare(0.0);
  }

  lemma ProjectOntoZeroFails3(v: Vec3)
    ensures v.Project(Vec3(0.0, 0.0, 0.0)) == Err(ValueError)
  {
    SqrtOfSquare(0.0);
  }

  /** Expanding the dot product of a residual `v - c*o` with `o`. */
  lemma ResidualDot2(v: Vec2, o: Vec2, c: real)
    ensures Vec2(v.x - o.x * c, v.y - o.y * c).Dot(o) == v.Dot(o) - c * o.Dot(o)
  {
  }

  lemma ResidualDot3(v: Vec3, o: Vec3, c: real)
    ensures Vec3(v.x - o.x * c, v.y - o.y * c, v.z - o.z * c).Dot(o) == v.Dot(o) - c * o.Dot(o)
  {
  }

  /** What the projection leaves over is orthogonal to the target. */
  lemma ProjectionResidualOrthogonal2(v: Vec2, o: Vec2)
    requires HasSqrt(o.Dot(o))
    requires o != Vec2(0.0, 0.0)
    ensures v.Project(o).Ok?
    ensures v.Sub(Vector2(v.Project(o).value)).value.Dot(o) == 0.0
  {
    LengthZeroIffZero2(o);
    DotSelfIsLengthSquared2(o);
    SquarePositive(o.Length());
    var ll := Sq(o.Length());
    var c := v.Dot(o) / ll;
    QuotientTimesDivisor(v.Dot(o), ll);
    assert v.Project(o).value == Vec2(o.x * c, o.y * c);
    ResidualDot2(v, o, c);
  }

  lemma ProjectionResidualOrthogonal3(v: Vec3, o: Vec3)
    requires HasSqrt(o.Dot(o))
    requires o != Vec3(0.0, 0.0, 0.0)
    ensures v.Project(o).Ok?
    ensures v.Sub(Vector3(v.Project(o).value)).value.Dot(o) == 0.0
  {
    LengthZeroIffZero3(o);
    DotSelfIsLengthSquared3(o);
    SquarePositive(o.Length());
    var ll := Sq(o.Length());
    var c := v.Dot(o) / ll;
    QuotientTimesDivisor(v.Dot(o), ll);
    assert v.Project(o).value == Vec3(o.x * c, o.y * c, o.z * c);
    ResidualDot3(v, o, c);
  }

  /** The cross product is orthogonal to both of its factors. */
  lemma CrossOrthogonal(a: Vec3, b: Vec3)
    ensures a.Dot(a.Cross(b)) == 0.0
    ensures b.Dot(a.Cross(b)) == 0.0
  {
  }

  /** Swapping the factors negates the cross product. */
  lemma CrossAntiCommutative(a: Vec3, b: Vec3)
    ensures a.Cross(b) == b.Cross(a).Neg()
  {
  }

  /** Adding the negation gives zero, and negating twice gives the vector back. */
  lemma NegIsAdditiveInverse(v: Vec3)
    ensures v.Add(Vector3(v.Neg())) == Ok(Vec3(0.0, 0.0, 0.0))
    ensures v.Neg().Neg() == v
  {
  }

  /** Negating a vector leaves its length unchanged. */
  lemma LengthOfNegation3(v: Vec3)
    ensures v.Neg().Length() == v.Length()
  {
    SquareOfNegative(v.x);
    SquareOfNegative(v.y);
    SquareOfNegative(v.z);
  }

  /** The distance between two points does not depend on the order of subtraction. */
  lemma LengthOfDifferenceSymmetric2(a: Vec2, b: Vec2)
    ensures a.Sub(Vector2(b)).value.Length() == b.Sub(Vector2(a)).value.Length()
  {
    SquareOfDifference(a.x, b.x);
    SquareOfDifference(a.y, b.y);
  }

  lemma LengthOfDifferenceSymmetric3(a: Vec3, b: Vec3)
    ensures a.Sub(Vector3(b)).value.Length() == b.Sub(Vector3(a)).value.Length()
  {
    SquareOfDifference(a.x, b.x);
    SquareOfDifference(a.y, b.y);
    SquareOfDifference(a.z, b.z);
  }
}
