/**
 * The real-number functions the geometry needs. Dafny's `real` stands in for
 * Python's `float`; rounding is not modelled. Dafny's reals carry no
 * completeness axiom, so the existence of a square root cannot be proved in
 * general: `Sqrt` is defined by choice, and the lemmas that need
 * `Sq(Sqrt(x)) == x` take `HasSqrt(x)` as a hypothesis.
 */
module RealMath {

  /** The literal Python prints for `math.pi`. */
  const Pi: real := 3.141592653589793

  /** What a squaring function promises: `a * a` at every `a`. */
  ghost predicate SquareFacts(sq: real -> real) {
    forall a :: sq(a) == a * a
  }

  lemma SquareTableExists()
    ensures exists sq :: SquareFacts(sq)
  {
    var sample := (a: real) => a * a;
    assert SquareFacts(sample);
  }

  /**
   * A function value with the squaring facts. Reaching squares through a
   * function value means the solver expands `Sq(a)` into `a * a` by
   * instantiating `SquareFacts` term by term, which keeps its nonlinear
   * arithmetic small.
   */
  ghost function SquareTable(): (sq: real -> real) {
    SquareTableExists();
    var sq :| SquareFacts(sq); sq
  }

  /** Python's `a ** 2`. */
  ghost function Sq(a: real): real {
    SquareTable()(a)
  }

  ghost predicate IsSqrt(x: real, r: real) {
    r >= 0.0 && Sq(r) == x
  }

  ghost predicate HasSqrt(x: real) {
    exists r :: IsSqrt(x, r)
  }

  /** What a square-root function promises: a non-negative root wherever one exists. */
  ghost predicate SqrtFacts(sqrt: real -> real) {
    forall x :: sqrt(x) >= 0.0 && (HasSqrt(x) ==> IsSqrt(x, sqrt(x)))
  }

  lemma SqrtTableExists()
    ensures exists sqrt :: SqrtFacts(sqrt)
  {
    var sample := (x: real) => if HasSqrt(x) then var r :| IsSqrt(x, r); r else 0.0;
    assert SqrtFacts(sample);
  }

  /** A function value with the square-root facts, for the same reason as `SquareTable`. */
  ghost function SqrtTable(): (sqrt: real -> real) {
    SqrtTableExists();
    var sqrt :| SqrtFacts(sqrt); sqrt
  }

  /** Python's `x ** 0.5`: the non-negative square root, where one exists. */
  ghost function Sqrt(x: real): (r: real)
    ensures r >= 0.0
    ensures HasSqrt(x) ==> IsSqrt(x, r)
  {
    SqrtTable()(x)
  }

  // Facts about products. A product is passed in as a variable equal to it
  // (`p == a * b`), so that the inequalities the solver sees are about
  // variables rather than products.

  lemma ProductPositive(a: real, b: real, p: real)
    requires p == a * b
    requires a > 0.0 && b > 0.0
    ensures p > 0.0
  {
  }

  lemma ProductOfNegativesPositive(a: real, b: real, p: real)
    requires p == a * b
    requires a < 0.0 && b < 0.0
    ensures p > 0.0
  {
    ProductPositive(-a, -b, p);
  }

  lemma ProductNonNegative(a: real, b: real, p: real)
    requires p == a * b
    requires a >= 0.0 && b >= 0.0
    ensures p >= 0.0
  {
    if a > 0.0 && b > 0.0 {
      ProductPositive(a, b, p);
    }
  }

  lemma SquarePositive(a: real)
    requires a != 0.0
    ensures Sq(a) > 0.0
  {
    if a > 0.0 {
      ProductPositive(a, a, Sq(a));
    } else {
      ProductOfNegativesPositive(a, a, Sq(a));
    }
  }

  lemma SquareNonNegative(a: real)
    ensures Sq(a) >= 0.0
  {
    if a != 0.0 {
      SquarePositive(a);
    } else {
      assert Sq(a) == 0.0 * 0.0;
    }
  }

  lemma SquareOfNegative(a: real)
    ensures Sq(-a) == Sq(a)
  {
  }

  lemma SquareOfDifference(a: real, b: real)
    ensures Sq(a - b) == Sq(b - a)
  {
  }

  lemma SquareStrictlyMonotone(a: real, b: real)
    requires 0.0 <= a < b
    ensures Sq(a) < Sq(b)
  {
    var p, q, r := a * a, a * b, b * b;
    assert p <= q;
    assert q < r;
  }

  lemma QuotientTimesDivisor(d: real, k: real)
    requires k != 0.0
    ensures (d / k) * k == d
  {
  }

  lemma SquareOfQuotient(a: real, l: real)
    requires l != 0.0
    ensures Sq(a / l) * Sq(l) == Sq(a)
  {
    var p := a / l;
    QuotientTimesDivisor(a, l);
    assert Sq(p) * Sq(l) == (p * l) * (p * l);
  }

  /** Weights that scale a non-zero `s` back to itself sum to 1. */
  lemma WeightsSumToOne(a: real, b: real, s: real, as': real, bs': real)
    requires s != 0.0
    requires as' == a * s && bs' == b * s
    requires as' + bs' == s
    ensures a + b == 1.0
  {
    assert (a + b - 1.0) * s == 0.0;
  }

  lemma WeightsSumToOne3(a: real, b: real, c: real, s: real, as': real, bs': real, cs': real)
    requires s != 0.0
    requires as' == a * s && bs' == b * s && cs' == c * s
    requires as' + bs' + cs' == s
    ensures a + b + c == 1.0
  {
    assert (a + b + c - 1.0) * s == 0.0;
  }

  /** The square root of a perfect square is its non-negative root. */
  lemma SqrtOfSquare(r: real)
    requires r >= 0.0
    ensures HasSqrt(Sq(r))
    ensures Sqrt(Sq(r)) == r
  {
    assert IsSqrt(Sq(r), r);
    var s := Sqrt(Sq(r));
    if s < r {
      SquareStrictlyMonotone(s, r);
    } else if s > r {
      SquareStrictlyMonotone(r, s);
    }
  }

  /** A zero square root only comes from zero, when the root exists. */
  lemma SqrtZeroOnlyAtZero(x: real)
    requires HasSqrt(x)
    ensures Sqrt(x) == 0.0 <==> x == 0.0
  {
    if x == 0.0 {
      SqrtOfSquare(0.0);
    }
  }

  /** A square root of a positive number is positive. */
  lemma SqrtPositive(x: real)
    requires HasSqrt(x)
    requires x > 0.0
    ensures Sqrt(x) > 0.0
  {
    SqrtZeroOnlyAtZero(x);
  }

  /**
   * The only facts about the cosine that the model uses: the values at the
   * two angles the windows are seeded and tested with.
   */
  ghost predicate CosFacts(cos: real -> real) {
    && cos(Pi / 2.0) == 0.0
    && cos(Pi / 4.0) == Sqrt(2.0) / 2.0
  }

  /** Some function with the cosine facts; which one is left open. */
  ghost function CosTable(): (cos: real -> real)
    ensures CosFacts(cos)
  {
    var sample := (a: real) => if a == Pi / 2.0 then 0.0 else Sqrt(2.0) / 2.0;
    assert CosFacts(sample);
    var cos :| CosFacts(cos); cos
  }

  /** `math.cos`, known only through `CosFacts`. */
  ghost function Cos(a: real): real {
    CosTable()(a)
  }

  lemma CosHalfPi()
    ensures Cos(Pi / 2.0) == 0.0
  {
  }

  lemma CosQuarterPi()
    ensures Cos(Pi / 4.0) == Sqrt(2.0) / 2.0
  {
  }
}
