/**
 * The 2D and 3D vector value types. Each arithmetic operator dispatches on
 * the Python type of its right operand: a `float` is applied to every
 * component, a vector of the same dimension is combined componentwise, and
 * anything else (an `int` included, since `isinstance(1, float)` is false)
 * raises `TypeError`.
 */
module Vectors {
  import opened Results
  import opened RealMath

  /** A Python value offered as the right operand of a vector operator. */
  datatype Operand =
    | Float(f: real)
    | Int(i: int)         // also `bool`, a subclass of `int`
    | Vector2(v2: Vec2)
    | Vector3(v3: Vec3)
    | Other               // any non-numeric Python object

  datatype Vec2 = Vec2(x: real, y: real) {

    function Add(other: Operand): (r: Result<Vec2>)
      ensures r.Ok? <==> other.Float? || other.Vector2?
      ensures r.Err? ==> r.error == TypeError
    {
      match other
      case Float(s) => Ok(Vec2(x + s, y + s))
      case Vector2(o) => Ok(Vec2(x + o.x, y + o.y))
      case _ => Err(TypeError)
    }

    function Sub(other: Operand): (r: Result<Vec2>)
      ensures r.Ok? <==> other.Float? || other.Vector2?
      ensures r.Err? ==> r.error == TypeError
    {
      match other
      case Float(s) => Ok(Vec2(x - s, y - s))
      case Vector2(o) => Ok(Vec2(x - o.x, y - o.y))
      case _ => Err(TypeError)
    }

    function Mul(scalar: Operand): (r: Result<Vec2>)
      ensures r.Ok? <==> scalar.Float? || scalar.Vector2?
      ensures r.Err? ==> r.error == TypeError
    {
      match scalar
      case Float(s) => Ok(Vec2(x * s, y * s))
      case Vector2(o) => Ok(Vec2(x * o.x, y * o.y))
      case _ => Err(TypeError)
    }

    /**
     * `__truediv__` has no type dispatch: a number equal to zero (a float or
     * an int) raises `ValueError`, any other number divides every
     * component, and a non-number fails in the division itself.
     */
    function Div(scalar: Operand): (r: Result<Vec2>)
      ensures r.Ok? <==> (scalar.Float? && scalar.f != 0.0) || (scalar.Int? && scalar.i != 0)
      ensures r == Err(ValueError) <==> scalar == Float(0.0) || scalar == Int(0)
    {
      match scalar
      case Float(s) => if s == 0.0 then Err(ValueError) else Ok(Vec2(x / s, y / s))
      case Int(i) => if i == 0 then Err(ValueError) else Ok(Vec2(x / i as real, y / i as real))
      case _ => Err(TypeError)
    }

    /** The dot product; a vector's dot product with itself is never negative. */
    function Dot(other: Vec2): (r: real)
      ensures other == this ==> r >= 0.0
    {
      SquareNonNegative(x);
      SquareNonNegative(y);
      x * other.x + y * other.y
    }

    ghost function Length(): (r: real)
      ensures r >= 0.0
    {
      Sqrt(Sq(x) + Sq(y))
    }

    /** Fails exactly on a zero-length vector; otherwise scaling back by the length restores the vector. */
    ghost function Normalized(): (r: Result<Vec2>)
      ensures r.Err? <==> Length() == 0.0
      ensures r.Err? ==> r.error == ValueError
      ensures r.Ok? ==> r.value.Mul(Float(Length())) == Ok(this)
    {
      var length := Length();
      if length == 0.0 then Err(ValueError)
      else
        var unit := Vec2(x / length, y / length);
        QuotientTimesDivisor(x, length);
        QuotientTimesDivisor(y, length);
        assert unit.Mul(Float(length)).value == Vec2(unit.x * length, unit.y * length);
        assert unit.x * length == x && unit.y * length == y;
        Ok(unit)
    }

    /** Fails exactly on a zero-length target; otherwise the result lies along the target. */
    ghost function Project(other: Vec2): (r: Result<Vec2>)
      ensures r.Err? <==> other.Length() == 0.0
      ensures r.Err? ==> r.error == ValueError
      ensures r.Ok? ==> r.value.x * other.y == r.value.y * other.x
    {
      if other.Length() == 0.0 then Err(ValueError)
      else
        SquarePositive(other.Length());
        other.Mul(Float(Dot(other) / Sq(other.Length())))
    }
  }

  datatype Vec3 = Vec3(x: real, y: real, z: real) {

    function Add(other: Operand): (r: Result<Vec3>)
      ensures r.Ok? <==> other.Float? || other.Vector3?
      ensures r.Err? ==> r.error == TypeError
    {
      match other
      case Float(s) => Ok(Vec3(x + s, y + s, z + s))
      case Vector3(o) => Ok(Vec3(x + o.x, y + o.y, z + o.z))
      case _ => Err(TypeError)
    }

    function Sub(other: Operand): (r: Result<Vec3>)
      ensures r.Ok? <==> other.Float? || other.Vector3?
      ensures r.Err? ==> r.error == TypeError
    {
      match other
      case Float(s) => Ok(Vec3(x - s, y - s, z - s))
      case Vector3(o) => Ok(Vec3(x - o.x, y - o.y, z - o.z))
      case _ => Err(TypeError)
    }

    /** `__neg__`: the same as multiplying by the float -1. */
    function Neg(): (r: Vec3)
      ensures Ok(r) == Mul(Float(-1.0))
    {
      Vec3(-x, -y, -z)
    }

    function Mul(scalar: Operand): (r: Result<Vec3>)
      ensures r.Ok? <==> scalar.Float? || scalar.Vector3?
      ensures r.Err? ==> r.error == TypeError
    {
      match scalar
      case Float(s) => Ok(Vec3(x * s, y * s, z * s))
      case Vector3(o) => Ok(Vec3(x * o.x, y * o.y, z * o.z))
      case _ => Err(TypeError)
    }

    /** As for `Vec2.Div`: only a zero number is refused with `ValueError`. */
    function Div(scalar: Operand): (r: Result<Vec3>)
      ensures r.Ok? <==> (scalar.Float? && scalar.f != 0.0) || (scalar.Int? && scalar.i != 0)
      ensures r == Err(ValueError) <==> scalar == Float(0.0) || scalar == Int(0)
    {
      match scalar
      case Float(s) => if s == 0.0 then Err(ValueError) else Ok(Vec3(x / s, y / s, z / s))
      case Int(i) =>
        if i == 0 then Err(ValueError) else Ok(Vec3(x / i as real, y / i as real, z / i as real))
      case _ => Err(TypeError)
    }

    function Dot(other: Vec3): (r: real)
      ensures other == this ==> r >= 0.0
    {
      SquareNonNegative(x);
      SquareNonNegative(y);
      SquareNonNegative(z);
      x * other.x + y * other.y + z * other.z
    }

    /** The cross product; a vector crossed with itself is the zero vector. */
    function Cross(other: Vec3): (r: Vec3)
      ensures other == this ==> r == Vec3(0.0, 0.0, 0.0)
    {
      Vec3(y * other.z - z * other.y,
           z * other.x - x * other.z,
           x * other.y - y * other.x)
    }

    ghost function Length(): (r: real)
      ensures r >= 0.0
    {
      Sqrt(Sq(x) + Sq(y) + Sq(z))
    }

    ghost function Normalized(): (r: Result<Vec3>)
      ensures r.Err? <==> Length() == 0.0
      ensures r.Err? ==> r.error == ValueError
      ensures r.Ok? ==> r.value.Mul(Float(Length())) == Ok(this)
    {
      var length := Length();
      if length == 0.0 then Err(ValueError)
      else
        var unit := Vec3(x / length, y / length, z / length);
        QuotientTimesDivisor(x, length);
        QuotientTimesDivisor(y, length);
        QuotientTimesDivisor(z, length);
        assert unit.Mul(Float(length)).value == Vec3(unit.x * length, unit.y * length, unit.z * length);
        assert unit.x * length == x && unit.y * length == y && unit.z * length == z;
        Ok(unit)
    }

    ghost function Project(other: Vec3): (r: Result<Vec3>)
      ensures r.Err? <==> other.Length() == 0.0
      ensures r.Err? ==> r.error == ValueError
      ensures r.Ok? ==> r.value.Cross(other) == Vec3(0.0, 0.0, 0.0)
    {
      if other.Length() == 0.0 then Err(ValueError)
      else
        SquarePositive(other.Length());
        other.Mul(Float(Dot(other) / Sq(other.Length())))
    }
  }
}
