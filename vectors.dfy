/** Points and vectors of the `ogl` geometry core (mylib.hpp / mylib.cpp).
    Coordinates are exact reals in place of the source's single-precision floats. */
module Vectors {

  /** A position (`ogl::point`): copied and assigned, with no algebra of its own. */
  datatype Point = Point(x: real, y: real, z: real)

  /** A direction (`ogl::vector`). */
  datatype Vector = Vector(x: real, y: real, z: real)

  /** What a default-constructed `point` and `vector` hold: every component 0. */
  const Origin: Point := Point(0.0, 0.0, 0.0)
  const Zero: Vector := Vector(0.0, 0.0, 0.0)

  function Sq(a: real): real
  {
    a * a
  }

  /** The square of `vector::length`; the square root itself is left to `IsLengthOf`. */
  function LengthSquared(v: Vector): real
  {
    Sq(v.x) + Sq(v.y) + Sq(v.z)
  }

  /** The squared length is never negative, and it is zero exactly for the zero vector. */
  lemma LengthSquaredZero(v: Vector)
    ensures LengthSquared(v) >= 0.0
    ensures LengthSquared(v) == 0.0 <==> v == Zero
  {
    SquarePositive(v.x);
    SquarePositive(v.y);
    SquarePositive(v.z);
  }

  /** `len` is what `vector::length` returns for `v`: the non-negative square root of
      the sum of squares. */
  ghost predicate IsLengthOf(len: real, v: Vector)
  {
    len >= 0.0 && Sq(len) == LengthSquared(v)
  }

  /** A vector has exactly one length. */
  lemma LengthUnique(len1: real, len2: real, v: Vector)
    requires IsLengthOf(len1, v) && IsLengthOf(len2, v)
    ensures len1 == len2
  {
    SameSquare(len1, len2);
  }

  /** The length is zero exactly for the zero vector. */
  lemma LengthZero(len: real, v: Vector)
    requires IsLengthOf(len, v)
    ensures len == 0.0 <==> v == Zero
  {
    LengthSquaredZero(v);
    SquarePositive(len);
  }

  /** `vector::normalize`, given the vector's length `len`: each component divided by
      the length, or the vector itself when the length is zero. The result points the
      same way as `v` and, unless `v` is zero, has unit length. */
  function Normalize(v: Vector, len: real): (r: Vector)
    requires IsLengthOf(len, v)
    ensures v == Zero ==> r == v
    ensures v != Zero ==> LengthSquared(r) == 1.0
    ensures r.x * len == v.x && r.y * len == v.y && r.z * len == v.z
  {
    LengthZero(len, v);
    if len != 0.0 then
      UnitAfterDivide(v.x, v.y, v.z, len);
      Vector(v.x / len, v.y / len, v.z / len)
    else
      v
  }

  lemma UnitAfterDivide(a: real, b: real, c: real, len: real)
    requires len != 0.0 && Sq(len) == Sq(a) + Sq(b) + Sq(c)
    ensures Sq(a / len) + Sq(b / len) + Sq(c / len) == 1.0
  {
    var p, q, r := a / len, b / len, c / len;
    assert p * len == a && q * len == b && r * len == c;
    calc {
      (Sq(p) + Sq(q) + Sq(r)) * Sq(len);
      (p * len) * (p * len) + (q * len) * (q * len) + (r * len) * (r * len);
      Sq(a) + Sq(b) + Sq(c);
      Sq(len);
    }
    CancelSquare(Sq(p) + Sq(q) + Sq(r), len);
  }

  /** `vector::dot`: the scalar product. */
  function Dot(a: Vector, b: Vector): real
  {
    a.x * b.x + a.y * b.y + a.z * b.z
  }

  /** `vector::cross`: the right-handed cross product, orthogonal to both operands. */
  function Cross(a: Vector, b: Vector): (r: Vector)
    ensures Dot(r, a) == 0.0 && Dot(r, b) == 0.0
  {
    Vector(a.y * b.z - a.z * b.y,
           a.z * b.x - a.x * b.z,
           a.x * b.y - a.y * b.x)
  }

  /** The cross product is anticommutative. */
  lemma CrossAnticommutative(a: Vector, b: Vector)
    ensures Cross(a, b) == Vector(-Cross(b, a).x, -Cross(b, a).y, -Cross(b, a).z)
  {
  }

  /** The dot product of a vector with itself is its squared length. */
  lemma DotSelf(v: Vector)
    ensures Dot(v, v) == LengthSquared(v)
  {
  }

  // Facts about real multiplication that the solver does not find unaided.

  lemma SquarePositive(a: real)
    ensures Sq(a) >= 0.0
    ensures a != 0.0 ==> Sq(a) > 0.0
    ensures a == 0.0 ==> Sq(a) == 0.0
  {
    if a < 0.0 {
      ProductPositive(-a, -a);
      calc {
        Sq(a);
        a * a;
        (-a) * (-a);
      >
        0.0;
      }
    } else if a > 0.0 {
      ProductPositive(a, a);
      calc {
        Sq(a);
        a * a;
      >
        0.0;
      }
    }
  }

  lemma ProductPositive(a: real, b: real)
    requires a > 0.0 && b > 0.0
    ensures a * b > 0.0
  {
  }

  lemma ScaleMonotone(a: real, b: real, c: real)
    requires a <= b && c >= 0.0
    ensures a * c <= b * c
  {
    if a < b && c > 0.0 {
      ProductPositive(b - a, c);
    }
  }

  /** Two non-negative reals with the same square are equal. */
  lemma SameSquare(l1: real, l2: real)
    requires l1 >= 0.0 && l2 >= 0.0 && Sq(l1) == Sq(l2)
    ensures l1 == l2
  {
    if l1 < l2 {
      ScaleMonotone(l1, l2, l1);
      ProductPositive(l2 - l1, l2);
      calc {
        l2 * l2;
        Sq(l2);
        Sq(l1);
        l1 * l1;
      <=
        l2 * l1;
      <  { assert (l2 - l1) * l2 == l2 * l2 - l1 * l2; }
        l2 * l2;
      }
    } else if l2 < l1 {
      ScaleMonotone(l2, l1, l2);
      ProductPositive(l1 - l2, l1);
      calc {
        l1 * l1;
        Sq(l1);
        Sq(l2);
        l2 * l2;
      <=
        l1 * l2;
      <  { assert (l1 - l2) * l1 == l1 * l1 - l2 * l1; }
        l1 * l1;
      }
    }
  }

  lemma CancelSquare(x: real, len: real)
    requires len != 0.0
    requires x * Sq(len) == Sq(len)
    ensures x == 1.0
  {
    SquarePositive(len);
    assert (x - 1.0) * Sq(len) == 0.0;
  }
}
