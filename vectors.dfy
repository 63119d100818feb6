/**
 * The part of the OpenTK vector library that the measurement engine uses:
 * two- and three-dimensional vectors over exact reals, and the library's
 * length, normalisation, angle and degree conversion.
 *
 * Square root and arc cosine cannot be computed exactly over the reals, so
 * they are carried by a `MathLib` record passed to every operation that needs
 * them; `Lawful` lists the only facts about them that the proofs use.
 *
 * A division by zero in single-precision arithmetic yields NaN or an
 * infinity rather than a number; every operation here that divides returns
 * `None` in exactly those cases.
 */
module Vectors {
  import opened Wrappers

  datatype Vec2 = Vec2(x: real, y: real)

  datatype Vec3 = Vec3(x: real, y: real, z: real)

  /** `default(Vector2)`, the value `GetValueOrDefault` falls back to. */
  const Origin: Vec2 := Vec2(0.0, 0.0)

  function Add(a: Vec2, b: Vec2): Vec2 {
    Vec2(a.x + b.x, a.y + b.y)
  }

  function Sub(a: Vec2, b: Vec2): Vec2 {
    Vec2(a.x - b.x, a.y - b.y)
  }

  function Neg(v: Vec2): Vec2 {
    Vec2(-v.x, -v.y)
  }

  function Scale(k: real, v: Vec2): Vec2 {
    Vec2(k * v.x, k * v.y)
  }

  function Dot(a: Vec2, b: Vec2): real {
    a.x * b.x + a.y * b.y
  }

  /** The z component of the cross product of two vectors of the plane. */
  function PerpDot(a: Vec2, b: Vec2): real {
    a.x * b.y - a.y * b.x
  }

  /** Vector2.PerpendicularRight: the vector turned clockwise by a right angle. */
  function PerpendicularRight(v: Vec2): (r: Vec2)
    ensures Dot(r, v) == 0.0
    ensures Dot(r, r) == Dot(v, v)
  {
    Vec2(v.y, -v.x)
  }

  /** Vector2.PerpendicularLeft: the vector turned counter-clockwise by a right angle. */
  function PerpendicularLeft(v: Vec2): (r: Vec2)
    ensures Dot(r, v) == 0.0
    ensures Dot(r, r) == Dot(v, v)
    ensures r == Neg(PerpendicularRight(v))
  {
    Vec2(-v.y, v.x)
  }

  /** `new Vector3(v)`: a plane vector placed in the z = 0 plane. */
  function Embed(v: Vec2): Vec3 {
    Vec3(v.x, v.y, 0.0)
  }

  function Sub3(a: Vec3, b: Vec3): Vec3 {
    Vec3(a.x - b.x, a.y - b.y, a.z - b.z)
  }

  function Dot3(a: Vec3, b: Vec3): real {
    a.x * b.x + a.y * b.y + a.z * b.z
  }

  function Cross3(a: Vec3, b: Vec3): Vec3 {
    Vec3(a.y * b.z - a.z * b.y, a.z * b.x - a.x * b.z, a.x * b.y - a.y * b.x)
  }

  /** The library functions that have no exact counterpart over the reals. */
  datatype MathLib = MathLib(sqrt: real -> real, acos: real -> real, pi: real, degreesPerRadian: real)

  /** The facts about square root, arc cosine and pi that the proofs rely on. */
  ghost predicate Lawful(m: MathLib) {
    && m.pi > 0.0
    && m.degreesPerRadian * m.pi == 180.0
    && (forall x :: x >= 0.0 ==> m.sqrt(x) >= 0.0 && m.sqrt(x) * m.sqrt(x) == x)
    && (forall c :: -1.0 <= c <= 1.0 ==> 0.0 <= m.acos(c) <= m.pi)
    && (forall c, d :: -1.0 <= c <= 1.0 && c + d == 0.0 ==> m.acos(d) == m.pi - m.acos(c))
  }

  /** Vector2.Length. */
  function Length(m: MathLib, v: Vec2): real {
    m.sqrt(Dot(v, v))
  }

  /** Vector3.Length. */
  function Length3(m: MathLib, v: Vec3): real {
    m.sqrt(Dot3(v, v))
  }

  /** Vector2.Normalize: the vector scaled by the reciprocal of its length. */
  function Normalize(m: MathLib, v: Vec2): Option<Vec2> {
    var l := Length(m, v);
    if l == 0.0 then None else Some(Scale(1.0 / l, v))
  }

  /** Vector3.CalculateAngle: the arc cosine of the cosine of the angle, in radians. */
  function CalculateAngle(m: MathLib, a: Vec3, b: Vec3): Option<real> {
    var n := Mul(Length3(m, a), Length3(m, b));
    if n == 0.0 then None else Some(m.acos(Dot3(a, b) / n))
  }

  /** MathHelper.RadiansToDegrees. */
  function RadiansToDegrees(m: MathLib, radians: real): real {
    radians * m.degreesPerRadian
  }

  function Abs(a: real): real {
    if a >= 0.0 then a else -a
  }

  // Arithmetic helpers. The products are wrapped in functions so that the
  // solver never sees a bare square compared with zero.

  function Sq(a: real): real {
    a * a
  }

  function Mul(a: real, b: real): real {
    a * b
  }

  lemma MulPositive(a: real, b: real)
    requires a > 0.0 && b > 0.0
    ensures Mul(a, b) > 0.0
  {
  }

  lemma SqPositive(a: real)
    requires a != 0.0
    ensures Sq(a) > 0.0
  {
    var b := if a > 0.0 then a else -a;
    MulPositive(b, b);
    assert Mul(b, b) == Sq(a);
  }

  lemma MulZero(a: real, b: real)
    requires Mul(a, b) == 0.0
    ensures a == 0.0 || b == 0.0
  {
    if a != 0.0 && b != 0.0 {
      var a1 := if a > 0.0 then a else -a;
      var b1 := if b > 0.0 then b else -b;
      assert Mul(a1, b1) == Mul(a, b) || Mul(a1, b1) == -Mul(a, b);
      MulPositive(a1, b1);
    }
  }

  /** The non-negative square root is the only non-negative number squaring to its argument. */
  lemma SqrtUnique(m: MathLib, x: real, r: real)
    requires Lawful(m)
    requires r >= 0.0 && Sq(r) == x
    ensures m.sqrt(x) == r
  {
    var s := m.sqrt(x);
    assert s >= 0.0 && Sq(s) == x;
    assert Mul(s - r, s + r) == 0.0;
    MulZero(s - r, s + r);
  }

  /** The square root of a square is the absolute value. */
  lemma SqrtOfSquare(m: MathLib, a: real)
    requires Lawful(m)
    ensures m.sqrt(Sq(a)) == Abs(a)
  {
    assert Sq(Abs(a)) == Sq(a);
    SqrtUnique(m, Sq(a), Abs(a));
  }

  /** Dividing by a positive number keeps the sign and commutes with the absolute value. */
  lemma QuotientByPositive(a: real, b: real)
    requires b > 0.0
    ensures a >= 0.0 ==> a / b >= 0.0
    ensures Abs(a / b) == Abs(a) / b
  {
    var c := a / b;
    assert Mul(c, b) == a;
    if c < 0.0 {
      MulPositive(-c, b);
    } else if c > 0.0 {
      MulPositive(c, b);
    }
    assert (-a) / b == -c;
  }

  lemma SqrtZero(m: MathLib)
    requires Lawful(m)
    ensures m.sqrt(0.0) == 0.0
  {
    SqrtUnique(m, 0.0, 0.0);
  }

  lemma DotSelfNonNegative(v: Vec2)
    ensures Dot(v, v) >= 0.0
  {
  }

  lemma DotSelfZero(v: Vec2)
    ensures Dot(v, v) == 0.0 <==> v == Origin
  {
    assert Dot(v, v) == Sq(v.x) + Sq(v.y);
    if v.x != 0.0 {
      SqPositive(v.x);
    } else if v.y != 0.0 {
      SqPositive(v.y);
    }
  }

  lemma SubZero(a: Vec2, b: Vec2)
    ensures Sub(a, b) == Origin <==> a == b
  {
    if Sub(a, b) == Origin {
      assert a.x == b.x && a.y == b.y;
    }
  }

  /** The squared distance between two points is zero exactly when they coincide. */
  lemma DistanceSquaredZero(a: Vec2, b: Vec2)
    ensures Dot(Sub(a, b), Sub(a, b)) == 0.0 <==> a == b
  {
    SubZero(a, b);
    DotSelfZero(Sub(a, b));
  }

  lemma LengthSquared(m: MathLib, v: Vec2)
    requires Lawful(m)
    ensures Length(m, v) >= 0.0
    ensures Sq(Length(m, v)) == Dot(v, v)
  {
    DotSelfNonNegative(v);
  }

  /** A vector has length zero exactly when it is the zero vector. */
  lemma LengthZero(m: MathLib, v: Vec2)
    requires Lawful(m)
    ensures Length(m, v) == 0.0 <==> v == Origin
  {
    LengthSquared(m, v);
    DotSelfZero(v);
    if v == Origin {
      SqrtZero(m);
    }
  }

  /** The segment between two points has non-zero length exactly when the points differ. */
  lemma SegmentLengthZero(m: MathLib, a: Vec2, b: Vec2)
    requires Lawful(m)
    ensures Length(m, Sub(b, a)) >= 0.0
    ensures Length(m, Sub(b, a)) == 0.0 <==> a == b
  {
    LengthZero(m, Sub(b, a));
    LengthSquared(m, Sub(b, a));
    SubZero(b, a);
  }

  lemma LengthNeg(m: MathLib, v: Vec2)
    ensures Length(m, Neg(v)) == Length(m, v)
  {
    assert Dot(Neg(v), Neg(v)) == Dot(v, v);
  }

  /** The distance between two points does not depend on their order. */
  lemma LengthSubSymmetric(m: MathLib, a: Vec2, b: Vec2)
    ensures Length(m, Sub(a, b)) == Length(m, Sub(b, a))
  {
    assert Sub(a, b) == Neg(Sub(b, a));
    LengthNeg(m, Sub(b, a));
  }

  /** Scaling a vector scales its length by the absolute value of the factor. */
  lemma LengthScale(m: MathLib, k: real, v: Vec2)
    requires Lawful(m)
    ensures Length(m, Scale(k, v)) == (if k >= 0.0 then k else -k) * Length(m, v)
  {
    var a := if k >= 0.0 then k else -k;
    var l := Length(m, v);
    LengthSquared(m, v);
    assert Dot(Scale(k, v), Scale(k, v)) == Sq(k) * Dot(v, v);
    assert Sq(a * l) == Sq(k) * Sq(l);
    SqrtUnique(m, Dot(Scale(k, v), Scale(k, v)), a * l);
  }

  lemma Length3Embed(m: MathLib, v: Vec2)
    ensures Length3(m, Embed(v)) == Length(m, v)
  {
    assert Dot3(Embed(v), Embed(v)) == Dot(v, v);
  }

  /** Normalize is defined exactly for non-zero vectors, and then yields a unit vector. */
  lemma NormalizeUnit(m: MathLib, v: Vec2)
    requires Lawful(m)
    ensures Normalize(m, v).Some? <==> v != Origin
    ensures Normalize(m, v).Some? ==> Length(m, Normalize(m, v).value) == 1.0
  {
    LengthZero(m, v);
    var l := Length(m, v);
    if l != 0.0 {
      LengthSquared(m, v);
      var k := 1.0 / l;
      assert k >= 0.0;
      LengthScale(m, k, v);
      assert k * l == 1.0;
    }
  }

  lemma Lagrange(a: Vec2, b: Vec2)
    ensures Mul(Dot(a, a), Dot(b, b)) - Sq(Dot(a, b)) == Sq(PerpDot(a, b))
  {
  }

  /** Cauchy-Schwarz in the plane. */
  lemma CauchySchwarz(a: Vec2, b: Vec2)
    ensures Sq(Dot(a, b)) <= Mul(Dot(a, a), Dot(b, b))
  {
    Lagrange(a, b);
  }

  /** A quotient whose square is at most the square of its positive divisor lies in [-1, 1]. */
  lemma QuotientBounded(d: real, n: real)
    requires n > 0.0
    requires Sq(d) <= Sq(n)
    ensures -1.0 <= d / n <= 1.0
  {
    var c := d / n;
    assert Mul(c, n) == d;
    assert Mul(d - n, d + n) == Sq(d) - Sq(n);
    assert Mul(-d - n, n - d) == Sq(d) - Sq(n);
    if c > 1.0 {
      MulPositive(c - 1.0, n);
      MulPositive(d - n, d + n);
    }
    if c < -1.0 {
      MulPositive(-1.0 - c, n);
      MulPositive(-d - n, n - d);
    }
  }

  /** The cosine handed to the arc cosine never leaves [-1, 1]. */
  lemma CosineBounded(m: MathLib, a: Vec2, b: Vec2)
    requires Lawful(m)
    requires Mul(Length(m, a), Length(m, b)) != 0.0
    ensures -1.0 <= Dot(a, b) / Mul(Length(m, a), Length(m, b)) <= 1.0
  {
    var la, lb := Length(m, a), Length(m, b);
    LengthSquared(m, a);
    LengthSquared(m, b);
    var n := Mul(la, lb);
    assert Sq(n) == Mul(Sq(la), Sq(lb));
    assert la != 0.0 && lb != 0.0;
    MulPositive(la, lb);
    CauchySchwarz(a, b);
    QuotientBounded(Dot(a, b), n);
  }

  /** The angle between two vectors does not depend on their order. */
  lemma CalculateAngleSymmetric(m: MathLib, a: Vec3, b: Vec3)
    ensures CalculateAngle(m, a, b) == CalculateAngle(m, b, a)
  {
    assert Dot3(a, b) == Dot3(b, a);
    assert Mul(Length3(m, a), Length3(m, b)) == Mul(Length3(m, b), Length3(m, a));
  }

  lemma AcosOpposite(m: MathLib, c: real)
    requires Lawful(m)
    requires -1.0 <= c <= 1.0
    ensures m.acos(-c) == m.pi - m.acos(c)
  {
  }

  /** Reversing one of two plane vectors turns the angle between them into its supplement. */
  lemma CalculateAngleOpposite(m: MathLib, a: Vec2, b: Vec2)
    requires Lawful(m)
    ensures CalculateAngle(m, Embed(Neg(a)), Embed(b)).Some? <==> CalculateAngle(m, Embed(a), Embed(b)).Some?
    ensures CalculateAngle(m, Embed(a), Embed(b)).Some? ==>
      CalculateAngle(m, Embed(Neg(a)), Embed(b)).value == m.pi - CalculateAngle(m, Embed(a), Embed(b)).value
  {
    Length3Embed(m, a);
    Length3Embed(m, b);
    Length3Embed(m, Neg(a));
    LengthNeg(m, a);
    var n := Mul(Length(m, a), Length(m, b));
    assert Mul(Length3(m, Embed(Neg(a))), Length3(m, Embed(b))) == n;
    assert Mul(Length3(m, Embed(a)), Length3(m, Embed(b))) == n;
    var d := Dot(a, b);
    assert Dot3(Embed(Neg(a)), Embed(b)) == -d;
    assert Dot3(Embed(a), Embed(b)) == d;
    if n != 0.0 {
      CosineBounded(m, a, b);
      assert (-d) / n == -(d / n);
      AcosOpposite(m, d / n);
    }
  }
}
