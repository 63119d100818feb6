/**
 * The geometric value of each kind of landmark measurement, as a function of
 * the coordinates of the landmarks it names. `None` is a value the original
 * computes as NaN (or an infinity): a zero divisor or the arc cosine of an
 * undefined cosine.
 */
module Formulas {
  import opened Wrappers
  import opened Vectors
  import opened Utilities

  /** Which perpendicular of line A a NormalLineAngleMeasurement uses. */
  datatype NormalDirection = Left | Right

  // ---------------------------------------------------------------------
  // Distance and angle

  /** DistanceMeasurement: the length of point1 - point0. */
  function DistanceValue(m: MathLib, point0: Vec2, point1: Vec2): real {
    Length(m, Sub(point1, point0))
  }

  /** An angle in radians converted to degrees. */
  function Degrees(m: MathLib, radians: Option<real>): Option<real> {
    match radians
    case None => None
    case Some(r) => Some(RadiansToDegrees(m, r))
  }

  /** AngleMeasurement: the angle between the directions a1 - a0 and b1 - b0, in degrees. */
  function AngleValue(m: MathLib, a0: Vec2, a1: Vec2, b0: Vec2, b1: Vec2): Option<real> {
    var lineA := Embed(Sub(a1, a0));
    var lineB := Embed(Sub(b1, b0));
    Degrees(m, CalculateAngle(m, lineA, lineB))
  }

  lemma DistanceNonNegative(m: MathLib, point0: Vec2, point1: Vec2)
    requires Lawful(m)
    ensures DistanceValue(m, point0, point1) >= 0.0
  {
    LengthSquared(m, Sub(point1, point0));
  }

  lemma DistanceSymmetric(m: MathLib, point0: Vec2, point1: Vec2)
    ensures DistanceValue(m, point1, point0) == DistanceValue(m, point0, point1)
  {
    LengthSubSymmetric(m, point1, point0);
  }

  /** The distance is zero exactly for equal coordinates. */
  lemma DistanceZero(m: MathLib, point0: Vec2, point1: Vec2)
    requires Lawful(m)
    ensures DistanceValue(m, point0, point1) == 0.0 <==> point0 == point1
  {
    SegmentLengthZero(m, point0, point1);
  }

  /** Moving both points by the same offset keeps their distance. */
  lemma DistanceTranslated(m: MathLib, point0: Vec2, point1: Vec2, offset: Vec2)
    ensures DistanceValue(m, Add(point0, offset), Add(point1, offset)) == DistanceValue(m, point0, point1)
  {
    assert Sub(Add(point1, offset), Add(point0, offset)) == Sub(point1, point0);
  }

  /** Moving all four points by the same offset keeps the angle. */
  lemma AngleTranslated(m: MathLib, a0: Vec2, a1: Vec2, b0: Vec2, b1: Vec2, offset: Vec2)
    ensures AngleValue(m, Add(a0, offset), Add(a1, offset), Add(b0, offset), Add(b1, offset)) == AngleValue(m, a0, a1, b0, b1)
  {
    assert Sub(Add(a1, offset), Add(a0, offset)) == Sub(a1, a0);
    assert Sub(Add(b1, offset), Add(b0, offset)) == Sub(b1, b0);
  }

  /** Exchanging the roles of line A and line B keeps the angle. */
  lemma AngleSymmetric(m: MathLib, a0: Vec2, a1: Vec2, b0: Vec2, b1: Vec2)
    ensures AngleValue(m, b0, b1, a0, a1) == AngleValue(m, a0, a1, b0, b1)
  {
    CalculateAngleSymmetric(m, Embed(Sub(a1, a0)), Embed(Sub(b1, b0)));
  }

  /** The product of two lengths is zero exactly when one of the vectors is zero. */
  lemma LengthProductZero(m: MathLib, u: Vec2, v: Vec2)
    requires Lawful(m)
    ensures Mul(Length(m, u), Length(m, v)) == 0.0 <==> u == Origin || v == Origin
  {
    LengthZero(m, u);
    LengthZero(m, v);
    if Mul(Length(m, u), Length(m, v)) == 0.0 {
      MulZero(Length(m, u), Length(m, v));
    }
  }

  lemma MulNonNegative(a: real, b: real)
    requires a >= 0.0 && b >= 0.0
    ensures Mul(a, b) >= 0.0
  {
    if a > 0.0 && b > 0.0 {
      MulPositive(a, b);
    }
  }

  /** An angle in [0, pi] radians is an angle in [0, 180] degrees. */
  lemma DegreesBounded(m: MathLib, r: real)
    requires Lawful(m)
    requires 0.0 <= r <= m.pi
    ensures 0.0 <= RadiansToDegrees(m, r) <= 180.0
  {
    var k := m.degreesPerRadian;
    assert Mul(-k, m.pi) == -180.0;
    if k < 0.0 {
      MulPositive(-k, m.pi);
    }
    MulNonNegative(r, k);
    MulNonNegative(m.pi - r, k);
    assert Mul(m.pi - r, k) == 180.0 - Mul(r, k);
  }

  /**
   * The angle is defined exactly when neither line is a single point, and then
   * lies between 0 and 180 degrees.
   */
  lemma AngleRange(m: MathLib, a0: Vec2, a1: Vec2, b0: Vec2, b1: Vec2)
    requires Lawful(m)
    ensures AngleValue(m, a0, a1, b0, b1).Some? <==> a0 != a1 && b0 != b1
    ensures AngleValue(m, a0, a1, b0, b1).Some? ==> 0.0 <= AngleValue(m, a0, a1, b0, b1).value <= 180.0
  {
    var u, v := Sub(a1, a0), Sub(b1, b0);
    Length3Embed(m, u);
    Length3Embed(m, v);
    assert Dot3(Embed(u), Embed(v)) == Dot(u, v);
    LengthProductZero(m, u, v);
    SubZero(a1, a0);
    SubZero(b1, b0);
    var n := Mul(Length(m, u), Length(m, v));
    if n != 0.0 {
      CosineBounded(m, u, v);
      DegreesBounded(m, m.acos(Dot(u, v) / n));
    }
  }

  // ---------------------------------------------------------------------
  // Projected distance and displacement

  /** ProjectedDistanceMeasurement: the length between the projections of the two points onto the line. */
  function ProjectedDistanceValue(m: MathLib, line0: Vec2, line1: Vec2, point0: Vec2, point1: Vec2): Option<real> {
    var projection0 :- PointOnLine(point0, line0, line1);
    var projection1 :- PointOnLine(point1, line0, line1);
    Some(Length(m, Sub(projection1, projection0)))
  }

  /**
   * ProjectedDisplacementMeasurement: the offset between the projections of
   * the two points, signed along the direction line0 -> line1.
   */
  function ProjectedDisplacementValue(m: MathLib, line0: Vec2, line1: Vec2, point0: Vec2, point1: Vec2): Option<real> {
    var projection0 :- PointOnLine(point0, line0, line1);
    var projection1 :- PointOnLine(point1, line0, line1);
    var direction :- Normalize(m, Sub(line1, line0));
    ScalarProjection(m, Sub(projection1, projection0), direction)
  }

  /** The projected distance is defined exactly when the line is not vertical, and is never negative. */
  lemma ProjectedDistanceDefined(m: MathLib, line0: Vec2, line1: Vec2, point0: Vec2, point1: Vec2)
    requires Lawful(m)
    ensures ProjectedDistanceValue(m, line0, line1, point0, point1).Some? <==> line0.x != line1.x
    ensures ProjectedDistanceValue(m, line0, line1, point0, point1).Some? ==>
      ProjectedDistanceValue(m, line0, line1, point0, point1).value >= 0.0
  {
    PointOnLineProjects(point0, line0, line1);
    PointOnLineProjects(point1, line0, line1);
    if line0.x != line1.x {
      LengthSquared(m, Sub(PointOnLine(point1, line0, line1).value, PointOnLine(point0, line0, line1).value));
    }
  }

  /** Exchanging the two points keeps the projected distance. */
  lemma ProjectedDistanceSymmetric(m: MathLib, line0: Vec2, line1: Vec2, point0: Vec2, point1: Vec2)
    ensures ProjectedDistanceValue(m, line0, line1, point1, point0) == ProjectedDistanceValue(m, line0, line1, point0, point1)
  {
    var r0, r1 := PointOnLine(point0, line0, line1), PointOnLine(point1, line0, line1);
    if r0.Some? && r1.Some? {
      LengthSubSymmetric(m, r1.value, r0.value);
    }
  }

  /** For two points already on the line the projected distance is their distance. */
  lemma ProjectedDistanceOnLine(m: MathLib, line0: Vec2, line1: Vec2, point0: Vec2, point1: Vec2)
    requires line0.x != line1.x
    requires Collinear(line0, line1, point0) && Collinear(line0, line1, point1)
    ensures ProjectedDistanceValue(m, line0, line1, point0, point1) == Some(DistanceValue(m, point0, point1))
  {
    PointOnLineIdempotent(point0, line0, line1);
    PointOnLineIdempotent(point1, line0, line1);
  }

  /** The projection onto a horizontal line keeps X and takes the line's height. */
  lemma PointOnHorizontalLine(q: Vec2, a: real, b: real, h: real)
    requires a != b
    ensures PointOnLine(q, Vec2(a, h), Vec2(b, h)) == Some(Vec2(q.x, h))
  {
    var l0, l1 := Vec2(a, h), Vec2(b, h);
    PointOnLineProjects(q, l0, l1);
    var r := PointOnLine(q, l0, l1).value;
    assert PerpDot(Sub(l1, l0), Sub(r, l0)) == Mul(b - a, r.y - h);
    MulZero(b - a, r.y - h);
    assert Dot(Sub(q, r), Sub(l1, l0)) == Mul(q.x - r.x, b - a);
    MulZero(q.x - r.x, b - a);
  }

  /** Projected onto a horizontal line, two points are as far apart as their X coordinates. */
  lemma ProjectedDistanceHorizontal(m: MathLib, a: real, b: real, h: real, point0: Vec2, point1: Vec2)
    requires Lawful(m)
    requires a != b
    ensures ProjectedDistanceValue(m, Vec2(a, h), Vec2(b, h), point0, point1) == Some(Abs(point1.x - point0.x))
  {
    PointOnHorizontalLine(point0, a, b, h);
    PointOnHorizontalLine(point1, a, b, h);
    var v := Sub(Vec2(point1.x, h), Vec2(point0.x, h));
    assert Dot(v, v) == Sq(point1.x - point0.x);
    SqrtOfSquare(m, point1.x - point0.x);
  }

  /** (0, 0) and (10, 0) projected onto the line through (0, 5) and (10, 5) lie 10 apart. */
  lemma ProjectedDistanceExample(m: MathLib)
    requires Lawful(m)
    ensures ProjectedDistanceValue(m, Vec2(0.0, 5.0), Vec2(10.0, 5.0), Vec2(0.0, 0.0), Vec2(10.0, 0.0)) == Some(10.0)
  {
    ProjectedDistanceHorizontal(m, 0.0, 10.0, 5.0, Vec2(0.0, 0.0), Vec2(10.0, 0.0));
  }

  lemma SqInjective(a: real, b: real)
    requires a >= 0.0 && b >= 0.0
    requires Sq(a) == Sq(b)
    ensures a == b
  {
    assert Mul(a - b, a + b) == Sq(a) - Sq(b);
    MulZero(a - b, a + b);
  }

  /** The scalar projection onto the normalized direction of d is v.d / |d|. */
  lemma ScalarProjectionNormalized(m: MathLib, v: Vec2, d: Vec2)
    requires Lawful(m)
    requires d != Origin
    ensures Normalize(m, d).Some?
    ensures Length(m, d) != 0.0
    ensures ScalarProjection(m, v, Normalize(m, d).value) == Some(Dot(v, d) / Length(m, d))
  {
    NormalizeUnit(m, d);
    LengthZero(m, d);
    var l := Length(m, d);
    var n := Normalize(m, d).value;
    assert n == Scale(1.0 / l, d);
    assert Dot(v, n) == (1.0 / l) * Dot(v, d);
    ReciprocalScale(Dot(v, d), l);
    assert Length(m, n) == 1.0;
    assert ScalarProjection(m, v, n) == Some(Dot(v, n) / 1.0);
    assert Dot(v, n) == Dot(v, d) / l;
  }

  lemma ReciprocalScale(a: real, l: real)
    requires l != 0.0
    ensures (1.0 / l) * a == a / l
  {
    var c, r := a / l, 1.0 / l;
    assert Mul(c, l) == a;
    assert Mul(r, l) == 1.0;
    assert r * a == Mul(r, Mul(c, l));
    assert Mul(r, Mul(c, l)) == Mul(c, Mul(r, l));
  }

  /** The difference of two points on a line through o along d is parallel to d. */
  lemma PerpDotDifference(d: Vec2, a: Vec2, b: Vec2, o: Vec2)
    ensures PerpDot(Sub(b, a), d) == PerpDot(d, Sub(a, o)) - PerpDot(d, Sub(b, o))
  {
  }

  /** For v parallel to a non-zero d, |v.d| / |d| is the length of v. */
  lemma ParallelLength(m: MathLib, v: Vec2, d: Vec2)
    requires Lawful(m)
    requires d != Origin
    requires PerpDot(v, d) == 0.0
    ensures Length(m, d) > 0.0
    ensures Abs(Dot(v, d)) / Length(m, d) == Length(m, v)
  {
    var lv, ld := Length(m, v), Length(m, d);
    LengthSquared(m, v);
    LengthSquared(m, d);
    LengthZero(m, d);
    Lagrange(v, d);
    assert Sq(Mul(lv, ld)) == Mul(Sq(lv), Sq(ld));
    assert Sq(Abs(Dot(v, d))) == Sq(Dot(v, d));
    MulNonNegative(lv, ld);
    SqInjective(Mul(lv, ld), Abs(Dot(v, d)));
    assert Mul(lv, ld) / ld == lv;
  }

  /** The projected displacement is defined exactly when the line is not vertical. */
  lemma ProjectedDisplacementDefined(m: MathLib, line0: Vec2, line1: Vec2, point0: Vec2, point1: Vec2)
    requires Lawful(m)
    ensures ProjectedDisplacementValue(m, line0, line1, point0, point1).Some? <==> line0.x != line1.x
    ensures line0.x != line1.x ==>
      var d := Sub(line1, line0);
      var v := Sub(PointOnLine(point1, line0, line1).value, PointOnLine(point0, line0, line1).value);
      Length(m, d) != 0.0 &&
      ProjectedDisplacementValue(m, line0, line1, point0, point1).value == Dot(v, d) / Length(m, d)
  {
    PointOnLineProjects(point0, line0, line1);
    PointOnLineProjects(point1, line0, line1);
    if line0.x != line1.x {
      var d := Sub(line1, line0);
      assert d != Origin;
      var v := Sub(PointOnLine(point1, line0, line1).value, PointOnLine(point0, line0, line1).value);
      ScalarProjectionNormalized(m, v, d);
    }
  }

  /** Exchanging the two points negates the projected displacement. */
  lemma ProjectedDisplacementSwapped(m: MathLib, line0: Vec2, line1: Vec2, point0: Vec2, point1: Vec2)
    requires Lawful(m)
    ensures ProjectedDisplacementValue(m, line0, line1, point1, point0).Some? <==>
            ProjectedDisplacementValue(m, line0, line1, point0, point1).Some?
    ensures ProjectedDisplacementValue(m, line0, line1, point0, point1).Some? ==>
      ProjectedDisplacementValue(m, line0, line1, point1, point0).value ==
        -ProjectedDisplacementValue(m, line0, line1, point0, point1).value
  {
    ProjectedDisplacementDefined(m, line0, line1, point0, point1);
    ProjectedDisplacementDefined(m, line0, line1, point1, point0);
    if line0.x != line1.x {
      var d := Sub(line1, line0);
      var r0, r1 := PointOnLine(point0, line0, line1).value, PointOnLine(point1, line0, line1).value;
      var e := Dot(Sub(r1, r0), d);
      DotSubSwap(r0, r1, d);
      assert (-e) / Length(m, d) == -(e / Length(m, d));
    }
  }

  lemma DotSubSwap(a: Vec2, b: Vec2, d: Vec2)
    ensures Dot(Sub(a, b), d) == -Dot(Sub(b, a), d)
  {
  }

  /** The magnitude of the projected displacement is the projected distance. */
  lemma ProjectedDisplacementMagnitude(m: MathLib, line0: Vec2, line1: Vec2, point0: Vec2, point1: Vec2)
    requires Lawful(m)
    ensures ProjectedDisplacementValue(m, line0, line1, point0, point1).Some? <==>
            ProjectedDistanceValue(m, line0, line1, point0, point1).Some?
    ensures ProjectedDisplacementValue(m, line0, line1, point0, point1).Some? ==>
      Abs(ProjectedDisplacementValue(m, line0, line1, point0, point1).value) ==
        ProjectedDistanceValue(m, line0, line1, point0, point1).value
  {
    ProjectedDisplacementDefined(m, line0, line1, point0, point1);
    ProjectedDistanceDefined(m, line0, line1, point0, point1);
    if line0.x != line1.x {
      var d := Sub(line1, line0);
      var r0, r1 := PointOnLine(point0, line0, line1).value, PointOnLine(point1, line0, line1).value;
      PointOnLineProjects(point0, line0, line1);
      PointOnLineProjects(point1, line0, line1);
      var v := Sub(r1, r0);
      PerpDotDifference(d, r0, r1, line0);
      assert d != Origin;
      ParallelLength(m, v, d);
      QuotientByPositive(Dot(v, d), Length(m, d));
    }
  }

  // ---------------------------------------------------------------------
  // Normal-line distance and displacement

  /**
   * NormalLineDistanceMeasurement: the distance of the point from the normal
   * line, which runs from the foot of the normal-line point on the reference
   * line to the normal-line point itself.
   */
  function NormalLineDistanceValue(m: MathLib, line0: Vec2, line1: Vec2, normalLinePoint: Vec2, point: Vec2): Option<real> {
    var normal0 :- PointOnLine(normalLinePoint, line0, line1);
    var normal1 := normalLinePoint;
    PointLineDistance(m, point, normal0, normal1)
  }

  /**
   * NormalLineDisplacementMeasurement: the displacement of the point from the
   * perpendicular erected on the reference line at the foot of the
   * normal-line point.
   */
  function NormalLineDisplacementValue(m: MathLib, line0: Vec2, line1: Vec2, normalLinePoint: Vec2, point: Vec2): Option<real> {
    var normal0 :- PointOnLine(normalLinePoint, line0, line1);
    var normal1 := Add(normal0, PerpendicularRight(Sub(line1, line0)));
    PointLineDisplacement(m, point, normal0, normal1)
  }

  /**
   * The normal-line distance is defined exactly when the reference line is not
   * vertical and the normal-line point is off it; it is never negative.
   */
  lemma NormalLineDistanceDefined(m: MathLib, line0: Vec2, line1: Vec2, normalLinePoint: Vec2, point: Vec2)
    requires Lawful(m)
    ensures NormalLineDistanceValue(m, line0, line1, normalLinePoint, point).Some? <==>
      line0.x != line1.x && !Collinear(line0, line1, normalLinePoint)
    ensures NormalLineDistanceValue(m, line0, line1, normalLinePoint, point).Some? ==>
      NormalLineDistanceValue(m, line0, line1, normalLinePoint, point).value >= 0.0
  {
    PointOnLineProjects(normalLinePoint, line0, line1);
    PointOnLineIdempotent(normalLinePoint, line0, line1);
    if line0.x != line1.x {
      var normal0 := PointOnLine(normalLinePoint, line0, line1).value;
      PointLineDistanceFormula(m, point, normal0, normalLinePoint);
      PointLineDistanceNonNegative(m, point, normal0, normalLinePoint);
    }
  }

  /** The normal-line point itself is at distance zero from the normal line. */
  lemma NormalLineDistanceAtNormalPoint(m: MathLib, line0: Vec2, line1: Vec2, normalLinePoint: Vec2)
    requires Lawful(m)
    requires line0.x != line1.x && !Collinear(line0, line1, normalLinePoint)
    ensures NormalLineDistanceValue(m, line0, line1, normalLinePoint, normalLinePoint) == Some(0.0)
  {
    PointOnLineProjects(normalLinePoint, line0, line1);
    var normal0 := PointOnLine(normalLinePoint, line0, line1).value;
    assert normal0 != normalLinePoint;
    PointLineDistanceAtEndpoint(m, normal0, normalLinePoint);
  }

  /**
   * The direction of the erected normal is the right perpendicular of the
   * reference line: orthogonal to it, as long as it, and non-zero unless the
   * reference line is a single point.
   */
  lemma NormalLineDirection(m: MathLib, line0: Vec2, line1: Vec2, normal0: Vec2)
    requires Lawful(m)
    ensures var d := Sub(line1, line0);
      var e := Sub(Add(normal0, PerpendicularRight(d)), normal0);
      e == PerpendicularRight(d) && Dot(e, d) == 0.0 && Length(m, e) == Length(m, d) &&
      (e == Origin <==> line0 == line1)
  {
    var d := Sub(line1, line0);
    var e := PerpendicularRight(d);
    assert Sub(Add(normal0, e), normal0) == e;
    PerpendicularRightDot(m, d, d);
    SubZero(line1, line0);
  }

  /**
   * The normal-line displacement is defined exactly when the reference line is
   * not vertical, including when the normal-line point lies on it.
   */
  lemma NormalLineDisplacementDefined(m: MathLib, line0: Vec2, line1: Vec2, normalLinePoint: Vec2, point: Vec2)
    requires Lawful(m)
    ensures NormalLineDisplacementValue(m, line0, line1, normalLinePoint, point).Some? <==> line0.x != line1.x
  {
    PointOnLineProjects(normalLinePoint, line0, line1);
    if line0.x != line1.x {
      var normal0 := PointOnLine(normalLinePoint, line0, line1).value;
      var normal1 := Add(normal0, PerpendicularRight(Sub(line1, line0)));
      NormalLineDirection(m, line0, line1, normal0);
      SubZero(normal1, normal0);
      PointLineDisplacementFormula(m, point, normal0, normal1);
    }
  }

  lemma DotDifference(a: Vec2, b: Vec2, c: Vec2, d: Vec2)
    ensures -Dot(Sub(a, b), d) == Dot(Sub(b, c), d) - Dot(Sub(a, c), d)
  {
  }

  lemma PerpDotRightIsNegatedDot(u: Vec2, d: Vec2)
    ensures PerpDot(u, PerpendicularRight(d)) == -Dot(u, d)
  {
  }

  /**
   * The displacement from the erected normal equals the projected displacement
   * from the point to the normal-line point, both measured along the reference line.
   */
  lemma NormalLineDisplacementIsProjected(m: MathLib, line0: Vec2, line1: Vec2, normalLinePoint: Vec2, point: Vec2)
    requires Lawful(m)
    ensures NormalLineDisplacementValue(m, line0, line1, normalLinePoint, point) ==
            ProjectedDisplacementValue(m, line0, line1, point, normalLinePoint)
  {
    NormalLineDisplacementDefined(m, line0, line1, normalLinePoint, point);
    ProjectedDisplacementDefined(m, line0, line1, point, normalLinePoint);
    if line0.x != line1.x {
      var d := Sub(line1, line0);
      var normal0 := PointOnLine(normalLinePoint, line0, line1).value;
      var projection := PointOnLine(point, line0, line1).value;
      var normal1 := Add(normal0, PerpendicularRight(d));
      NormalLineDirection(m, line0, line1, normal0);
      PointLineDisplacementFormula(m, point, normal0, normal1);
      PerpDotRightIsNegatedDot(Sub(point, normal0), d);
      PointOnLineProjects(point, line0, line1);
      DotDifference(point, normal0, projection, d);
    }
  }

  // ---------------------------------------------------------------------
  // Normal-line angle

  /** The chosen perpendicular of line A. */
  function Normal(direction: NormalDirection, a0: Vec2, a1: Vec2): Vec2 {
    if direction == Left then PerpendicularLeft(Sub(a1, a0)) else PerpendicularRight(Sub(a1, a0))
  }

  /**
   * NormalLineAngleMeasurement: the angle, in degrees, between the normal
   * erected at a1 and line B. The original also intersects the normal with
   * line B but never uses the intersection, so it is not computed here.
   */
  function NormalLineAngleValue(m: MathLib, direction: NormalDirection, a0: Vec2, a1: Vec2, b0: Vec2, b1: Vec2): Option<real> {
    var pointNormal := Add(a1, Normal(direction, a0, a1));
    Degrees(m, CalculateAngle(m, Embed(Sub(pointNormal, a1)), Embed(Sub(b1, b0))))
  }

  /**
   * The normal-line angle is the plain angle between the normal erected at a1
   * and line B; it is defined exactly when neither line is a single point, and
   * lies in [0, 180].
   */
  lemma NormalLineAngleRange(m: MathLib, direction: NormalDirection, a0: Vec2, a1: Vec2, b0: Vec2, b1: Vec2)
    requires Lawful(m)
    ensures NormalLineAngleValue(m, direction, a0, a1, b0, b1) ==
            AngleValue(m, a1, Add(a1, Normal(direction, a0, a1)), b0, b1)
    ensures NormalLineAngleValue(m, direction, a0, a1, b0, b1).Some? <==> a0 != a1 && b0 != b1
    ensures NormalLineAngleValue(m, direction, a0, a1, b0, b1).Some? ==>
      0.0 <= NormalLineAngleValue(m, direction, a0, a1, b0, b1).value <= 180.0
  {
    AngleRange(m, a1, Add(a1, Normal(direction, a0, a1)), b0, b1);
    NormalZero(direction, a0, a1);
  }

  /** The erected normal ends where it starts exactly when line A is a single point. */
  lemma NormalZero(direction: NormalDirection, a0: Vec2, a1: Vec2)
    ensures Add(a1, Normal(direction, a0, a1)) == a1 <==> a0 == a1
  {
  }

  /** The left and right normals give supplementary angles. */
  lemma NormalLineAngleSupplementary(m: MathLib, a0: Vec2, a1: Vec2, b0: Vec2, b1: Vec2)
    requires Lawful(m)
    ensures NormalLineAngleValue(m, Left, a0, a1, b0, b1).Some? <==> NormalLineAngleValue(m, Right, a0, a1, b0, b1).Some?
    ensures NormalLineAngleValue(m, Right, a0, a1, b0, b1).Some? ==>
      NormalLineAngleValue(m, Left, a0, a1, b0, b1).value + NormalLineAngleValue(m, Right, a0, a1, b0, b1).value == 180.0
  {
    var right := PerpendicularRight(Sub(a1, a0));
    var left := PerpendicularLeft(Sub(a1, a0));
    assert left == Neg(right);
    assert Sub(Add(a1, right), a1) == right;
    assert Sub(Add(a1, left), a1) == left;
    var b := Sub(b1, b0);
    CalculateAngleOpposite(m, right, b);
    var angle := CalculateAngle(m, Embed(right), Embed(b));
    if angle.Some? {
      var k := m.degreesPerRadian;
      assert (m.pi - angle.value) * k + angle.value * k == m.pi * k;
    }
  }

  // ---------------------------------------------------------------------
  // Normal-line projected displacement

  /**
   * The offset from `origin` to the projection of the target onto line B,
   * signed along the direction b0 -> b1.
   */
  function TargetOffset(m: MathLib, b0: Vec2, b1: Vec2, target: Vec2, origin: Vec2): Option<real> {
    var targetProjection :- PointOnLine(target, b0, b1);
    var direction :- Normalize(m, Sub(b1, b0));
    ScalarProjection(m, Sub(targetProjection, origin), direction)
  }

  /**
   * NormalLineProjectedDisplacementMeasurement: the offset, along line B, of
   * the target's projection from where the normal line (from the foot of the
   * normal point on line A to the normal point) crosses line B; when the two
   * do not cross, the origin (0, 0) stands in for the crossing.
   */
  function NormalLineProjectedDisplacementValue(m: MathLib, a0: Vec2, a1: Vec2, b0: Vec2, b1: Vec2, target: Vec2, normalPoint: Vec2): Option<real> {
    var normal1 := normalPoint;
    var normal0 :- PointOnLine(normal1, a0, a1);
    var intersection := LineIntersection(normal0, normal1, b0, b1).GetValueOrDefault(Origin);
    TargetOffset(m, b0, b1, target, intersection)
  }

  /** The target offset is defined exactly when line B is not vertical, and is then (p - origin).d / |d|. */
  lemma TargetOffsetSigned(m: MathLib, b0: Vec2, b1: Vec2, target: Vec2, origin: Vec2)
    requires Lawful(m)
    ensures TargetOffset(m, b0, b1, target, origin).Some? <==> b0.x != b1.x
    ensures b0.x != b1.x ==>
      var d := Sub(b1, b0);
      var v := Sub(PointOnLine(target, b0, b1).value, origin);
      Length(m, d) != 0.0 && TargetOffset(m, b0, b1, target, origin).value == Dot(v, d) / Length(m, d)
  {
    PointOnLineProjects(target, b0, b1);
    if b0.x != b1.x {
      var d := Sub(b1, b0);
      assert d != Origin;
      ScalarProjectionNormalized(m, Sub(PointOnLine(target, b0, b1).value, origin), d);
    }
  }

  /**
   * The measurement is defined exactly when neither line is vertical. When the
   * normal line crosses line B, the offset is taken from the crossing, which
   * lies on both lines; otherwise it is taken from the origin.
   */
  lemma NormalLineProjectedDisplacementCases(m: MathLib, a0: Vec2, a1: Vec2, b0: Vec2, b1: Vec2, target: Vec2, normalPoint: Vec2)
    requires Lawful(m)
    ensures NormalLineProjectedDisplacementValue(m, a0, a1, b0, b1, target, normalPoint).Some? <==>
      a0.x != a1.x && b0.x != b1.x
    ensures a0.x != a1.x ==>
      var normal0 := PointOnLine(normalPoint, a0, a1).value;
      var crossing := LineIntersection(normal0, normalPoint, b0, b1);
      (crossing.None? ==>
        NormalLineProjectedDisplacementValue(m, a0, a1, b0, b1, target, normalPoint) == TargetOffset(m, b0, b1, target, Origin)) &&
      (crossing.Some? ==>
        Collinear(normal0, normalPoint, crossing.value) && Collinear(b0, b1, crossing.value) &&
        NormalLineProjectedDisplacementValue(m, a0, a1, b0, b1, target, normalPoint) == TargetOffset(m, b0, b1, target, crossing.value))
  {
    PointOnLineProjects(normalPoint, a0, a1);
    if a0.x != a1.x {
      var normal0 := PointOnLine(normalPoint, a0, a1).value;
      LineIntersectionOnBothLines(normal0, normalPoint, b0, b1);
      var origin := LineIntersection(normal0, normalPoint, b0, b1).GetValueOrDefault(Origin);
      TargetOffsetSigned(m, b0, b1, target, origin);
    }
  }

  /**
   * A normal point on line A makes the normal line a single point; it then
   * never crosses line B and the offset is taken from the origin.
   */
  lemma NormalLineProjectedDisplacementOriginFallback(m: MathLib, a0: Vec2, a1: Vec2, b0: Vec2, b1: Vec2, target: Vec2, normalPoint: Vec2)
    requires a0.x != a1.x
    requires Collinear(a0, a1, normalPoint)
    ensures NormalLineProjectedDisplacementValue(m, a0, a1, b0, b1, target, normalPoint) == TargetOffset(m, b0, b1, target, Origin)
  {
    PointOnLineIdempotent(normalPoint, a0, a1);
    assert PerpDot(Sub(normalPoint, normalPoint), Sub(b0, b1)) == 0.0;
  }
}
