/**
 * The planar geometry helpers of OpenOrtho's `Utilities` class: clamping a
 * point against a segment, intersecting two lines, projecting a point onto a
 * line, and the distance and signed displacement of a point from a line.
 *
 * Where the single-precision original divides by zero and produces NaN or an
 * infinity, the operations here return `None`.
 */
module Utilities {
  import opened Wrappers
  import opened Vectors

  // ---------------------------------------------------------------------
  // ClosestOnLine

  /** The two ends of a segment, the one with the smaller X first (the local swap of ClosestOnLine). */
  function OrderByX(line0: Vec2, line1: Vec2): (r: (Vec2, Vec2))
    ensures r.0.x <= r.1.x
    ensures line0.x <= line1.x ==> r == (line0, line1)
    ensures line0.x > line1.x ==> r == (line1, line0)
  {
    if line0.x > line1.x then (line1, line0) else (line0, line1)
  }

  /**
   * The point clamped, by its X coordinate only, against the segment
   * line0-line1: the left end when it lies at or left of it, the right end
   * when it lies right of it, and the point itself otherwise. For a vertical
   * segment the left end is line0, as the ends are swapped only when
   * line0 lies strictly right of line1.
   */
  function ClosestOnLine(point: Vec2, line0: Vec2, line1: Vec2): (r: Vec2)
    ensures r == point || r == line0 || r == line1
    ensures point.x <= line0.x && point.x <= line1.x ==>
      r == OrderByX(line0, line1).0 && r.x <= line0.x && r.x <= line1.x
    ensures point.x > line0.x && point.x > line1.x ==>
      r == OrderByX(line0, line1).1 && r.x >= line0.x && r.x >= line1.x
    ensures (line0.x < point.x <= line1.x || line1.x < point.x <= line0.x) ==> r == point
  {
    var (lo, hi) := OrderByX(line0, line1);
    var diff0 := Sub(point, lo);
    var diff1 := Sub(point, hi);
    if diff0.x > 0.0 then
      if diff1.x > 0.0 then hi else point
    else
      if diff1.x > 0.0 then point else lo
  }

  /** Once the ends are ordered, a point left of the left end is never right of the right end. */
  lemma ClosestOnLineLeftBranchDead(point: Vec2, line0: Vec2, line1: Vec2)
    ensures var (lo, hi) := OrderByX(line0, line1);
      Sub(point, lo).x <= 0.0 ==> Sub(point, hi).x <= 0.0
  {
  }

  /** On a vertical segment a point to the left clamps to line0, one to the right to line1. */
  lemma ClosestOnLineVerticalExample()
    ensures ClosestOnLine(Vec2(-1.0, 2.0), Vec2(0.0, 0.0), Vec2(0.0, 5.0)) == Vec2(0.0, 0.0)
    ensures ClosestOnLine(Vec2(1.0, 2.0), Vec2(0.0, 0.0), Vec2(0.0, 5.0)) == Vec2(0.0, 5.0)
  {
  }

  // ---------------------------------------------------------------------
  // LineIntersection

  /** The determinant that LineIntersection divides by; zero exactly for parallel or degenerate lines. */
  function Divisor(p1: Vec2, p2: Vec2, p3: Vec2, p4: Vec2): real {
    (p1.x - p2.x) * (p3.y - p4.y) - (p1.y - p2.y) * (p3.x - p4.x)
  }

  /** The intersection of the line through p1, p2 with the line through p3, p4, in determinant form. */
  function LineIntersection(p1: Vec2, p2: Vec2, p3: Vec2, p4: Vec2): (r: Option<Vec2>)
    ensures r.None? <==> PerpDot(Sub(p1, p2), Sub(p3, p4)) == 0.0
  {
    var x1_x2 := p1.x - p2.x;
    var x3_x4 := p3.x - p4.x;
    var y1_y2 := p1.y - p2.y;
    var y3_y4 := p3.y - p4.y;
    var x1y2_y1x2 := p1.x * p2.y - p1.y * p2.x;
    var x3y4_y3x4 := p3.x * p4.y - p3.y * p4.x;
    var divisor := Divisor(p1, p2, p3, p4);
    if divisor == 0.0 then None
    else Some(Vec2(
      (x1y2_y1x2 * x3_x4 - x1_x2 * x3y4_y3x4) / divisor,
      (x1y2_y1x2 * y3_y4 - y1_y2 * x3y4_y3x4) / divisor))
  }

  /** Point c lies on the line through a and b. */
  predicate Collinear(a: Vec2, b: Vec2, c: Vec2) {
    PerpDot(Sub(b, a), Sub(c, a)) == 0.0
  }

  /** Cancelling a non-zero factor. */
  lemma MulCancel(a: real, b: real, n: real)
    requires n != 0.0
    requires Mul(a, n) == Mul(b, n)
    ensures a == b
  {
    assert Mul(a - b, n) == Mul(a, n) - Mul(b, n);
    MulZero(a - b, n);
  }

  /**
   * A point whose coordinates are X / D and Y / D lies on the line through a
   * and b when the cross product, scaled by D, vanishes.
   */
  lemma CollinearScaled(a: Vec2, b: Vec2, xn: real, yn: real, d: real)
    requires d != 0.0
    requires Mul(b.x - a.x, yn - a.y * d) - Mul(b.y - a.y, xn - a.x * d) == 0.0
    ensures Collinear(a, b, Vec2(xn / d, yn / d))
  {
    var x, y := xn / d, yn / d;
    var e := PerpDot(Sub(b, a), Sub(Vec2(x, y), a));
    assert Mul(x, d) == xn;
    assert Mul(y, d) == yn;
    assert Mul(y - a.y, d) == yn - a.y * d;
    assert Mul(x - a.x, d) == xn - a.x * d;
    assert Mul(e, d) == Mul(b.x - a.x, Mul(y - a.y, d)) - Mul(b.y - a.y, Mul(x - a.x, d));
    MulCancel(e, 0.0, d);
  }

  /** A computed intersection lies on both lines. */
  lemma LineIntersectionOnBothLines(p1: Vec2, p2: Vec2, p3: Vec2, p4: Vec2)
    ensures LineIntersection(p1, p2, p3, p4).Some? ==>
      var r := LineIntersection(p1, p2, p3, p4).value;
      Collinear(p1, p2, r) && Collinear(p3, p4, r)
  {
    var d := Divisor(p1, p2, p3, p4);
    if d != 0.0 {
      var (xn, yn) := Numerators(p1, p2, p3, p4);
      LineIntersectionByNumerators(p1, p2, p3, p4);
      NumeratorsOnFirstLine(p1, p2, p3, p4);
      NumeratorsOnSecondLine(p1, p2, p3, p4);
      CollinearScaled(p1, p2, xn, yn, d);
      CollinearScaled(p3, p4, xn, yn, d);
    }
  }

  lemma NumeratorsOnFirstLine(p1: Vec2, p2: Vec2, p3: Vec2, p4: Vec2)
    ensures var d, (xn, yn) := Divisor(p1, p2, p3, p4), Numerators(p1, p2, p3, p4);
      Mul(p2.x - p1.x, yn - p1.y * d) - Mul(p2.y - p1.y, xn - p1.x * d) == 0.0
  {
  }

  lemma NumeratorsOnSecondLine(p1: Vec2, p2: Vec2, p3: Vec2, p4: Vec2)
    ensures var d, (xn, yn) := Divisor(p1, p2, p3, p4), Numerators(p1, p2, p3, p4);
      Mul(p4.x - p3.x, yn - p3.y * d) - Mul(p4.y - p3.y, xn - p3.x * d) == 0.0
  {
  }

  /** Two parallel horizontal lines have no intersection. */
  lemma LineIntersectionParallelExample()
    ensures LineIntersection(Vec2(0.0, 0.0), Vec2(1.0, 0.0), Vec2(0.0, 1.0), Vec2(1.0, 1.0)) == None
  {
  }

  /** The numerators of LineIntersection's coordinates, scaled by the divisor. */
  function Numerators(p1: Vec2, p2: Vec2, p3: Vec2, p4: Vec2): (real, real) {
    var a := p1.x * p2.y - p1.y * p2.x;
    var b := p3.x * p4.y - p3.y * p4.x;
    (a * (p3.x - p4.x) - (p1.x - p2.x) * b, a * (p3.y - p4.y) - (p1.y - p2.y) * b)
  }

  lemma LineIntersectionByNumerators(p1: Vec2, p2: Vec2, p3: Vec2, p4: Vec2)
    ensures var d := Divisor(p1, p2, p3, p4);
      var (xn, yn) := Numerators(p1, p2, p3, p4);
      LineIntersection(p1, p2, p3, p4) == if d == 0.0 then None else Some(Vec2(xn / d, yn / d))
  {
  }

  /** Negating the divisor and both numerators leaves the intersection unchanged. */
  lemma SameIntersection(p1: Vec2, p2: Vec2, p3: Vec2, p4: Vec2, q1: Vec2, q2: Vec2, q3: Vec2, q4: Vec2)
    requires Divisor(q1, q2, q3, q4) == -Divisor(p1, p2, p3, p4)
    requires Numerators(q1, q2, q3, q4).0 == -Numerators(p1, p2, p3, p4).0
    requires Numerators(q1, q2, q3, q4).1 == -Numerators(p1, p2, p3, p4).1
    ensures LineIntersection(q1, q2, q3, q4) == LineIntersection(p1, p2, p3, p4)
  {
    LineIntersectionByNumerators(p1, p2, p3, p4);
    LineIntersectionByNumerators(q1, q2, q3, q4);
    var d := Divisor(p1, p2, p3, p4);
    if d != 0.0 {
      NegatedQuotient(Numerators(p1, p2, p3, p4).0, d);
      NegatedQuotient(Numerators(p1, p2, p3, p4).1, d);
    }
  }

  /** Exchanging the two lines, or the two points of one line, does not change the intersection. */
  lemma LineIntersectionSymmetric(p1: Vec2, p2: Vec2, p3: Vec2, p4: Vec2)
    ensures LineIntersection(p3, p4, p1, p2) == LineIntersection(p1, p2, p3, p4)
    ensures LineIntersection(p2, p1, p3, p4) == LineIntersection(p1, p2, p3, p4)
    ensures LineIntersection(p1, p2, p4, p3) == LineIntersection(p1, p2, p3, p4)
  {
    SameIntersection(p1, p2, p3, p4, p3, p4, p1, p2);
    SameIntersection(p1, p2, p3, p4, p2, p1, p3, p4);
    SameIntersection(p1, p2, p3, p4, p1, p2, p4, p3);
  }

  lemma NegatedQuotient(n: real, d: real)
    requires d != 0.0
    ensures (-n) / (-d) == n / d
  {
  }

  // ---------------------------------------------------------------------
  // PointOnLine

  /**
   * The foot of the perpendicular from q onto the line through p0 and p1,
   * computed as the original does: it divides by p1.X - p0.X, so a vertical
   * line gives no result.
   */
  function PointOnLine(q: Vec2, p0: Vec2, p1: Vec2): Option<Vec2> {
    var line := Sub(p1, p0);
    var lineX := line.x;
    var lineY := line.y;
    if lineX == 0.0 then None
    else
      DotSelfZero(line);
      var y := (lineX / Dot(line, line)) * (p0.y * lineX + lineY * (q.x - p0.x + q.y * (lineY / lineX)));
      var x := (q.x * lineX + q.y * lineY - y * lineY) / lineX;
      Some(Vec2(x, y))
  }

  /** The textbook orthogonal projection p0 + t (p1 - p0), with t = (q - p0).(p1 - p0) / |p1 - p0|^2. */
  function Projection(q: Vec2, p0: Vec2, p1: Vec2): Vec2
    requires p0 != p1
  {
    Add(p0, Scale(ProjectionParameter(q, p0, p1), Sub(p1, p0)))
  }

  /** The y coordinate computed by PointOnLine, rearranged. */
  lemma PointOnLineY(a: real, b: real, n: real, u: real, w: real, p0y: real, qy: real, t: real)
    requires a != 0.0 && n == a * a + b * b && n != 0.0
    requires Mul(t, n) == u * a + w * b
    requires qy == p0y + w
    ensures (a / n) * (p0y * a + b * (u + qy * (b / a))) == p0y + t * b
  {
    var k := b / a;
    var s := a / n;
    var p1 := p0y * a + b * u;
    var p := p1 + b * qy * k;
    var y := s * p;
    assert Mul(k, a) == b;
    assert Mul(s, n) == a;
    assert Mul(y, n) == Mul(Mul(s, n), p);
    assert Mul(a, p) == Mul(a, p1) + Mul(b * qy, Mul(k, a));
    var lhs := p0y * (a * a) + b * (u * a) + (b * b) * qy;
    assert Mul(y, n) == lhs;
    assert Mul(p0y + t * b, n) == p0y * n + b * Mul(t, n);
    assert p0y * n + b * Mul(t, n) == lhs;
    MulCancel(y, p0y + t * b, n);
  }

  /** The x coordinate computed by PointOnLine, rearranged. */
  lemma PointOnLineX(a: real, b: real, n: real, u: real, w: real, p0x: real, qx: real, qy: real, p0y: real, t: real, y: real, x: real)
    requires a != 0.0 && n == a * a + b * b
    requires Mul(t, n) == u * a + w * b
    requires qx == p0x + u && qy == p0y + w
    requires y == p0y + t * b
    requires x == (qx * a + qy * b - y * b) / a
    ensures x == p0x + t * a
  {
    var sum := qx * a + qy * b - y * b;
    assert Mul(x, a) == sum;
    assert sum == p0x * a + (u * a + w * b) - t * (b * b);
    assert Mul(t, n) == t * (a * a) + t * (b * b);
    assert Mul(p0x + t * a, a) == p0x * a + t * (a * a);
    MulCancel(x, p0x + t * a, a);
  }

  /** The projection parameter t of q onto the line through p0 and p1. */
  function ProjectionParameter(q: Vec2, p0: Vec2, p1: Vec2): (t: real)
    requires p0 != p1
    ensures Mul(t, Dot(Sub(p1, p0), Sub(p1, p0))) == Dot(Sub(q, p0), Sub(p1, p0))
  {
    DistanceSquaredZero(p1, p0);
    Dot(Sub(q, p0), Sub(p1, p0)) / Dot(Sub(p1, p0), Sub(p1, p0))
  }

  lemma PointOnLineYIsProjection(q: Vec2, p0: Vec2, p1: Vec2, t: real)
    requires p0.x != p1.x
    requires Mul(t, Dot(Sub(p1, p0), Sub(p1, p0))) == Dot(Sub(q, p0), Sub(p1, p0))
    ensures PointOnLine(q, p0, p1).Some?
    ensures PointOnLine(q, p0, p1).value.y == p0.y + t * Sub(p1, p0).y
  {
    var d := Sub(p1, p0);
    DotSelfZero(d);
    PointOnLineY(d.x, d.y, Dot(d, d), q.x - p0.x, q.y - p0.y, p0.y, q.y, t);
  }

  /** PointOnLine's x coordinate in terms of its y coordinate. */
  lemma PointOnLineXFromY(q: Vec2, p0: Vec2, p1: Vec2)
    requires p0.x != p1.x
    ensures PointOnLine(q, p0, p1).Some?
    ensures var d, r := Sub(p1, p0), PointOnLine(q, p0, p1).value;
      r.x == (q.x * d.x + q.y * d.y - r.y * d.y) / d.x
  {
  }

  lemma PointOnLineXIsProjection(q: Vec2, p0: Vec2, p1: Vec2, t: real)
    requires p0.x != p1.x
    requires Mul(t, Dot(Sub(p1, p0), Sub(p1, p0))) == Dot(Sub(q, p0), Sub(p1, p0))
    ensures PointOnLine(q, p0, p1).Some?
    ensures PointOnLine(q, p0, p1).value.x == p0.x + t * Sub(p1, p0).x
  {
    var d := Sub(p1, p0);
    PointOnLineYIsProjection(q, p0, p1, t);
    PointOnLineXFromY(q, p0, p1);
    var r := PointOnLine(q, p0, p1).value;
    PointOnLineXOf(q, p0, p1, t, r);
  }

  lemma PointOnLineXOf(q: Vec2, p0: Vec2, p1: Vec2, t: real, r: Vec2)
    requires p0.x != p1.x
    requires Mul(t, Dot(Sub(p1, p0), Sub(p1, p0))) == Dot(Sub(q, p0), Sub(p1, p0))
    requires r.y == p0.y + t * Sub(p1, p0).y
    requires r.x == (q.x * Sub(p1, p0).x + q.y * Sub(p1, p0).y - r.y * Sub(p1, p0).y) / Sub(p1, p0).x
    ensures r.x == p0.x + t * Sub(p1, p0).x
  {
    var d := Sub(p1, p0);
    PointOnLineX(d.x, d.y, Dot(d, d), q.x - p0.x, q.y - p0.y, p0.x, q.x, q.y, p0.y, t, r.y, r.x);
  }

  /** Where PointOnLine is defined it computes the textbook projection. */
  lemma PointOnLineIsProjection(q: Vec2, p0: Vec2, p1: Vec2)
    ensures PointOnLine(q, p0, p1).Some? <==> p0.x != p1.x
    ensures p0.x != p1.x ==> PointOnLine(q, p0, p1) == Some(Projection(q, p0, p1))
  {
    if p0.x != p1.x {
      var t := ProjectionParameter(q, p0, p1);
      PointOnLineXIsProjection(q, p0, p1, t);
      PointOnLineYIsProjection(q, p0, p1, t);
      var d := Sub(p1, p0);
      var r := PointOnLine(q, p0, p1).value;
      assert r == Vec2(p0.x + t * d.x, p0.y + t * d.y);
      assert Projection(q, p0, p1) == Vec2(p0.x + t * d.x, p0.y + t * d.y);
    }
  }

  /** The projection lies on the line. */
  lemma ProjectionOnLine(q: Vec2, p0: Vec2, p1: Vec2)
    requires p0 != p1
    ensures Collinear(p0, p1, Projection(q, p0, p1))
  {
    var d, t := Sub(p1, p0), ProjectionParameter(q, p0, p1);
    assert Sub(Projection(q, p0, p1), p0) == Scale(t, d);
  }

  /** The offset from the projection to q is perpendicular to the line. */
  lemma ProjectionPerpendicular(q: Vec2, p0: Vec2, p1: Vec2)
    requires p0 != p1
    ensures Dot(Sub(q, Projection(q, p0, p1)), Sub(p1, p0)) == 0.0
  {
    var d, t := Sub(p1, p0), ProjectionParameter(q, p0, p1);
    assert Sub(q, Projection(q, p0, p1)) == Sub(Sub(q, p0), Scale(t, d));
    assert Dot(Sub(Sub(q, p0), Scale(t, d)), d) == Dot(Sub(q, p0), d) - Mul(t, Dot(d, d));
  }

  /** A point already on the line is its own projection. */
  lemma ProjectionFixesLinePoints(q: Vec2, p0: Vec2, p1: Vec2)
    requires p0 != p1
    requires Collinear(p0, p1, q)
    ensures Projection(q, p0, p1) == q
  {
    var d, t, v := Sub(p1, p0), ProjectionParameter(q, p0, p1), Sub(q, p0);
    var n := Dot(d, d);
    DistanceSquaredZero(p1, p0);
    assert PerpDot(d, v) == 0.0;
    assert Mul(t * d.x, n) == d.x * Mul(t, n);
    assert Mul(t * d.x, n) - Mul(v.x, n) == d.y * PerpDot(d, v);
    MulCancel(t * d.x, v.x, n);
    assert Mul(t * d.y, n) == d.y * Mul(t, n);
    assert Mul(t * d.y, n) - Mul(v.y, n) == -d.x * PerpDot(d, v);
    MulCancel(t * d.y, v.y, n);
  }

  /**
   * PointOnLine is defined exactly when the line is not vertical; its result
   * then lies on the line, and q minus the result is perpendicular to it.
   */
  lemma PointOnLineProjects(q: Vec2, p0: Vec2, p1: Vec2)
    ensures PointOnLine(q, p0, p1).Some? <==> p0.x != p1.x
    ensures PointOnLine(q, p0, p1).Some? ==>
      var r := PointOnLine(q, p0, p1).value;
      Collinear(p0, p1, r) && Dot(Sub(q, r), Sub(p1, p0)) == 0.0
  {
    PointOnLineIsProjection(q, p0, p1);
    if p0.x != p1.x {
      ProjectionOnLine(q, p0, p1);
      ProjectionPerpendicular(q, p0, p1);
    }
  }

  /** A point on the line is returned unchanged, so projecting twice equals projecting once. */
  lemma PointOnLineIdempotent(q: Vec2, p0: Vec2, p1: Vec2)
    ensures p0.x != p1.x && Collinear(p0, p1, q) ==> PointOnLine(q, p0, p1) == Some(q)
    ensures PointOnLine(q, p0, p1).Some? ==>
      var r := PointOnLine(q, p0, p1).value;
      PointOnLine(r, p0, p1) == Some(r)
  {
    PointOnLineIsProjection(q, p0, p1);
    if p0.x != p1.x {
      var r := PointOnLine(q, p0, p1).value;
      ProjectionOnLine(q, p0, p1);
      PointOnLineIsProjection(r, p0, p1);
      ProjectionFixesLinePoints(r, p0, p1);
      if Collinear(p0, p1, q) {
        ProjectionFixesLinePoints(q, p0, p1);
      }
    }
  }

  // ---------------------------------------------------------------------
  // PointLineDistance

  /** The distance from a point to the line through line0 and line1: |(p - l0) x (p - l1)| / |l1 - l0|. */
  function PointLineDistance3(m: MathLib, point: Vec3, line0: Vec3, line1: Vec3): Option<real> {
    var base := Length3(m, Sub3(line1, line0));
    if base == 0.0 then None
    else Some(Length3(m, Cross3(Sub3(point, line0), Sub3(point, line1))) / base)
  }

  /** The plane overload: the three-dimensional distance of the points placed in the z = 0 plane. */
  function PointLineDistance(m: MathLib, point: Vec2, line0: Vec2, line1: Vec2): Option<real> {
    PointLineDistance3(m, Embed(point), Embed(line0), Embed(line1))
  }

  /** The plane distance in closed form: |(p - l0) x (p - l1)| / |l1 - l0|, defined unless l0 = l1. */
  lemma PointLineDistanceFormula(m: MathLib, point: Vec2, line0: Vec2, line1: Vec2)
    requires Lawful(m)
    ensures PointLineDistance(m, point, line0, line1).Some? <==> line0 != line1
    ensures PointLineDistance(m, point, line0, line1).Some? ==>
      Length(m, Sub(line1, line0)) != 0.0 &&
      PointLineDistance(m, point, line0, line1).value ==
        Abs(PerpDot(Sub(point, line0), Sub(point, line1))) / Length(m, Sub(line1, line0))
  {
    var d := Sub(line1, line0);
    assert Sub3(Embed(line1), Embed(line0)) == Embed(d);
    Length3Embed(m, d);
    LengthZero(m, d);
    SubZero(line1, line0);
    var c := Cross3(Sub3(Embed(point), Embed(line0)), Sub3(Embed(point), Embed(line1)));
    var z := PerpDot(Sub(point, line0), Sub(point, line1));
    assert c == Vec3(0.0, 0.0, z);
    assert Dot3(c, c) == Sq(z);
    SqrtOfSquare(m, z);
  }

  /** The distance is never negative. */
  lemma PointLineDistanceNonNegative(m: MathLib, point: Vec2, line0: Vec2, line1: Vec2)
    requires Lawful(m)
    ensures PointLineDistance(m, point, line0, line1).Some? ==> PointLineDistance(m, point, line0, line1).value >= 0.0
  {
    PointLineDistanceFormula(m, point, line0, line1);
    if line0 != line1 {
      var d := Sub(line1, line0);
      LengthZero(m, d);
      LengthSquared(m, d);
      SubZero(line1, line0);
      QuotientByPositive(PerpDot(Sub(point, line0), Sub(point, line1)), Length(m, d));
    }
  }

  /** Exchanging the two points of the line leaves the distance unchanged. */
  lemma PointLineDistanceSymmetric(m: MathLib, point: Vec2, line0: Vec2, line1: Vec2)
    requires Lawful(m)
    ensures PointLineDistance(m, point, line1, line0) == PointLineDistance(m, point, line0, line1)
  {
    PointLineDistanceFormula(m, point, line0, line1);
    PointLineDistanceFormula(m, point, line1, line0);
    assert PerpDot(Sub(point, line1), Sub(point, line0)) == -PerpDot(Sub(point, line0), Sub(point, line1));
    LengthSubSymmetric(m, line1, line0);
  }

  /** A point at either end of the line is at distance zero from it. */
  lemma PointLineDistanceAtEndpoint(m: MathLib, line0: Vec2, line1: Vec2)
    requires Lawful(m)
    requires line0 != line1
    ensures PointLineDistance(m, line0, line0, line1) == Some(0.0)
    ensures PointLineDistance(m, line1, line0, line1) == Some(0.0)
  {
    PointLineDistanceFormula(m, line0, line0, line1);
    PointLineDistanceFormula(m, line1, line0, line1);
    assert PerpDot(Sub(line0, line0), Sub(line0, line1)) == 0.0;
    assert PerpDot(Sub(line1, line0), Sub(line1, line1)) == 0.0;
  }

  lemma ScaledQuotient(a: real, k: real)
    requires k > 0.0
    ensures Abs(Mul(a, k)) / k == Abs(a)
  {
    QuotientByPositive(Mul(a, k), k);
    assert Mul(a, k) / k == a;
  }

  /** The distance to a horizontal line is the difference of heights. */
  lemma PointLineDistanceHorizontal(m: MathLib, point: Vec2, a: real, b: real, h: real)
    requires Lawful(m)
    requires a < b
    ensures PointLineDistance(m, point, Vec2(a, h), Vec2(b, h)) == Some(Abs(point.y - h))
  {
    var l0, l1 := Vec2(a, h), Vec2(b, h);
    PointLineDistanceFormula(m, point, l0, l1);
    var n := PerpDot(Sub(point, l0), Sub(point, l1));
    assert n == Mul(point.y - h, b - a);
    var d := Sub(l1, l0);
    assert Dot(d, d) == Sq(b - a);
    SqrtUnique(m, Sq(b - a), b - a);
    ScaledQuotient(point.y - h, b - a);
  }

  /** The origin lies 5 from the line through (0, 5) and (10, 5). */
  lemma PointLineDistanceExample(m: MathLib)
    requires Lawful(m)
    ensures PointLineDistance(m, Vec2(0.0, 0.0), Vec2(0.0, 5.0), Vec2(10.0, 5.0)) == Some(5.0)
  {
    var origin := Vec2(0.0, 0.0);
    PointLineDistanceHorizontal(m, origin, 0.0, 10.0, 5.0);
    assert Abs(origin.y - 5.0) == 5.0;
  }

  // ---------------------------------------------------------------------
  // ScalarProjection and PointLineDisplacement

  /** The signed length of v along a: v.a / |a|. */
  function ScalarProjection(m: MathLib, v: Vec2, a: Vec2): Option<real> {
    var l := Length(m, a);
    if l == 0.0 then None else Some(Dot(v, a) / l)
  }

  /**
   * The signed distance from a point to the line through line0 and line1:
   * the scalar projection of point - line0 on the right perpendicular of the
   * line's direction.
   */
  function PointLineDisplacement(m: MathLib, point: Vec2, line0: Vec2, line1: Vec2): Option<real> {
    ScalarProjection(m, Sub(point, line0), PerpendicularRight(Sub(line1, line0)))
  }

  lemma PerpendicularRightDot(m: MathLib, u: Vec2, d: Vec2)
    ensures Length(m, PerpendicularRight(d)) == Length(m, d)
    ensures Dot(u, PerpendicularRight(d)) == PerpDot(u, d)
  {
  }

  /** The displacement in closed form: (p - l0) x (l1 - l0) / |l1 - l0|, defined unless l0 = l1. */
  lemma PointLineDisplacementFormula(m: MathLib, point: Vec2, line0: Vec2, line1: Vec2)
    requires Lawful(m)
    ensures PointLineDisplacement(m, point, line0, line1).Some? <==> line0 != line1
    ensures PointLineDisplacement(m, point, line0, line1).Some? ==>
      Length(m, Sub(line1, line0)) != 0.0 &&
      PointLineDisplacement(m, point, line0, line1).value ==
        PerpDot(Sub(point, line0), Sub(line1, line0)) / Length(m, Sub(line1, line0))
  {
    var u, d := Sub(point, line0), Sub(line1, line0);
    PerpendicularRightDot(m, u, d);
    SegmentLengthZero(m, line0, line1);
    var r := PointLineDisplacement(m, point, line0, line1);
    assert r == ScalarProjection(m, u, PerpendicularRight(d));
    if line0 != line1 {
      assert r.value == Dot(u, PerpendicularRight(d)) / Length(m, PerpendicularRight(d));
    }
  }

  /** Exchanging the two points of the line flips the sign of the displacement. */
  lemma PointLineDisplacementAntisymmetric(m: MathLib, point: Vec2, line0: Vec2, line1: Vec2)
    requires Lawful(m)
    ensures PointLineDisplacement(m, point, line1, line0).Some? <==> PointLineDisplacement(m, point, line0, line1).Some?
    ensures PointLineDisplacement(m, point, line0, line1).Some? ==>
      PointLineDisplacement(m, point, line1, line0).value == -PointLineDisplacement(m, point, line0, line1).value
  {
    PointLineDisplacementFormula(m, point, line0, line1);
    PointLineDisplacementFormula(m, point, line1, line0);
    if line0 != line1 {
      var l := Length(m, Sub(line1, line0));
      LengthSubSymmetric(m, line0, line1);
      var e := PerpDot(Sub(point, line0), Sub(line1, line0));
      assert PerpDot(Sub(point, line1), Sub(line0, line1)) == -e;
      assert (-e) / l == -(e / l);
    }
  }

  /** The magnitude of the displacement is the distance. */
  lemma DisplacementMagnitudeIsDistance(m: MathLib, point: Vec2, line0: Vec2, line1: Vec2)
    requires Lawful(m)
    ensures PointLineDisplacement(m, point, line0, line1).Some? <==> PointLineDistance(m, point, line0, line1).Some?
    ensures PointLineDisplacement(m, point, line0, line1).Some? ==>
      Abs(PointLineDisplacement(m, point, line0, line1).value) == PointLineDistance(m, point, line0, line1).value
  {
    PointLineDisplacementFormula(m, point, line0, line1);
    PointLineDistanceFormula(m, point, line0, line1);
    if line0 != line1 {
      var d := Sub(line1, line0);
      LengthZero(m, d);
      LengthSquared(m, d);
      SubZero(line1, line0);
      var e := PerpDot(Sub(point, line0), d);
      assert PerpDot(Sub(point, line0), Sub(point, line1)) == -e;
      assert Abs(-e) == Abs(e);
      QuotientByPositive(e, Length(m, d));
    }
  }
}
