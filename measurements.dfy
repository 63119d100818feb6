/**
 * The measurement engine: the closed family of `CephalometricMeasurement`
 * subclasses as one datatype, the value each computes from the landmark and
 * measurement collections, and the accumulator loop of the angle-sum
 * variants.
 *
 * A measurement's value is a `Result`. The errors split into faults, which
 * the original raises as exceptions (an unknown landmark or measurement
 * name, and unbounded recursion through measurements that refer to each
 * other), and undefined values, which the original computes as NaN (a
 * landmark without a coordinate, a zero divisor).
 */
module Measurements {
  import opened Wrappers
  import opened Vectors
  import opened Utilities
  import opened Keyed
  import opened Points
  import opened Formulas

  datatype Error =
    | UnknownPoint(name: string)        // KeyNotFoundException from the landmark collection
    | UnknownMeasurement(name: string)  // KeyNotFoundException from the measurement collection
    | CyclicReference(name: string)     // a reference chain deeper than the fuel: stack overflow
    | Unmeasured(name: string)          // the landmark still holds the (NaN, NaN) sentinel
    | Degenerate                        // a zero divisor in the geometry
  {
    /** The error ends the computation as an exception would. */
    predicate IsFault() {
      UnknownPoint? || UnknownMeasurement? || CyclicReference?
    }
  }

  /** The subclasses of CephalometricMeasurement, each with the names it refers to. */
  datatype Variant =
    | Distance(point0: string, point1: string)
    | Angle(pointA0: string, pointA1: string, pointB0: string, pointB1: string)
    | LineDistance(point: string, line0: string, line1: string)
    | LineDisplacement(point: string, line0: string, line1: string)
    | ProjectedDistance(point0: string, point1: string, line0: string, line1: string)
    | ProjectedDisplacement(point0: string, point1: string, line0: string, line1: string)
    | NormalLineDistance(point: string, normalLinePoint: string, line0: string, line1: string)
    | NormalLineDisplacement(point: string, normalLinePoint: string, line0: string, line1: string)
    | NormalLineAngle(lineA0: string, lineA1: string, lineB0: string, lineB1: string, normalDirection: NormalDirection)
    | NormalLineProjectedDisplacement(normalPoint: string, targetPoint: string, lineA0: string, lineA1: string, lineB0: string, lineB1: string)
    | AngleSum(angles: seq<string>)
    | ConjugateAngle(angles: seq<string>)
  {
    /** The variants whose value is built from other measurements. */
    predicate IsComposite() {
      AngleSum? || ConjugateAngle?
    }

    /** The fixed `Units` of each variant. */
    function Units(): (r: string)
      ensures r == "mm" || r == "deg"
      ensures r == "deg" <==> Angle? || NormalLineAngle? || IsComposite()
    {
      match this
      case Angle(_, _, _, _) => "deg"
      case NormalLineAngle(_, _, _, _, _) => "deg"
      case AngleSum(_) => "deg"
      case ConjugateAngle(_) => "deg"
      case _ => "mm"
    }

    /** The landmark names a variant reads, in the order the original looks them up. */
    function PointNames(): seq<string>
      requires !IsComposite()
    {
      match this
      case Distance(point0, point1) => [point1, point0]
      case Angle(a0, a1, b0, b1) => [a1, a0, b1, b0]
      case LineDistance(point, line0, line1) => [point, line0, line1]
      case LineDisplacement(point, line0, line1) => [point, line0, line1]
      case ProjectedDistance(point0, point1, line0, line1) => [point0, line0, line1, point1, line0, line1]
      case ProjectedDisplacement(point0, point1, line0, line1) => [line0, line1, point0, point1]
      case NormalLineDistance(point, normalLinePoint, line0, line1) => [normalLinePoint, line0, line1, normalLinePoint, point]
      case NormalLineDisplacement(point, normalLinePoint, line0, line1) => [line0, line1, normalLinePoint, point]
      case NormalLineAngle(a0, a1, b0, b1, _) => [a0, a1, b0, b1]
      case NormalLineProjectedDisplacement(normalPoint, targetPoint, a0, a1, b0, b1) => [a0, a1, b0, b1, targetPoint, normalPoint]
    }
  }

  /** What a composite measurement reads from the measurement collection. */
  type MeasurementTable = seq<Entry<Variant>>

  // ---------------------------------------------------------------------
  // Landmark lookups

  /** Looks the names up in order; the first unknown name is a fault. */
  function Resolve(points: PointTable, names: seq<string>): (r: Result<seq<Option<Vec2>>, Error>)
    ensures r.Ok? <==> forall i :: 0 <= i < |names| ==> Find(points, names[i]).Some?
    ensures r.Ok? ==> |r.value| == |names| && forall i :: 0 <= i < |names| ==> Find(points, names[i]) == Some(r.value[i])
    ensures r.Err? ==> r.error.UnknownPoint? && r.error.name in names && Find(points, r.error.name).None?
  {
    if |names| == 0 then Ok([])
    else
      var last := names[|names| - 1];
      var known :- Resolve(points, names[..|names| - 1]);
      match Find(points, last)
      case None => Err(UnknownPoint(last))
      case Some(c) => Ok(known + [c])
  }

  /** The first landmark still holding the NaN sentinel makes the value undefined. */
  function AllMeasured(names: seq<string>, coordinates: seq<Option<Vec2>>): (r: Result<seq<Vec2>, Error>)
    requires |names| == |coordinates|
    ensures r.Ok? <==> forall i :: 0 <= i < |coordinates| ==> coordinates[i].Some?
    ensures r.Ok? ==> |r.value| == |coordinates| && forall i :: 0 <= i < |coordinates| ==> coordinates[i] == Some(r.value[i])
    ensures r.Err? ==> exists i :: 0 <= i < |names| && coordinates[i].None? && r.error == Unmeasured(names[i])
  {
    if |names| == 0 then Ok([])
    else
      var n := |names| - 1;
      var measured :- AllMeasured(names[..n], coordinates[..n]);
      match coordinates[n]
      case None => Err(Unmeasured(names[n]))
      case Some(c) => Ok(measured + [c])
  }

  /**
   * The coordinates of the named landmarks. An unknown name anywhere is a
   * fault, which takes precedence over a landmark without a coordinate.
   */
  function Coordinates(points: PointTable, names: seq<string>): (r: Result<seq<Vec2>, Error>)
    ensures r.Ok? <==> forall i :: 0 <= i < |names| ==> Find(points, names[i]).Some? && Find(points, names[i]).value.Some?
    ensures r.Ok? ==> |r.value| == |names| && forall i :: 0 <= i < |names| ==> Find(points, names[i]) == Some(Some(r.value[i]))
    ensures (exists i :: 0 <= i < |names| && Find(points, names[i]).None?) ==> r.Err? && r.error.UnknownPoint?
    ensures r.Err? ==>
      (r.error.UnknownPoint? && r.error.name in names && Find(points, r.error.name).None?) ||
      (r.error.Unmeasured? && r.error.name in names && Find(points, r.error.name) == Some(None))
  {
    var coordinates :- Resolve(points, names);
    AllMeasured(names, coordinates)
  }

  // ---------------------------------------------------------------------
  // Values

  /** The geometric value of a landmark variant, given the coordinates of its `PointNames`. */
  function PointValue(m: MathLib, v: Variant, c: seq<Vec2>): Option<real>
    requires !v.IsComposite() && |c| == |v.PointNames()|
  {
    match v
    case Distance(_, _) => Some(DistanceValue(m, c[1], c[0]))
    case Angle(_, _, _, _) => AngleValue(m, c[1], c[0], c[3], c[2])
    case LineDistance(_, _, _) => PointLineDistance(m, c[0], c[1], c[2])
    case LineDisplacement(_, _, _) => PointLineDisplacement(m, c[0], c[1], c[2])
    case ProjectedDistance(_, _, _, _) => ProjectedDistanceValue(m, c[1], c[2], c[0], c[3])
    case ProjectedDisplacement(_, _, _, _) => ProjectedDisplacementValue(m, c[0], c[1], c[2], c[3])
    case NormalLineDistance(_, _, _, _) => NormalLineDistanceValue(m, c[1], c[2], c[0], c[4])
    case NormalLineDisplacement(_, _, _, _) => NormalLineDisplacementValue(m, c[0], c[1], c[2], c[3])
    case NormalLineAngle(_, _, _, _, direction) => NormalLineAngleValue(m, direction, c[0], c[1], c[2], c[3])
    case NormalLineProjectedDisplacement(_, _, _, _, _, _) => NormalLineProjectedDisplacementValue(m, c[0], c[1], c[2], c[3], c[4], c[5])
  }

  /**
   * `Measure(points, measurements)`. A reference from a composite measurement
   * to another one spends one unit of fuel; running out stands for the
   * unbounded recursion of a cyclic reference.
   */
  function Value(m: MathLib, v: Variant, points: PointTable, measurements: MeasurementTable, fuel: nat): Result<real, Error>
    decreases fuel, 2, 0
  {
    match v
    case AngleSum(angles) => SumAngles(AngleValues(m, angles, points, measurements, fuel))
    case ConjugateAngle(angles) =>
      (match SumAngles(AngleValues(m, angles, points, measurements, fuel))
       case Ok(sum) => Ok(360.0 - sum)
       case Err(e) => Err(e))
    case _ =>
      var c :- Coordinates(points, v.PointNames());
      Defined(PointValue(m, v, c))
  }

  /** A value the geometry computes, or NaN from a zero divisor. */
  function Defined(x: Option<real>): (r: Result<real, Error>)
    ensures r.Ok? <==> x.Some?
    ensures r.Ok? ==> r.value == x.value
    ensures r.Err? ==> r.error == Degenerate
  {
    match x
    case None => Err(Degenerate)
    case Some(x) => Ok(x)
  }

  /** `measurements[name].Measure(points, measurements)`. */
  function Referenced(m: MathLib, name: string, points: PointTable, measurements: MeasurementTable, fuel: nat): Result<real, Error>
    decreases fuel, 0, 0
  {
    match Find(measurements, name)
    case None => Err(UnknownMeasurement(name))
    case Some(w) => if fuel == 0 then Err(CyclicReference(name)) else Value(m, w, points, measurements, fuel - 1)
  }

  /**
   * One step of `angleSum += value`: a fault ends the loop, so the first fault
   * wins; otherwise an undefined (NaN) term makes the sum undefined.
   */
  function Accumulate(sum: Result<real, Error>, item: Result<real, Error>): (r: Result<real, Error>)
    ensures r.Ok? <==> sum.Ok? && item.Ok?
    ensures r.Ok? ==> r.value == sum.value + item.value
    ensures r.Err? && r.error.IsFault() <==> (sum.Err? && sum.error.IsFault()) || (item.Err? && item.error.IsFault())
    ensures sum.Err? && sum.error.IsFault() ==> r == sum
  {
    if sum.Err? && sum.error.IsFault() then sum
    else if item.Err? && item.error.IsFault() then item
    else if sum.Err? then sum
    else if item.Err? then item
    else Ok(sum.value + item.value)
  }

  /** The values of the referenced measurements, in list order. */
  function AngleValues(m: MathLib, angles: seq<string>, points: PointTable, measurements: MeasurementTable, fuel: nat): (r: seq<Result<real, Error>>)
    ensures |r| == |angles|
    ensures forall i :: 0 <= i < |angles| ==> r[i] == Referenced(m, angles[i], points, measurements, fuel)
    decreases fuel, 1, 0
  {
    seq(|angles|, i requires 0 <= i < |angles| => Referenced(m, angles[i], points, measurements, fuel))
  }

  /** The accumulated sum of a list of measurement results, in list order. */
  function SumAngles(items: seq<Result<real, Error>>): Result<real, Error> {
    if |items| == 0 then Ok(0.0)
    else Accumulate(SumAngles(items[..|items| - 1]), items[|items| - 1])
  }

  /** The sum of a list of reals, in order. */
  function Sum(values: seq<real>): real {
    if |values| == 0 then 0.0 else Sum(values[..|values| - 1]) + values[|values| - 1]
  }

  predicate IsCyclic(r: Result<real, Error>) {
    r.Err? && r.error.CyclicReference?
  }

  // ---------------------------------------------------------------------
  // The accumulator loop

  /** The value of a measurement, with the composite variants computed by their loops. */
  method Evaluate(m: MathLib, v: Variant, points: PointTable, measurements: MeasurementTable, fuel: nat)
    returns (r: Result<real, Error>)
    ensures r == Value(m, v, points, measurements, fuel)
    decreases fuel, 3
  {
    match v
    case AngleSum(angles) =>
      r := AngleSumMeasure(m, angles, points, measurements, fuel);
    case ConjugateAngle(angles) =>
      r := ConjugateAngleMeasure(m, angles, points, measurements, fuel);
    case _ =>
      r := Value(m, v, points, measurements, fuel);
  }

  /** ConjugateAngleMeasurement.Measure: 360 minus the accumulated sum. */
  method ConjugateAngleMeasure(m: MathLib, angles: seq<string>, points: PointTable, measurements: MeasurementTable, fuel: nat)
    returns (r: Result<real, Error>)
    ensures r == Value(m, ConjugateAngle(angles), points, measurements, fuel)
    decreases fuel, 2
  {
    var angleSum := AngleSumMeasure(m, angles, points, measurements, fuel);
    if angleSum.Err? {
      return Err(angleSum.error);
    }
    return Ok(360.0 - angleSum.value);
  }

  /**
   * AngleSumMeasurement.Measure, and the loop ConjugateAngleMeasurement
   * repeats: `angleSum += measurements[angle].Measure(...)` over `Angles`,
   * left by the first fault.
   */
  method AngleSumMeasure(m: MathLib, angles: seq<string>, points: PointTable, measurements: MeasurementTable, fuel: nat)
    returns (r: Result<real, Error>)
    ensures r == SumAngles(AngleValues(m, angles, points, measurements, fuel))
    decreases fuel, 1
  {
    ghost var items := AngleValues(m, angles, points, measurements, fuel);
    var angleSum: Result<real, Error> := Ok(0.0);
    var i := 0;
    while i < |angles|
      invariant 0 <= i <= |angles|
      invariant angleSum == SumAngles(items[..i])
      invariant angleSum.Err? ==> !angleSum.error.IsFault()
    {
      var value := MeasureReferenced(m, angles[i], points, measurements, fuel);
      SumAnglesStep(items, i);
      angleSum := Accumulate(angleSum, value);
      if angleSum.Err? && angleSum.error.IsFault() {
        FaultPersists(items, i + 1);
        return angleSum;
      }
      i := i + 1;
    }
    assert items[..i] == items;
    return angleSum;
  }

  /** `measurements[name].Measure(points, measurements)`, spending one unit of fuel. */
  method MeasureReferenced(m: MathLib, name: string, points: PointTable, measurements: MeasurementTable, fuel: nat)
    returns (r: Result<real, Error>)
    ensures r == Referenced(m, name, points, measurements, fuel)
    decreases fuel, 0
  {
    var found := Find(measurements, name);
    if found.None? {
      return Err(UnknownMeasurement(name));
    }
    if fuel == 0 {
      return Err(CyclicReference(name));
    }
    r := Evaluate(m, found.value, points, measurements, fuel - 1);
  }

  /** Adding one more term to the partial sum. */
  lemma SumAnglesStep(items: seq<Result<real, Error>>, i: nat)
    requires i < |items|
    ensures SumAngles(items[..i + 1]) == Accumulate(SumAngles(items[..i]), items[i])
  {
    assert items[..i + 1][..i] == items[..i];
  }

  /** Once the partial sum is a fault, the remaining terms do not change it. */
  lemma {:induction false} FaultPersists(items: seq<Result<real, Error>>, k: nat)
    requires k <= |items|
    requires var s := SumAngles(items[..k]); s.Err? && s.error.IsFault()
    ensures SumAngles(items) == SumAngles(items[..k])
    decreases |items|
  {
    if k < |items| {
      var n := |items| - 1;
      assert items[..n][..k] == items[..k];
      FaultPersists(items[..n], k);
    } else {
      assert items[..k] == items;
    }
  }

  // ---------------------------------------------------------------------
  // Properties of the composite variants

  /** An empty angle list sums to 0; its conjugate is 360. */
  lemma EmptyAngles(m: MathLib, points: PointTable, measurements: MeasurementTable, fuel: nat)
    ensures Value(m, AngleSum([]), points, measurements, fuel) == Ok(0.0)
    ensures Value(m, ConjugateAngle([]), points, measurements, fuel) == Ok(360.0)
  {
  }

  /** For the same angle list, the conjugate angle and the angle sum add up to 360. */
  lemma ConjugateComplementsSum(m: MathLib, angles: seq<string>, points: PointTable, measurements: MeasurementTable, fuel: nat)
    ensures Value(m, ConjugateAngle(angles), points, measurements, fuel).Ok? <==>
            Value(m, AngleSum(angles), points, measurements, fuel).Ok?
    ensures Value(m, AngleSum(angles), points, measurements, fuel).Ok? ==>
      Value(m, ConjugateAngle(angles), points, measurements, fuel).value +
        Value(m, AngleSum(angles), points, measurements, fuel).value == 360.0
    ensures Value(m, AngleSum(angles), points, measurements, fuel).Err? ==>
      Value(m, ConjugateAngle(angles), points, measurements, fuel).error ==
        Value(m, AngleSum(angles), points, measurements, fuel).error
  {
  }

  /** When every term has a value, the accumulated sum is the sum of those values in list order. */
  lemma {:induction false} SumAnglesIsSum(items: seq<Result<real, Error>>, values: seq<real>)
    requires |values| == |items|
    requires forall i :: 0 <= i < |items| ==> items[i] == Ok(values[i])
    ensures SumAngles(items) == Ok(Sum(values))
    decreases |items|
  {
    if |items| > 0 {
      var n := |items| - 1;
      SumAnglesIsSum(items[..n], values[..n]);
      assert values[..|values| - 1] == values[..n];
    }
  }

  /**
   * When every referenced measurement has a value, the angle sum is the sum of
   * those values in list order, a name listed twice counting twice.
   */
  lemma AngleSumIsSum(m: MathLib, angles: seq<string>, values: seq<real>, points: PointTable, measurements: MeasurementTable, fuel: nat)
    requires |values| == |angles|
    requires forall i :: 0 <= i < |angles| ==> Referenced(m, angles[i], points, measurements, fuel) == Ok(values[i])
    ensures Value(m, AngleSum(angles), points, measurements, fuel) == Ok(Sum(values))
  {
    SumAnglesIsSum(AngleValues(m, angles, points, measurements, fuel), values);
  }

  /** A fault among the terms makes the accumulated sum a fault. */
  lemma {:induction false} FaultAnywhere(items: seq<Result<real, Error>>, k: nat)
    requires k < |items| && items[k].Err? && items[k].error.IsFault()
    ensures var r := SumAngles(items); r.Err? && r.error.IsFault()
    decreases |items|
  {
    var n := |items| - 1;
    if k < n {
      FaultAnywhere(items[..n], k);
    }
  }

  /** Without a fault among the terms the accumulated sum is no fault. */
  lemma {:induction false} NoFault(items: seq<Result<real, Error>>)
    requires forall i :: 0 <= i < |items| ==> !(items[i].Err? && items[i].error.IsFault())
    ensures var r := SumAngles(items); !(r.Err? && r.error.IsFault())
    decreases |items|
  {
    if |items| > 0 {
      NoFault(items[..|items| - 1]);
    }
  }

  /** The first fault among the terms is the result: the loop ends there. */
  lemma FirstFaultWins(items: seq<Result<real, Error>>, k: nat)
    requires k < |items| && items[k].Err? && items[k].error.IsFault()
    requires forall j :: 0 <= j < k ==> !(items[j].Err? && items[j].error.IsFault())
    ensures SumAngles(items) == items[k]
  {
    NoFault(items[..k]);
    SumAnglesStep(items, k);
    FaultPersists(items, k + 1);
  }

  /** A name missing from the measurement collection makes the angle sum fail with a fault. */
  lemma UnknownAngleFails(m: MathLib, angles: seq<string>, name: string, points: PointTable, measurements: MeasurementTable, fuel: nat)
    requires name in angles
    requires Find(measurements, name).None?
    ensures var r := Value(m, AngleSum(angles), points, measurements, fuel); r.Err? && r.error.IsFault()
  {
    var k :| 0 <= k < |angles| && angles[k] == name;
    FaultAnywhere(AngleValues(m, angles, points, measurements, fuel), k);
  }

  /**
   * A measurement that lists itself recurses without end in the original;
   * here it runs out of fuel, whatever the fuel.
   */
  lemma {:induction false} SelfReferenceIsCyclic(m: MathLib, name: string, points: PointTable, measurements: MeasurementTable, fuel: nat)
    requires Find(measurements, name) == Some(AngleSum([name]))
    ensures Value(m, AngleSum([name]), points, measurements, fuel) == Err(CyclicReference(name))
  {
    var items := AngleValues(m, [name], points, measurements, fuel);
    if fuel > 0 {
      SelfReferenceIsCyclic(m, name, points, measurements, fuel - 1);
      assert Referenced(m, name, points, measurements, fuel) == Value(m, AngleSum([name]), points, measurements, fuel - 1);
    }
    assert items[..0] == [];
    assert SumAngles(items) == Accumulate(Ok(0.0), Referenced(m, name, points, measurements, fuel));
  }

  /** More fuel changes nothing unless the fuel ran out. */
  lemma {:induction false} ValueFuel(m: MathLib, v: Variant, points: PointTable, measurements: MeasurementTable, fuel: nat)
    ensures !IsCyclic(Value(m, v, points, measurements, fuel)) ==>
      Value(m, v, points, measurements, fuel + 1) == Value(m, v, points, measurements, fuel)
    decreases fuel, 2, 0
  {
    match v
    case AngleSum(angles) => AngleValuesFuel(m, angles, points, measurements, fuel);
    case ConjugateAngle(angles) => AngleValuesFuel(m, angles, points, measurements, fuel);
    case _ =>
  }

  lemma AngleValuesFuel(m: MathLib, angles: seq<string>, points: PointTable, measurements: MeasurementTable, fuel: nat)
    ensures !IsCyclic(SumAngles(AngleValues(m, angles, points, measurements, fuel))) ==>
      SumAngles(AngleValues(m, angles, points, measurements, fuel + 1)) == SumAngles(AngleValues(m, angles, points, measurements, fuel))
    decreases fuel, 1, 0
  {
    var a, b := AngleValues(m, angles, points, measurements, fuel), AngleValues(m, angles, points, measurements, fuel + 1);
    forall i | 0 <= i < |angles|
      ensures !IsCyclic(a[i]) ==> b[i] == a[i]
    {
      ReferencedFuel(m, angles[i], points, measurements, fuel);
    }
    SumAnglesAgree(a, b);
  }

  /**
   * Terms that agree wherever the first is not cyclic give sums that agree
   * unless the first sum is cyclic.
   */
  lemma {:induction false} SumAnglesAgree(a: seq<Result<real, Error>>, b: seq<Result<real, Error>>)
    requires |a| == |b|
    requires forall i :: 0 <= i < |a| ==> !IsCyclic(a[i]) ==> b[i] == a[i]
    ensures !IsCyclic(SumAngles(a)) ==> SumAngles(b) == SumAngles(a)
    decreases |a|
  {
    if |a| > 0 {
      var n := |a| - 1;
      SumAnglesAgree(a[..n], b[..n]);
    }
  }

  lemma {:induction false} ReferencedFuel(m: MathLib, name: string, points: PointTable, measurements: MeasurementTable, fuel: nat)
    ensures !IsCyclic(Referenced(m, name, points, measurements, fuel)) ==>
      Referenced(m, name, points, measurements, fuel + 1) == Referenced(m, name, points, measurements, fuel)
    decreases fuel, 0, 0
  {
    var found := Find(measurements, name);
    if found.Some? && fuel > 0 {
      ValueFuel(m, found.value, points, measurements, fuel - 1);
    }
  }
  // ---------------------------------------------------------------------
  // Acyclic and cyclic references

  /**
   * A ranking of the measurement names under which every composite refers
   * only to known measurements of strictly smaller rank; one exists exactly
   * when the references are acyclic.
   */
  ghost predicate Ranked(measurements: MeasurementTable, rank: string -> nat) {
    forall name :: Find(measurements, name).Some? && Find(measurements, name).value.IsComposite() ==>
      forall a :: a in Find(measurements, name).value.angles && Find(measurements, a).Some? ==> rank(a) < rank(name)
  }

  /** A list of results none of which ran out of fuel sums without running out. */
  lemma {:induction false} NoCyclicTerm(items: seq<Result<real, Error>>)
    requires forall i :: 0 <= i < |items| ==> !IsCyclic(items[i])
    ensures !IsCyclic(SumAngles(items))
    decreases |items|
  {
    if |items| > 0 {
      NoCyclicTerm(items[..|items| - 1]);
    }
  }

  /** A reference to a measurement ranked below the fuel never runs out of fuel. */
  lemma {:induction false} RankedReferenceNotCyclic(m: MathLib, name: string, points: PointTable, measurements: MeasurementTable,
                                                    rank: string -> nat, fuel: nat)
    requires Ranked(measurements, rank)
    requires Find(measurements, name).Some? ==> rank(name) < fuel
    ensures !IsCyclic(Referenced(m, name, points, measurements, fuel))
    decreases fuel, 0
  {
    var found := Find(measurements, name);
    if found.Some? {
      RankedValueNotCyclic(m, found.value, points, measurements, rank, fuel - 1);
    }
  }

  /** A measurement whose references are all ranked below the fuel never runs out of fuel. */
  lemma {:induction false} RankedValueNotCyclic(m: MathLib, v: Variant, points: PointTable, measurements: MeasurementTable,
                                                rank: string -> nat, fuel: nat)
    requires Ranked(measurements, rank)
    requires v.IsComposite() ==> forall a :: a in v.angles && Find(measurements, a).Some? ==> rank(a) < fuel
    ensures !IsCyclic(Value(m, v, points, measurements, fuel))
    decreases fuel, 1
  {
    if v.IsComposite() {
      var items := AngleValues(m, v.angles, points, measurements, fuel);
      forall i | 0 <= i < |items|
        ensures !IsCyclic(items[i])
      {
        RankedReferenceNotCyclic(m, v.angles[i], points, measurements, rank, fuel);
      }
      NoCyclicTerm(items);
    }
  }

  /**
   * With acyclic references, ranked below the number of measurements, any
   * measurement evaluated with that many references of depth never runs out:
   * it ends with a value or with one of the errors the original reports.
   */
  lemma AcyclicNeverCyclic(m: MathLib, v: Variant, points: PointTable, measurements: MeasurementTable, rank: string -> nat)
    requires Ranked(measurements, rank)
    requires forall name :: Find(measurements, name).Some? ==> rank(name) < |measurements|
    ensures !IsCyclic(Value(m, v, points, measurements, |measurements|))
  {
    RankedValueNotCyclic(m, v, points, measurements, rank, |measurements|);
  }

  /**
   * Names each of which is a composite measurement whose first term is the
   * next name, the last one leading back to the first.
   */
  ghost predicate CycleThrough(measurements: MeasurementTable, cycle: seq<string>) {
    && |cycle| > 0
    && forall i {:trigger Find(measurements, cycle[i])} :: 0 <= i < |cycle| ==>
         && Find(measurements, cycle[i]).Some?
         && Find(measurements, cycle[i]).value.IsComposite()
         && |Find(measurements, cycle[i]).value.angles| > 0
         && Find(measurements, cycle[i]).value.angles[0] == cycle[if i + 1 < |cycle| then i + 1 else 0]
  }

  /**
   * Measuring any name on such a cycle recurses without end in the original;
   * here it runs out of fuel, whatever the fuel.
   */
  lemma {:induction false} CycleIsCyclic(m: MathLib, cycle: seq<string>, i: nat, points: PointTable, measurements: MeasurementTable, fuel: nat)
    requires CycleThrough(measurements, cycle) && i < |cycle|
    ensures IsCyclic(Referenced(m, cycle[i], points, measurements, fuel))
    decreases fuel
  {
    if fuel > 0 {
      var w := Find(measurements, cycle[i]).value;
      var next := if i + 1 < |cycle| then i + 1 else 0;
      assert w.angles[0] == cycle[next];
      CycleIsCyclic(m, cycle, next, points, measurements, fuel - 1);
      CyclicFirstTerm(m, w, points, measurements, fuel - 1);
    }
  }

  /** A composite whose first term runs out of fuel runs out itself: that term is the first to fail. */
  lemma CyclicFirstTerm(m: MathLib, v: Variant, points: PointTable, measurements: MeasurementTable, fuel: nat)
    requires v.IsComposite() && |v.angles| > 0
    requires IsCyclic(Referenced(m, v.angles[0], points, measurements, fuel))
    ensures IsCyclic(Value(m, v, points, measurements, fuel))
  {
    var items := AngleValues(m, v.angles, points, measurements, fuel);
    FirstFaultWins(items, 0);
  }

  /** Two angle sums that list each other: both run out of fuel, whatever the fuel. */
  lemma MutualReferenceIsCyclic(m: MathLib, a: string, b: string, points: PointTable, measurements: MeasurementTable, fuel: nat)
    requires Find(measurements, a) == Some(AngleSum([b]))
    requires Find(measurements, b) == Some(AngleSum([a]))
    ensures IsCyclic(Referenced(m, a, points, measurements, fuel))
    ensures IsCyclic(Referenced(m, b, points, measurements, fuel))
  {
    TwoNameCycle(measurements, a, b);
    CycleIsCyclic(m, [a, b], 0, points, measurements, fuel);
    CycleIsCyclic(m, [a, b], 1, points, measurements, fuel);
  }

  lemma TwoNameCycle(measurements: MeasurementTable, a: string, b: string)
    requires Find(measurements, a) == Some(AngleSum([b]))
    requires Find(measurements, b) == Some(AngleSum([a]))
    ensures CycleThrough(measurements, [a, b])
  {
    var cycle := [a, b];
    assert cycle[0] == a && cycle[1] == b;
  }

  // ---------------------------------------------------------------------
  // Landmark variants over placed landmarks

  /** The landmark `name` is known and holds the coordinate `c`. */
  predicate PlacedAt(points: PointTable, name: string, c: Vec2) {
    Find(points, name) == Some(Some(c))
  }

  /**
   * When every landmark a variant reads is known and has a coordinate, its
   * value is the geometry on those coordinates, undefined where that is.
   */
  lemma MeasuredValue(m: MathLib, v: Variant, c: seq<Vec2>, points: PointTable, measurements: MeasurementTable, fuel: nat)
    requires !v.IsComposite() && |c| == |v.PointNames()|
    requires forall i :: 0 <= i < |c| ==> PlacedAt(points, v.PointNames()[i], c[i])
    ensures Value(m, v, points, measurements, fuel) == Defined(PointValue(m, v, c))
  {
    var r := Coordinates(points, v.PointNames());
    assert r.Ok?;
    assert r.value == c;
  }

  /** A landmark variant reads no other measurement. */
  lemma ValueIgnoresMeasurements(m: MathLib, v: Variant, points: PointTable, measurements: MeasurementTable, others: MeasurementTable, fuel: nat, otherFuel: nat)
    requires !v.IsComposite()
    ensures Value(m, v, points, measurements, fuel) == Value(m, v, points, others, otherFuel)
  {
  }

  /** An unknown landmark name makes any landmark variant fail with a fault. */
  lemma UnknownPointFails(m: MathLib, v: Variant, name: string, points: PointTable, measurements: MeasurementTable, fuel: nat)
    requires !v.IsComposite() && name in v.PointNames()
    requires Find(points, name).None?
    ensures var r := Value(m, v, points, measurements, fuel); r.Err? && r.error.UnknownPoint?
  {
    var k :| 0 <= k < |v.PointNames()| && v.PointNames()[k] == name;
    var r := Coordinates(points, v.PointNames());
    assert r.Err? && r.error.UnknownPoint?;
  }

  /** A distance is the length between the two landmarks, in either order. */
  lemma DistanceOfPlaced(m: MathLib, point0: string, point1: string, a: Vec2, b: Vec2, points: PointTable, measurements: MeasurementTable, fuel: nat)
    requires Lawful(m)
    requires PlacedAt(points, point0, a) && PlacedAt(points, point1, b)
    ensures Value(m, Distance(point0, point1), points, measurements, fuel) == Ok(Length(m, Sub(b, a)))
    ensures Value(m, Distance(point1, point0), points, measurements, fuel) == Value(m, Distance(point0, point1), points, measurements, fuel)
    ensures Length(m, Sub(b, a)) == 0.0 <==> a == b
  {
    MeasuredValue(m, Distance(point0, point1), [b, a], points, measurements, fuel);
    MeasuredValue(m, Distance(point1, point0), [a, b], points, measurements, fuel);
    DistanceSymmetric(m, a, b);
    DistanceZero(m, a, b);
  }

  /** An angle between two placed segments is defined unless one has length zero, and lies in [0, 180]. */
  lemma AngleOfPlaced(m: MathLib, v: Variant, a0: Vec2, a1: Vec2, b0: Vec2, b1: Vec2, points: PointTable, measurements: MeasurementTable, fuel: nat)
    requires Lawful(m) && v.Angle?
    requires PlacedAt(points, v.pointA0, a0) && PlacedAt(points, v.pointA1, a1)
    requires PlacedAt(points, v.pointB0, b0) && PlacedAt(points, v.pointB1, b1)
    ensures var r := Value(m, v, points, measurements, fuel);
      (r.Ok? <==> a0 != a1 && b0 != b1) &&
      (r.Ok? ==> 0.0 <= r.value <= 180.0) &&
      (r.Err? ==> r.error == Degenerate)
  {
    MeasuredValue(m, v, [a1, a0, b1, b0], points, measurements, fuel);
    assert PointValue(m, v, [a1, a0, b1, b0]) == AngleValue(m, a0, a1, b0, b1);
    AngleRange(m, a0, a1, b0, b1);
  }

  /**
   * The distance from a placed landmark to the line through two placed
   * landmarks: undefined when the two coincide, otherwise the cross-product
   * formula, never negative.
   */
  lemma LineDistanceOfPlaced(m: MathLib, v: Variant, p: Vec2, a: Vec2, b: Vec2, points: PointTable, measurements: MeasurementTable, fuel: nat)
    requires Lawful(m) && v.LineDistance?
    requires PlacedAt(points, v.point, p) && PlacedAt(points, v.line0, a) && PlacedAt(points, v.line1, b)
    ensures var r := Value(m, v, points, measurements, fuel);
      (r.Ok? <==> a != b) &&
      (r.Err? ==> r.error == Degenerate) &&
      (r.Ok? ==> Length(m, Sub(b, a)) != 0.0 && r.value == Abs(PerpDot(Sub(p, a), Sub(p, b))) / Length(m, Sub(b, a)) && r.value >= 0.0)
  {
    MeasuredValue(m, v, [p, a, b], points, measurements, fuel);
    assert PointValue(m, v, [p, a, b]) == PointLineDistance(m, p, a, b);
    DefinedLineDistance(m, p, a, b);
  }

  lemma DefinedLineDistance(m: MathLib, p: Vec2, a: Vec2, b: Vec2)
    requires Lawful(m)
    ensures var r := Defined(PointLineDistance(m, p, a, b));
      (r.Ok? <==> a != b) &&
      (r.Err? ==> r.error == Degenerate) &&
      (r.Ok? ==> Length(m, Sub(b, a)) != 0.0 && r.value == Abs(PerpDot(Sub(p, a), Sub(p, b))) / Length(m, Sub(b, a)) && r.value >= 0.0)
  {
    PointLineDistanceFormula(m, p, a, b);
    PointLineDistanceNonNegative(m, p, a, b);
  }
}
