# OpenOrtho cephalometric measurement engine in Dafny

OpenOrtho is a cephalometric analysis tool. An analysis is a named pair of
keyed collections:
- the landmarks (`CephalometricPoint`), each with an optional coordinate;
- the measurements over them (`CephalometricMeasurement`).

There are twelve kinds of measurement:
- distances and angles between landmarks;
- distances and signed displacements from lines, from projections onto lines and from erected normals;
- sums of other angle measurements, and their conjugate to 360°.

The kinds compute their values with the plane-geometry helpers in `Utilities`:
line intersection, perpendicular foot and point-to-line distance. `Utilities`
also defines `ClosestOnLine`, a clamp of a point against a segment, which no
measurement kind uses.

This project models that engine and proves properties of it:

| module | file | models |
|---|---|---|
| `Wrappers` | `wrappers.dfy` | `Option` and `Result` |
| `Vectors` | `vectors.dfy` | the OpenTK vector operations the engine uses. `MathLib` stands for the square root, arc cosine and π that the engine takes from the platform |
| `Utilities` | `utilities.dfy` | `ClosestOnLine`, `LineIntersection`, `PointOnLine`, both `PointLineDistance` overloads, and the signed `PointLineDisplacement` |
| `Keyed` | `keyed.dfy` | the lookups a `KeyedCollection<string, T>` performs on its keys |
| `Points` | `points.dfy` | `CephalometricPoint` and `CephalometricPointCollection`, as classes |
| `Formulas` | `formulas.dfy` | the geometry of each measurement kind on coordinates |
| `Measurements` | `measurements.dfy` | the twelve kinds as one `Variant` datatype, and `Value`: a kind's value against tables of points and measurements. This covers landmark lookup, composite references, and the accumulator loops of `AngleSumMeasurement` and `ConjugateAngleMeasurement` |
| `MeasurementObjects` | `measurement_objects.dfy` | `CephalometricMeasurement` and `CephalometricMeasurementCollection`, as classes |
| `Analysis` | `analysis.dfy` | `CephalometricAnalysis` |

Floating point is modelled by `real`. In the original, a division by zero or
an unplaced landmark yields NaN or infinity, or throws.
- The geometry returns `None` where the original's value is not a number.
- A measurement reports `Err(Degenerate)` for such a value, and `Err(Unmeasured(name))` when a landmark has no coordinate.
- Faults are `Err(UnknownPoint)`, `Err(UnknownMeasurement)` and `Err(CyclicReference)`: the original's `KeyNotFoundException`, and the endless recursion of composite measurements that refer to each other in a cycle.

An angle sum propagates the first fault it meets, as an exception would. Otherwise it is undefined when any of its terms is.

## Model

| member | source | states |
|---|---|---|
| `Utilities.OrderByX` | OpenOrtho/Utilities.cs:13-19 | the ends are swapped exactly when line0 lies strictly right of line1, so the smaller X comes first and equal X keeps the order |
| `Utilities.ClosestOnLine` | OpenOrtho/Utilities.cs:11-37 | the result is the point or one of the segment's ends: the first of the ordered ends at or left of the segment, the second right of it, the point itself between them |
| `Utilities.ClosestOnLineVerticalExample` | OpenOrtho/Utilities.cs:14-35 | on the vertical segment (0,0)-(0,5), a point to the left clamps to line0 and one to the right to line1 |
| `Utilities.ClosestOnLineLeftBranchDead` | OpenOrtho/Utilities.cs:31-36 | once the ends are ordered, the "right of p1" test in the left branch never holds, so that branch always returns line0 |
| `Utilities.LineIntersection` | OpenOrtho/Utilities.cs:39-52 | there is no intersection exactly when the determinant (p1-p2)×(p3-p4) is zero |
| `Utilities.LineIntersectionOnBothLines` | OpenOrtho/Utilities.cs:39-52 | a computed intersection lies on the line through p1, p2 and on the line through p3, p4 |
| `Utilities.LineIntersectionSymmetric` | OpenOrtho/Utilities.cs:39-52 | exchanging the two lines, or the two points of either line, gives the same intersection |
| `Utilities.LineIntersectionParallelExample` | OpenOrtho/Utilities.cs:47-49 | two parallel horizontal lines have no intersection |
| `Utilities.ProjectionParameter` | OpenOrtho/Utilities.cs:54-65 | the foot's parameter t along p0→p1 satisfies t·\|d\|² = (q-p0)·d |
| `Utilities.PointOnLineYIsProjection` | OpenOrtho/Utilities.cs:56-60 | the Y that PointOnLine computes is the Y of the orthogonal projection p0 + t·d |
| `Utilities.PointOnLineXIsProjection` | OpenOrtho/Utilities.cs:62 | the X that PointOnLine computes from that Y is the X of the orthogonal projection |
| `Utilities.PointOnLineIsProjection` | OpenOrtho/Utilities.cs:54-65 | PointOnLine is defined exactly when the line is not vertical (it divides by lineX), and is then the orthogonal projection of q |
| `Utilities.ProjectionOnLine` | OpenOrtho/Utilities.cs:54-65 | the projection lies on the line |
| `Utilities.ProjectionPerpendicular` | OpenOrtho/Utilities.cs:54-65 | q minus its projection is perpendicular to the line |
| `Utilities.ProjectionFixesLinePoints` | OpenOrtho/Utilities.cs:54-65 | a point on the line is its own projection |
| `Utilities.PointOnLineProjects` | OpenOrtho/Utilities.cs:54-65 | PointOnLine's result, where defined, lies on the line, and q minus it is perpendicular to the line |
| `Utilities.PointOnLineIdempotent` | OpenOrtho/Utilities.cs:54-65 | a point on a non-vertical line maps to itself, and projecting a projection changes nothing |
| `Utilities.PointLineDistanceFormula` | OpenOrtho/Utilities.cs:67-75 | the plane distance, through the 3D overload, is defined exactly when line0 ≠ line1, and is then \|(p-l0)×(p-l1)\| / \|l1-l0\| |
| `Utilities.PointLineDistanceNonNegative` | OpenOrtho/Utilities.cs:72-75 | the distance is never negative |
| `Utilities.PointLineDistanceSymmetric` | OpenOrtho/Utilities.cs:67-75 | exchanging the line's two points does not change the distance |
| `Utilities.PointLineDistanceAtEndpoint` | OpenOrtho/Utilities.cs:67-75 | either end of the line is at distance zero from it |
| `Utilities.PointLineDistanceHorizontal` | OpenOrtho/Utilities.cs:67-75 | from a horizontal line at height h, the distance is \|y - h\| |
| `Utilities.PointLineDistanceExample` | OpenOrtho/Utilities.cs:67-75 | the origin is at distance 5 from the line through (0,5) and (10,5) |
| `Utilities.PointLineDisplacementFormula` | OpenOrtho/Analysis/LineDisplacementMeasurement.cs:25-28 | the signed displacement is defined exactly when line0 ≠ line1, and is then (p-l0)×(l1-l0) / \|l1-l0\| |
| `Utilities.PointLineDisplacementAntisymmetric` | OpenOrtho/Analysis/LineDisplacementMeasurement.cs:25-28 | reversing the line negates the displacement |
| `Utilities.DisplacementMagnitudeIsDistance` | OpenOrtho/Analysis/LineDisplacementMeasurement.cs:25-28 | the displacement's magnitude is PointLineDistance, and both are defined on the same inputs |
| `Vectors.PerpendicularRight` | OpenOrtho/Analysis/NormalLineAngleMeasurement.cs:43 | the right perpendicular is orthogonal to the vector and as long as it |
| `Vectors.PerpendicularLeft` | OpenOrtho/Analysis/NormalLineAngleMeasurement.cs:43 | the left perpendicular is orthogonal, as long, and the opposite of the right one |
| `Vectors.LengthZero` | OpenOrtho/Analysis/DistanceMeasurement.cs:21 | a vector's Length is zero exactly for the zero vector |
| `Vectors.LengthSquared` | OpenOrtho/Analysis/DistanceMeasurement.cs:21 | Length is non-negative and squares to v·v |
| `Vectors.LengthScale` | OpenOrtho/Analysis/ProjectedDisplacementMeasurement.cs:33 | scaling a vector by k scales its length by \|k\| |
| `Vectors.NormalizeUnit` | OpenOrtho/Analysis/ProjectedDisplacementMeasurement.cs:33 | Vector2.Normalize is defined exactly for a non-zero vector and gives a unit vector |
| `Vectors.CosineBounded` | OpenOrtho/Analysis/AngleMeasurement.cs:28 | the cosine Vector3.CalculateAngle passes to acos lies in [-1, 1] |
| `Vectors.CalculateAngleSymmetric` | OpenOrtho/Analysis/AngleMeasurement.cs:28 | CalculateAngle does not depend on the order of its arguments |
| `Vectors.CalculateAngleOpposite` | OpenOrtho/Analysis/NormalLineAngleMeasurement.cs:43-46 | reversing one vector turns the angle θ into π - θ |
| `Keyed.KeysOf` | OpenOrtho/Analysis/CephalometricPointCollection.cs:11-14 | the keys of a collection are the names its items were filed under, in order |
| `Keyed.IndexOf` | OpenOrtho/Analysis/CephalometricPointCollection.cs:9-14 | the index found holds the key and is the first one that does; none is found exactly when no item has the key |
| `Keyed.IndexOfUnique` | OpenOrtho/Analysis/CephalometricPointCollection.cs:9-14 | with unique keys, each item's key finds exactly that item |
| `Keyed.Find` | OpenOrtho/Analysis/CephalometricPointCollection.cs:9-14 | the indexer finds nothing exactly when no entry has the key; otherwise it finds an entry that has it |
| `Keyed.FindIsFirst` | OpenOrtho/Analysis/CephalometricPointCollection.cs:9-14 | the entry found is the first one filed under the key; with unique keys, any entry filed under the key is the one found |
| `Keyed.Entries` | OpenOrtho/Analysis/CephalometricMeasurementCollection.cs:13-18 | the table of a collection pairs each item's value with its key, in order, and its keys are the collection's keys |
| `Keyed.AppendKeepsUnique` | OpenOrtho/Analysis/CephalometricPointCollection.cs:9-14 | appending an item under a fresh or null key keeps the keys unique |
| `Keyed.RemoveAt` | OpenOrtho/Analysis/CephalometricPointCollection.cs:9-14 | removing at i shifts the later items down by one and keeps the earlier ones |
| `Keyed.RemoveKeepsUnique` | OpenOrtho/Analysis/CephalometricPointCollection.cs:9-14 | removing an item keeps the keys unique |
| `Points.CephalometricPoint.constructor` | OpenOrtho/Analysis/CephalometricPoint.cs:12-15 | a new landmark has no name, no description, no coordinate, and is not placed |
| `Points.CephalometricPoint.SetName` | OpenOrtho/Analysis/CephalometricPoint.cs:17 | sets the name and nothing else |
| `Points.CephalometricPoint.SetDescription` | OpenOrtho/Analysis/CephalometricPoint.cs:19 | sets the description and nothing else |
| `Points.CephalometricPoint.SetPlaced` | OpenOrtho/Analysis/CephalometricPoint.cs:22 | sets the placed flag and nothing else |
| `Points.CephalometricPoint.SetMeasurement` | OpenOrtho/Analysis/CephalometricPoint.cs:24 | sets the coordinate and nothing else |
| `Points.CephalometricPointCollection.constructor` | OpenOrtho/Analysis/CephalometricPointCollection.cs:9 | a new collection is empty |
| `Points.CephalometricPointCollection.Count` | OpenOrtho/Analysis/CephalometricPointCollection.cs:9 | the count is the number of items, one key per item |
| `Points.CephalometricPointCollection.Contains` | OpenOrtho/Analysis/CephalometricPointCollection.cs:9-14 | true exactly when some item is filed under the key |
| `Points.CephalometricPointCollection.Add` | OpenOrtho/Analysis/CephalometricPointCollection.cs:11-14 | a duplicate name is rejected with nothing changed; otherwise the item is appended under its name; the keys stay unique |
| `Points.CephalometricPointCollection.Remove` | OpenOrtho/Analysis/CephalometricPointCollection.cs:9-14 | removes the item filed under the key, keeping the others' order, and reports whether there was one; afterwards no item has the key |
| `Points.CephalometricPointCollection.Get` | OpenOrtho/Analysis/CephalometricPointCollection.cs:9-14 | KeyNotFound exactly when no item has the key; otherwise the item filed under it |
| `Points.CephalometricPointCollection.Table` | OpenOrtho/Analysis/CephalometricPointCollection.cs:11-14 | the keys paired with each landmark's current coordinate, in order |
| `Measurements.Variant.Units` | OpenOrtho/Analysis/CephalometricMeasurement.cs:19 | units are "deg" exactly for the angle kinds (angle, normal-line angle, angle sum, conjugate angle) and "mm" otherwise |
| `MeasurementObjects.SameSubclassSameUnits` | OpenOrtho/Analysis/CephalometricMeasurement.cs:19 | Units is fixed by the subclass |
| `Measurements.Resolve` | OpenOrtho/Analysis/DistanceMeasurement.cs:21 | the points indexer succeeds exactly when every name is a key, and then gives each name's entry; otherwise it fails with UnknownPoint on a missing name |
| `Measurements.AllMeasured` | OpenOrtho/Analysis/DistanceMeasurement.cs:21 | reading `.Measurement` succeeds exactly when every landmark has a coordinate; otherwise it reports Unmeasured for one that has none |
| `Measurements.Coordinates` | OpenOrtho/Analysis/DistanceMeasurement.cs:21 | the coordinates are found exactly when every name is known and placed; an unknown name always wins over an unplaced landmark |
| `Measurements.Defined` | OpenOrtho/Analysis/DistanceMeasurement.cs:19-22 | a value the geometry cannot define becomes Degenerate; a defined value is kept |
| `Measurements.Accumulate` | OpenOrtho/Analysis/AngleSumMeasurement.cs:32 | `angleSum +=`: defined exactly when both sides are, then their sum; a fault on either side is a fault, and an earlier one is kept |
| `Measurements.AngleValues` | OpenOrtho/Analysis/AngleSumMeasurement.cs:30-33 | one value per listed name, the value of the measurement it refers to |
| `Measurements.Evaluate` | OpenOrtho/Analysis/CephalometricMeasurement.cs:21 | the loop implementation computes Value for every kind |
| `Measurements.AngleSumMeasure` | OpenOrtho/Analysis/AngleSumMeasurement.cs:27-36 | the accumulator loop computes the fold of Accumulate over the referenced values, starting from 0 |
| `Measurements.ConjugateAngleMeasure` | OpenOrtho/Analysis/ConjugateAngleMeasurement.cs:23-32 | the conjugate-angle loop computes Value of the conjugate angle, 360 minus the sum |
| `Measurements.MeasureReferenced` | OpenOrtho/Analysis/AngleSumMeasurement.cs:32 | `measurements[angle].Measure(...)` computes the referenced measurement's value, or UnknownMeasurement |
| `Measurements.SumAnglesStep` | OpenOrtho/Analysis/AngleSumMeasurement.cs:30-33 | one loop iteration extends the fold by one Accumulate |
| `Measurements.FaultPersists` | OpenOrtho/Analysis/AngleSumMeasurement.cs:30-33 | once the running sum holds a fault, the later terms cannot change it |
| `Measurements.EmptyAngles` | OpenOrtho/Analysis/AngleSumMeasurement.cs:29-35 | an empty angle sum is 0; an empty conjugate angle is 360 |
| `Measurements.ConjugateComplementsSum` | OpenOrtho/Analysis/ConjugateAngleMeasurement.cs:23-32 | conjugate angle and angle sum over the same names are defined together, add up to 360, and fail with the same error |
| `Measurements.SumAnglesIsSum` | OpenOrtho/Analysis/AngleSumMeasurement.cs:29-35 | when every term is defined, the fold is the plain sum of the terms |
| `Measurements.AngleSumIsSum` | OpenOrtho/Analysis/AngleSumMeasurement.cs:27-36 | an angle sum whose referenced measurements all have values is the sum of those values |
| `Measurements.FaultAnywhere` | OpenOrtho/Analysis/AngleSumMeasurement.cs:32 | a fault in any term makes the whole sum a fault |
| `Measurements.NoFault` | OpenOrtho/Analysis/AngleSumMeasurement.cs:32 | without a faulting term the sum does not fault |
| `Measurements.FirstFaultWins` | OpenOrtho/Analysis/AngleSumMeasurement.cs:30-33 | the sum fails with exactly the first fault among its terms, as the first exception thrown escapes the loop |
| `Measurements.UnknownAngleFails` | OpenOrtho/Analysis/AngleSumMeasurement.cs:32 | a name with no measurement behind it makes the angle sum fault |
| `Measurements.SelfReferenceIsCyclic` | OpenOrtho/Analysis/AngleSumMeasurement.cs:30-33 | an angle sum that lists only itself is reported as a cyclic reference |
| `Measurements.RankedValueNotCyclic` | OpenOrtho/Analysis/AngleSumMeasurement.cs:30-33 | when the references are ranked (each composite refers only to known measurements of lower rank) and the measurement's own references rank below the depth, it never reports a cyclic reference |
| `Measurements.RankedReferenceNotCyclic` | OpenOrtho/Analysis/AngleSumMeasurement.cs:32 | a reference to a measurement ranked below the depth never reports a cyclic reference |
| `Measurements.NoCyclicTerm` | OpenOrtho/Analysis/AngleSumMeasurement.cs:30-33 | a sum none of whose terms is a cyclic reference is not one |
| `Measurements.AcyclicNeverCyclic` | OpenOrtho/Analysis/CephalometricMeasurement.cs:21 | with acyclic references ranked below the number of measurements, any measurement evaluated at that depth, as `Measure` does, ends with a value or a non-cyclic error |
| `Measurements.CycleIsCyclic` | OpenOrtho/Analysis/AngleSumMeasurement.cs:30-33 | every name on a cycle of composites, each listing the next one first, reports a cyclic reference at every depth, as the original recurses without end |
| `Measurements.CyclicFirstTerm` | OpenOrtho/Analysis/AngleSumMeasurement.cs:30-33 | a composite whose first term is a cyclic reference is one itself |
| `Measurements.MutualReferenceIsCyclic` | OpenOrtho/Analysis/AngleSumMeasurement.cs:30-33 | two angle sums that list each other both report a cyclic reference at every depth |
| `Measurements.ValueFuel` | OpenOrtho/Analysis/AngleSumMeasurement.cs:32 | a value that is not cut short by the reference depth stays the same at any greater depth |
| `Measurements.MeasuredValue` | OpenOrtho/Analysis/CephalometricMeasurement.cs:21 | for a non-composite kind whose landmarks are all placed, the value is that kind's geometry on their coordinates |
| `Measurements.ValueIgnoresMeasurements` | OpenOrtho/Analysis/DistanceMeasurement.cs:19-22 | a non-composite kind does not read the measurement collection |
| `Measurements.UnknownPointFails` | OpenOrtho/Analysis/DistanceMeasurement.cs:21 | naming a landmark not in the collection faults with UnknownPoint |
| `Measurements.DistanceOfPlaced` | OpenOrtho/Analysis/DistanceMeasurement.cs:19-22 | the distance measurement is \|b - a\|; it does not depend on the order of the points, and is zero exactly when they coincide |
| `Measurements.AngleOfPlaced` | OpenOrtho/Analysis/AngleMeasurement.cs:24-29 | the angle measurement is defined exactly when neither line is a single point, and then lies in [0, 180]; otherwise it is Degenerate |
| `Measurements.LineDistanceOfPlaced` | OpenOrtho/Analysis/LineDistanceMeasurement.cs:22-25 | the line distance is defined exactly when the line's ends differ, is then the cross-product formula, and is not negative |
| `Formulas.DistanceNonNegative` | OpenOrtho/Analysis/DistanceMeasurement.cs:19-22 | a distance is never negative |
| `Formulas.DistanceSymmetric` | OpenOrtho/Analysis/DistanceMeasurement.cs:19-22 | swapping the points does not change the distance |
| `Formulas.DistanceZero` | OpenOrtho/Analysis/DistanceMeasurement.cs:19-22 | the distance is zero exactly when the points coincide |
| `Formulas.DistanceTranslated` | OpenOrtho/Analysis/DistanceMeasurement.cs:19-22 | moving both points by the same offset does not change the distance |
| `Formulas.AngleTranslated` | OpenOrtho/Analysis/AngleMeasurement.cs:24-29 | moving all four points by the same offset does not change the angle |
| `Formulas.AngleSymmetric` | OpenOrtho/Analysis/AngleMeasurement.cs:24-29 | exchanging lines A and B does not change the angle |
| `Formulas.DegreesBounded` | OpenOrtho/Analysis/AngleMeasurement.cs:28 | RadiansToDegrees maps [0, π] into [0, 180] |
| `Formulas.AngleRange` | OpenOrtho/Analysis/AngleMeasurement.cs:24-29 | the angle is defined exactly when neither line is a single point, and then lies in [0, 180] |
| `Formulas.ProjectedDistanceDefined` | OpenOrtho/Analysis/ProjectedDistanceMeasurement.cs:23-28 | the projected distance is defined exactly when the line is not vertical, and is never negative |
| `Formulas.ProjectedDistanceSymmetric` | OpenOrtho/Analysis/ProjectedDistanceMeasurement.cs:23-28 | swapping the two points does not change the projected distance |
| `Formulas.ProjectedDistanceOnLine` | OpenOrtho/Analysis/ProjectedDistanceMeasurement.cs:23-28 | for points already on the line, the projected distance is their plain distance |
| `Formulas.ProjectedDistanceHorizontal` | OpenOrtho/Analysis/ProjectedDistanceMeasurement.cs:23-28 | onto a horizontal line, the projected distance is the difference in X |
| `Formulas.ProjectedDistanceExample` | OpenOrtho/Analysis/ProjectedDistanceMeasurement.cs:23-28 | (0,0) and (10,0) projected on the line through (0,5) and (10,5) are 10 apart |
| `Formulas.ProjectedDisplacementDefined` | OpenOrtho/Analysis/ProjectedDisplacementMeasurement.cs:27-34 | the projected displacement is defined exactly when the line is not vertical, and is then (r1 - r0)·d / \|d\| for the projections r0, r1 |
| `Formulas.ProjectedDisplacementSwapped` | OpenOrtho/Analysis/ProjectedDisplacementMeasurement.cs:27-34 | exchanging the two points negates the projected displacement |
| `Formulas.ProjectedDisplacementMagnitude` | OpenOrtho/Analysis/ProjectedDisplacementMeasurement.cs:27-34 | the projected displacement's magnitude is the projected distance, and both are defined on the same inputs |
| `Formulas.NormalLineDistanceDefined` | OpenOrtho/Analysis/NormalLineDistanceMeasurement.cs:23-28 | the normal-line distance is defined exactly when the reference line is not vertical and the normal-line point is off it; it is never negative |
| `Formulas.NormalLineDistanceAtNormalPoint` | OpenOrtho/Analysis/NormalLineDistanceMeasurement.cs:23-28 | the normal-line point itself is at distance zero |
| `Formulas.NormalLineDirection` | OpenOrtho/Analysis/NormalLineDisplacementMeasurement.cs:33-34 | the erected normal is orthogonal to the reference line and as long as it, and is zero only for a one-point line |
| `Formulas.NormalLineDisplacementDefined` | OpenOrtho/Analysis/NormalLineDisplacementMeasurement.cs:27-37 | the normal-line displacement is defined exactly when the reference line is not vertical |
| `Formulas.NormalLineDisplacementIsProjected` | OpenOrtho/Analysis/NormalLineDisplacementMeasurement.cs:27-37 | the displacement from the erected normal equals the projected displacement from the point to the normal-line point |
| `Formulas.NormalLineAngleRange` | OpenOrtho/Analysis/NormalLineAngleMeasurement.cs:37-47 | the normal-line angle is the plain angle between the erected normal and line B; it is defined exactly when neither line is a single point, and then lies in [0, 180] |
| `Formulas.NormalLineAngleSupplementary` | OpenOrtho/Analysis/NormalLineAngleMeasurement.cs:43-46 | the left and right normals give supplementary angles |
| `Formulas.TargetOffsetSigned` | OpenOrtho/Analysis/NormalLineProjectedDisplacementMeasurement.cs:43-44 | the target's offset along line B is defined exactly when line B is not vertical, and is then (p - o)·d / \|d\| |
| `Formulas.NormalLineProjectedDisplacementCases` | OpenOrtho/Analysis/NormalLineProjectedDisplacementMeasurement.cs:31-45 | defined exactly when neither line is vertical; the offset is taken from where the normal crosses line B, a point on both lines, or from (0,0) when they do not cross |
| `Formulas.NormalLineProjectedDisplacementOriginFallback` | OpenOrtho/Analysis/NormalLineProjectedDisplacementMeasurement.cs:42 | a normal point on line A gives a one-point normal line, and the offset is then taken from (0,0) |
| `MeasurementObjects.NewNormalLineAngle` | OpenOrtho/Analysis/NormalLineAngleMeasurement.cs:17-20 | a new normal-line angle measures against the right-hand normal, in degrees |
| `MeasurementObjects.CephalometricMeasurement.constructor` | OpenOrtho/Analysis/CephalometricMeasurement.cs:10-13 | a new measurement is enabled and has no name |
| `MeasurementObjects.CephalometricMeasurement.SetName` | OpenOrtho/Analysis/CephalometricMeasurement.cs:15 | sets the name and nothing else |
| `MeasurementObjects.CephalometricMeasurement.SetEnabled` | OpenOrtho/Analysis/CephalometricMeasurement.cs:17 | sets the flag and nothing else; what is measured does not change |
| `MeasurementObjects.CephalometricMeasurement.SetDefinition` | OpenOrtho/Analysis/CephalometricMeasurement.cs:19 | setting a subclass's own properties keeps the subclass and its units |
| `MeasurementObjects.CephalometricMeasurement.AddAngle` | OpenOrtho/Analysis/AngleSumMeasurement.cs:22-25 | `Angles.Add` appends the name to the list and changes nothing else |
| `MeasurementObjects.CephalometricMeasurement.Measure` | OpenOrtho/Analysis/CephalometricMeasurement.cs:21 | measuring gives Value of the definition against the current contents of both collections |
| `MeasurementObjects.CephalometricMeasurementCollection.constructor` | OpenOrtho/Analysis/CephalometricMeasurementCollection.cs:13 | a new collection is empty |
| `MeasurementObjects.CephalometricMeasurementCollection.Count` | OpenOrtho/Analysis/CephalometricMeasurementCollection.cs:13 | the count is the number of items, one key per item |
| `MeasurementObjects.CephalometricMeasurementCollection.Contains` | OpenOrtho/Analysis/CephalometricMeasurementCollection.cs:13-18 | true exactly when some item is filed under the key |
| `MeasurementObjects.CephalometricMeasurementCollection.Add` | OpenOrtho/Analysis/CephalometricMeasurementCollection.cs:15-18 | a duplicate name is rejected with nothing changed; otherwise the item is appended under its name; the keys stay unique |
| `MeasurementObjects.CephalometricMeasurementCollection.Remove` | OpenOrtho/Analysis/CephalometricMeasurementCollection.cs:13-18 | removes the item filed under the key, keeping the others' order, and reports whether there was one |
| `MeasurementObjects.CephalometricMeasurementCollection.Get` | OpenOrtho/Analysis/CephalometricMeasurementCollection.cs:13-18 | KeyNotFound exactly when no item has the key; otherwise the item filed under it, whose definition is what a reference to the key reads |
| `MeasurementObjects.CephalometricMeasurementCollection.Table` | OpenOrtho/Analysis/CephalometricMeasurementCollection.cs:15-18 | the keys paired with each measurement's current definition, in order |
| `Analysis.CephalometricAnalysis.constructor` | OpenOrtho/Analysis/CephalometricAnalysis.cs:13-14 | a new analysis has no name and two fresh, empty collections |
| `Analysis.CephalometricAnalysis.SetName` | OpenOrtho/Analysis/CephalometricAnalysis.cs:17 | renaming leaves both collections untouched |
| `Analysis.CephalometricAnalysis.ToString` | OpenOrtho/Analysis/CephalometricAnalysis.cs:32-35 | the string form is the name, null when the name is null |

## Left out

- Drawing (`Draw` in every measurement kind), the Windows Forms editor and the XML serialisation attributes: these are user-interface and I/O code and compute no values.
- IEEE single-precision rounding, NaN and infinity: the arithmetic is exact over `real`. A NaN or an infinity becomes `None` or `Err(Degenerate)`.
- Square root, arc cosine and π come from a `MathLib` record that has only the laws the proofs use (`Lawful`). `Vector3.CalculateAngle`'s clamping of the cosine is not modelled; `Vectors.CosineBounded` proves that no clamping is needed.
- `Utilities.ScalarProjection` and `Utilities.PointLineDisplacement` are called by the measurements but are not part of the `Utilities.cs` this model follows. They are defined as the scalar projection v·a/\|a\| and the scalar projection on the right perpendicular of the line.
- `Measurements.Value`: a composite measurement's references are followed to a depth bounded by the size of the measurement collection, and deeper chains report `CyclicReference`. `AcyclicNeverCyclic` proves this depth enough for references that a ranking below the collection's size orders. That every acyclic reference graph has such a ranking (its longest-path heights) is not proved, because it needs graph reasoning over names that the rest of the model does not use. `CycleIsCyclic` covers cycles through first terms. A cycle reached only through a later term reports the first fault before it when an earlier term faults, as the original throws that fault first.
- `Points.CephalometricPointCollection.Add`, `MeasurementObjects.CephalometricMeasurementCollection.Add`: an item's key is its name when it is added. Renaming an item later does not re-file it, as in a `KeyedCollection` whose `ChangeItemKey` is never called.
- `Keyed.Find`: the framework also rejects a null key in the indexer; names used for lookup here are never null, so that error path is absent.
- The names of the landmarks and measurements a kind refers to are never null in this model. In the original, a null name throws `ArgumentNullException` from the indexer.
- `MeasurementObjects.CephalometricMeasurement.Measure` measures against the collections' current contents, read as tables. If a measurement changes its own collection while being measured, the model does not capture the effect.
- The twelve subclasses are one datatype held in the measurement object. A property setter of a subclass is `SetDefinition` with a value of the same subclass, and `Angles.Add` is `AddAngle`.
- `NormalLineAngleMeasurement` computes an intersection with line B and never uses it. The model does not compute it.
- `CephalometricAngleMeasurement` and `CephalometricDistanceMeasurement` are older measurement classes whose `Measure` has a different signature. They are not part of the measurement hierarchy that is modelled.
- `OrthoProject`, `CephalometricTemplate`, `DrawingOptions` and the forms are data holders and user interface, not part of this model.
