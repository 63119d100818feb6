/**
 * `CephalometricAnalysis`: a named pair of collections, the landmarks and the
 * measurements over them. The collections are created with the analysis and
 * never replaced; only their contents change.
 */
module Analysis {
  import opened Wrappers
  import opened Points
  import opened MeasurementObjects

  class CephalometricAnalysis {
    var name: Option<string>
    const points: CephalometricPointCollection
    const measurements: CephalometricMeasurementCollection

    /** A new analysis has no name and two fresh, empty collections. */
    constructor ()
      ensures name == None
      ensures fresh(points) && fresh(measurements)
      ensures points.Valid() && points.keys == [] && points.items == []
      ensures measurements.Valid() && measurements.keys == [] && measurements.items == []
    {
      name := None;
      points := new CephalometricPointCollection();
      measurements := new CephalometricMeasurementCollection();
    }

    /** Renaming the analysis leaves both collections as they were. */
    method SetName(value: Option<string>)
      modifies this
      ensures name == value
      ensures unchanged(points) && unchanged(measurements)
    {
      name := value;
    }

    /** `ToString()` is the analysis's name; a null name gives null. */
    function ToString(): (r: Option<string>)
      reads this
      ensures r.Some? <==> name.Some?
      ensures r.Some? ==> r.value == name.value
    {
      name
    }
  }
}
