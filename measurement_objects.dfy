/**
 * The measurement object and the collection that files measurements under
 * their names.
 *
 * `CephalometricMeasurement` is abstract in the original, with one subclass
 * per kind of measurement; here one class holds the common state (`Name`,
 * `Enabled`) and the subclass with its own properties as a `Variant`, which
 * the property setters may change but never into another subclass.
 */
module MeasurementObjects {
  import opened Wrappers
  import opened Vectors
  import opened Keyed
  import opened Points
  import opened Formulas
  import opened Measurements

  /** Both definitions belong to the same subclass. */
  predicate SameSubclass(a: Variant, b: Variant) {
    || (a.Distance? && b.Distance?)
    || (a.Angle? && b.Angle?)
    || (a.LineDistance? && b.LineDistance?)
    || (a.LineDisplacement? && b.LineDisplacement?)
    || (a.ProjectedDistance? && b.ProjectedDistance?)
    || (a.ProjectedDisplacement? && b.ProjectedDisplacement?)
    || (a.NormalLineDistance? && b.NormalLineDistance?)
    || (a.NormalLineDisplacement? && b.NormalLineDisplacement?)
    || (a.NormalLineAngle? && b.NormalLineAngle?)
    || (a.NormalLineProjectedDisplacement? && b.NormalLineProjectedDisplacement?)
    || (a.AngleSum? && b.AngleSum?)
    || (a.ConjugateAngle? && b.ConjugateAngle?)
  }

  /** A subclass fixes the units. */
  lemma SameSubclassSameUnits(a: Variant, b: Variant)
    requires SameSubclass(a, b)
    ensures a.Units() == b.Units()
  {
  }

  /** A new NormalLineAngleMeasurement measures against the right-hand normal. */
  function NewNormalLineAngle(lineA0: string, lineA1: string, lineB0: string, lineB1: string): (v: Variant)
    ensures v.NormalLineAngle? && v.normalDirection == Right
    ensures v.Units() == "deg"
  {
    NormalLineAngle(lineA0, lineA1, lineB0, lineB1, Right)
  }

  class CephalometricMeasurement {
    var name: Option<string>
    var enabled: bool
    /** The subclass and the values of its own properties. */
    var definition: Variant

    /** The base constructor: a measurement starts enabled and without a name. */
    constructor (definition: Variant)
      ensures name == None && enabled
      ensures this.definition == definition
    {
      name := None;
      enabled := true;
      this.definition := definition;
    }

    method SetName(value: Option<string>)
      modifies this
      ensures name == value
      ensures enabled == old(enabled) && definition == old(definition)
    {
      name := value;
    }

    /** `Enabled` is a flag for the display only: it does not change what is measured. */
    method SetEnabled(value: bool)
      modifies this
      ensures enabled == value
      ensures name == old(name) && definition == old(definition)
    {
      enabled := value;
    }

    /** Setting the subclass's own properties; the subclass, and so the units, stay. */
    method SetDefinition(value: Variant)
      requires SameSubclass(definition, value)
      modifies this
      ensures definition == value
      ensures definition.Units() == old(definition.Units())
      ensures name == old(name) && enabled == old(enabled)
    {
      SameSubclassSameUnits(definition, value);
      definition := value;
    }

    /** `Angles.Add(angle)` on an angle sum or conjugate angle. */
    method AddAngle(angle: string)
      requires definition.IsComposite()
      modifies this
      ensures SameSubclass(definition, old(definition))
      ensures definition.angles == old(definition.angles) + [angle]
      ensures name == old(name) && enabled == old(enabled)
    {
      if definition.AngleSum? {
        definition := AngleSum(definition.angles + [angle]);
      } else {
        definition := ConjugateAngle(definition.angles + [angle]);
      }
    }

    /**
     * `Measure(points, measurements)`: the value of this measurement against
     * the current contents of both collections. A reference chain as long as
     * the measurement collection is the deepest an acyclic one can be.
     */
    method Measure(m: MathLib, points: CephalometricPointCollection, measurements: CephalometricMeasurementCollection)
      returns (r: Result<real, Error>)
      requires points.Valid() && measurements.Valid()
      ensures r == Value(m, definition, points.Table(), measurements.Table(), |measurements.items|)
    {
      r := Evaluate(m, definition, points.Table(), measurements.Table(), |measurements.items|);
    }
  }

  class CephalometricMeasurementCollection {
    /** The key each item was filed under, in insertion order. */
    var keys: seq<Option<string>>
    var items: seq<CephalometricMeasurement>

    ghost predicate Valid()
      reads this
    {
      |keys| == |items| && UniqueKeys(keys)
    }

    constructor ()
      ensures Valid()
      ensures keys == [] && items == []
    {
      keys := [];
      items := [];
    }

    function Count(): (r: nat)
      reads this
      requires Valid()
      ensures r == |items| && r == |keys|
    {
      |items|
    }

    /** `Contains(key)`: whether some item is filed under the key. */
    function Contains(key: string): (r: bool)
      reads this
      ensures r <==> exists i :: 0 <= i < |keys| && keys[i] == Some(key)
    {
      IndexOf(keys, key).Some?
    }

    /**
     * `Add(item)`: the item is appended under its current name; a name that is
     * already a key is rejected and nothing changes.
     */
    method Add(item: CephalometricMeasurement) returns (r: Result<(), CollectionError>)
      requires Valid()
      modifies this
      ensures Valid()
      ensures item.name.Some? && item.name in old(keys) ==>
        r == Err(DuplicateKey(item.name.value)) && keys == old(keys) && items == old(items)
      ensures !(item.name.Some? && item.name in old(keys)) ==>
        r.Ok? && keys == old(keys) + [item.name] && items == old(items) + [item]
    {
      var key := item.name;
      if key.Some? && key in keys {
        return Err(DuplicateKey(key.value));
      }
      AppendKeepsUnique(keys, key);
      keys := keys + [key];
      items := items + [item];
      return Ok(());
    }

    /** `Remove(key)`: drops the item filed under the key, keeping the order of the others. */
    method Remove(key: string) returns (removed: bool)
      requires Valid()
      modifies this
      ensures Valid()
      ensures removed <==> Some(key) in old(keys)
      ensures !removed ==> keys == old(keys) && items == old(items)
      ensures removed ==>
        var i := IndexOf(old(keys), key).value;
        keys == RemoveAt(old(keys), i) && items == RemoveAt(old(items), i)
      ensures Some(key) !in keys
    {
      var index := IndexOf(keys, key);
      if index.None? {
        return false;
      }
      var i := index.value;
      RemoveKeepsUnique(keys, i);
      keys := RemoveAt(keys, i);
      items := RemoveAt(items, i);
      forall j | 0 <= j < |keys|
        ensures keys[j] != Some(key)
      {
        if j >= i {
          assert keys[j] == old(keys)[j + 1];
        }
      }
      return true;
    }

    /**
     * The indexer `this[key]`: the item filed under the key, or
     * KeyNotFoundException. The item found is the one a composite
     * measurement's reference to `key` reads.
     */
    method Get(key: string) returns (r: Result<CephalometricMeasurement, CollectionError>)
      requires Valid()
      ensures r.Err? <==> Some(key) !in keys
      ensures r.Err? ==> r.error == KeyNotFound(key)
      ensures r.Ok? ==> exists i :: 0 <= i < |items| && keys[i] == Some(key) && items[i] == r.value
      ensures r.Ok? ==> Find(Table(), key) == Some(r.value.definition)
      ensures r.Err? ==> Find(Table(), key) == None
    {
      var index := IndexOf(keys, key);
      var table := Table();
      assert KeysOf(table) == keys;
      if index.None? {
        return Err(KeyNotFound(key));
      }
      return Ok(items[index.value]);
    }

    /** The keys with the current definition of the item filed under each. */
    function Table(): (t: MeasurementTable)
      reads this, items
      requires Valid()
      ensures |t| == |items|
      ensures forall i :: 0 <= i < |t| ==> t[i] == Entry(keys[i], items[i].definition)
    {
      Entries(keys, seq(|items|, i requires 0 <= i < |items| reads this, items => items[i].definition))
    }
  }
}
