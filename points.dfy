/**
 * Landmarks: the `CephalometricPoint` record and the
 * `CephalometricPointCollection` that files landmarks under their names.
 *
 * A landmark's coordinate starts out as the (NaN, NaN) sentinel, which is
 * `None` here; a null `Name` or `Description` is `None` as well.
 */
module Points {
  import opened Wrappers
  import opened Vectors
  import opened Keyed

  class CephalometricPoint {
    var name: Option<string>
    var description: Option<string>
    var placed: bool
    var measurement: Option<Vec2>

    /** A new landmark has no name, no description, no coordinate and is not placed. */
    constructor ()
      ensures name == None && description == None
      ensures measurement == None
      ensures !placed
    {
      name := None;
      description := None;
      placed := false;
      measurement := None;
    }

    method SetName(value: Option<string>)
      modifies this
      ensures name == value
      ensures description == old(description) && placed == old(placed) && measurement == old(measurement)
    {
      name := value;
    }

    method SetDescription(value: Option<string>)
      modifies this
      ensures description == value
      ensures name == old(name) && placed == old(placed) && measurement == old(measurement)
    {
      description := value;
    }

    /** `Placed` is a flag of its own: setting it leaves the coordinate alone. */
    method SetPlaced(value: bool)
      modifies this
      ensures placed == value
      ensures name == old(name) && description == old(description) && measurement == old(measurement)
    {
      placed := value;
    }

    /** Setting the coordinate (`None` for the NaN sentinel) leaves `Placed` alone. */
    method SetMeasurement(value: Option<Vec2>)
      modifies this
      ensures measurement == value
      ensures name == old(name) && description == old(description) && placed == old(placed)
    {
      measurement := value;
    }
  }

  /** What a measurement reads from the landmark collection: each key with the coordinate filed under it. */
  type PointTable = seq<Entry<Option<Vec2>>>

  class CephalometricPointCollection {
    /** The key each item was filed under, in insertion order. */
    var keys: seq<Option<string>>
    var items: seq<CephalometricPoint>

    ghost predicate Valid()
      reads this
    {
      |keys| == |items| && UniqueKeys(keys)
    }

    constructor ()
      ensures Valid()
      ensures keys == [] && items == []
    {
      keys := [];
      items := [];
    }

    function Count(): (r: nat)
      reads this
      requires Valid()
      ensures r == |items| && r == |keys|
    {
      |items|
    }

    /** `Contains(key)`: whether some item is filed under the key. */
    function Contains(key: string): (r: bool)
      reads this
      ensures r <==> exists i :: 0 <= i < |keys| && keys[i] == Some(key)
    {
      IndexOf(keys, key).Some?
    }

    /**
     * `Add(item)`: the item is appended under its current name; a name that is
     * already a key is rejected and nothing changes.
     */
    method Add(item: CephalometricPoint) returns (r: Result<(), CollectionError>)
      requires Valid()
      modifies this
      ensures Valid()
      ensures item.name.Some? && item.name in old(keys) ==>
        r == Err(DuplicateKey(item.name.value)) && keys == old(keys) && items == old(items)
      ensures !(item.name.Some? && item.name in old(keys)) ==>
        r.Ok? && keys == old(keys) + [item.name] && items == old(items) + [item]
    {
      var key := item.name;
      if key.Some? && key in keys {
        return Err(DuplicateKey(key.value));
      }
      AppendKeepsUnique(keys, key);
      keys := keys + [key];
      items := items + [item];
      return Ok(());
    }

    /** `Remove(key)`: drops the item filed under the key, keeping the order of the others. */
    method Remove(key: string) returns (removed: bool)
      requires Valid()
      modifies this
      ensures Valid()
      ensures removed <==> Some(key) in old(keys)
      ensures !removed ==> keys == old(keys) && items == old(items)
      ensures removed ==>
        var i := IndexOf(old(keys), key).value;
        keys == RemoveAt(old(keys), i) && items == RemoveAt(old(items), i)
      ensures Some(key) !in keys
    {
      var index := IndexOf(keys, key);
      if index.None? {
        return false;
      }
      var i := index.value;
      RemoveKeepsUnique(keys, i);
      keys := RemoveAt(keys, i);
      items := RemoveAt(items, i);
      forall j | 0 <= j < |keys|
        ensures keys[j] != Some(key)
      {
        if j >= i {
          assert keys[j] == old(keys)[j + 1];
        }
      }
      return true;
    }

    /** The indexer `this[key]`: the item filed under the key, or KeyNotFoundException. */
    method Get(key: string) returns (r: Result<CephalometricPoint, CollectionError>)
      requires Valid()
      ensures r.Err? <==> Some(key) !in keys
      ensures r.Err? ==> r.error == KeyNotFound(key)
      ensures r.Ok? ==> exists i :: 0 <= i < |items| && keys[i] == Some(key) && items[i] == r.value
    {
      var index := IndexOf(keys, key);
      if index.None? {
        return Err(KeyNotFound(key));
      }
      return Ok(items[index.value]);
    }

    /** The keys with the current coordinate of the item filed under each. */
    function Table(): (t: PointTable)
      reads this, items
      requires Valid()
      ensures |t| == |items|
      ensures forall i :: 0 <= i < |t| ==> t[i] == Entry(keys[i], items[i].measurement)
    {
      Entries(keys, seq(|items|, i requires 0 <= i < |items| reads this, items => items[i].measurement))
    }
  }
}
