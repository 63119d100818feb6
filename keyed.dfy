/**
 * The key discipline of the .NET `KeyedCollection<string, T>` that both
 * landmark and measurement collections derive from: items keep insertion
 * order, each item is filed under the key its `GetKeyForItem` gave when it
 * was inserted, a non-null key occurs at most once, and an item whose key
 * is null is stored but cannot be found by key.
 *
 * Keys are `Option<string>`; `None` stands for a null key.
 */
module Keyed {
  import opened Wrappers

  /** Why an operation on a keyed collection fails. */
  datatype CollectionError =
    | DuplicateKey(key: string)   // ArgumentException from Add
    | KeyNotFound(key: string)    // KeyNotFoundException from the indexer

  /** One stored item, with the key it was filed under. */
  datatype Entry<T> = Entry(key: Option<string>, value: T)

  /** No non-null key occurs twice. */
  predicate UniqueKeys(keys: seq<Option<string>>) {
    forall i, j :: 0 <= i < j < |keys| && keys[i].Some? ==> keys[i] != keys[j]
  }

  function KeysOf<T>(entries: seq<Entry<T>>): (r: seq<Option<string>>)
    ensures |r| == |entries|
    ensures forall i :: 0 <= i < |entries| ==> r[i] == entries[i].key
  {
    if |entries| == 0 then [] else KeysOf(entries[..|entries| - 1]) + [entries[|entries| - 1].key]
  }

  /**
   * The collection as a table: the value read from each item, paired with
   * the key the item was filed under, in order.
   */
  function Entries<U>(keys: seq<Option<string>>, values: seq<U>): (t: seq<Entry<U>>)
    requires |keys| == |values|
    ensures |t| == |keys|
    ensures forall i :: 0 <= i < |t| ==> t[i] == Entry(keys[i], values[i])
    ensures KeysOf(t) == keys
  {
    if |keys| == 0 then []
    else Entries(keys[..|keys| - 1], values[..|values| - 1]) + [Entry(keys[|keys| - 1], values[|values| - 1])]
  }

  /** The position of the first item filed under `key`, if any. */
  function IndexOf(keys: seq<Option<string>>, key: string): (r: Option<nat>)
    ensures r.None? <==> Some(key) !in keys
    ensures r.Some? ==> r.value < |keys| && keys[r.value] == Some(key)
    ensures r.Some? ==> Some(key) !in keys[..r.value]
  {
    if |keys| == 0 then None
    else if keys[0] == Some(key) then Some(0)
    else match IndexOf(keys[1..], key)
      case None => None
      case Some(i) =>
        assert keys[..i + 1] == [keys[0]] + keys[1..][..i];
        Some(i + 1)
  }

  /** With unique keys, the item filed under a key is the only one. */
  lemma IndexOfUnique(keys: seq<Option<string>>, i: nat)
    requires UniqueKeys(keys)
    requires i < |keys| && keys[i].Some?
    ensures IndexOf(keys, keys[i].value) == Some(i)
  {
  }

  /** The value filed under `key`, as the collection's indexer finds it. */
  function Find<T>(entries: seq<Entry<T>>, key: string): (r: Option<T>)
    ensures r.None? <==> forall i :: 0 <= i < |entries| ==> entries[i].key != Some(key)
    ensures r.Some? ==> Entry(Some(key), r.value) in entries
  {
    var keys := KeysOf(entries);
    match IndexOf(keys, key)
    case None =>
      assert forall i :: 0 <= i < |entries| ==> keys[i] != Some(key);
      None
    case Some(i) => Some(entries[i].value)
  }

  /** The indexer finds the first entry filed under the key; with unique keys, the only one. */
  lemma FindIsFirst<T>(entries: seq<Entry<T>>, key: string)
    ensures Find(entries, key).Some? ==>
      exists i :: 0 <= i < |entries| && entries[i] == Entry(Some(key), Find(entries, key).value) &&
                  forall j :: 0 <= j < i ==> entries[j].key != Some(key)
    ensures UniqueKeys(KeysOf(entries)) ==>
      forall i :: 0 <= i < |entries| && entries[i].key == Some(key) ==> Find(entries, key) == Some(entries[i].value)
  {
    var keys := KeysOf(entries);
    var found := IndexOf(keys, key);
    if found.Some? {
      var i := found.value;
      assert entries[i] == Entry(Some(key), Find(entries, key).value);
      assert forall j :: 0 <= j < i ==> keys[j] != Some(key);
    }
    if UniqueKeys(keys) {
      forall i | 0 <= i < |entries| && entries[i].key == Some(key)
        ensures Find(entries, key) == Some(entries[i].value)
      {
        IndexOfUnique(keys, i);
      }
    }
  }

  /** Appending an item under a null or fresh key keeps the keys unique. */
  lemma AppendKeepsUnique(keys: seq<Option<string>>, key: Option<string>)
    requires UniqueKeys(keys)
    requires key.None? || key !in keys
    ensures UniqueKeys(keys + [key])
  {
    var s := keys + [key];
    forall i, j | 0 <= i < j < |s| && s[i].Some?
      ensures s[i] != s[j]
    {
      if j == |keys| {
        assert s[i] == keys[i];
      }
    }
  }

  function RemoveAt<T>(s: seq<T>, i: nat): (r: seq<T>)
    requires i < |s|
    ensures |r| == |s| - 1
    ensures forall j :: 0 <= j < i ==> r[j] == s[j]
    ensures forall j :: i <= j < |r| ==> r[j] == s[j + 1]
  {
    s[..i] + s[i + 1..]
  }

  /** Removing an item keeps the remaining keys unique. */
  lemma RemoveKeepsUnique(keys: seq<Option<string>>, i: nat)
    requires UniqueKeys(keys)
    requires i < |keys|
    ensures UniqueKeys(RemoveAt(keys, i))
  {
    var s := RemoveAt(keys, i);
    forall a, b | 0 <= a < b < |s| && s[a].Some?
      ensures s[a] != s[b]
    {
      var a' := if a < i then a else a + 1;
      var b' := if b < i then b else b + 1;
      assert s[a] == keys[a'] && s[b] == keys[b'];
    }
  }
}
