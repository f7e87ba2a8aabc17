/** `EmptyImmutableMap`: the immutable map from `Object` to `Object` with no entries.
    Keys and values are Java references, so `None` is `null`. */
module EmptyImmutableMap {
  import opened Wrappers

  /** A non-null Java object, told apart by its identity. */
  datatype Ref = Ref(id: nat)

  type Object = Option<Ref>

  /** An argument of `equals`, as far as it matters: a `Map` with its entries, or an
      object of another class. */
  datatype JavaObject = MapObject(entries: map<Object, Object>) | OtherObject

  function Get(key: Object): (value: Object)
    ensures value.None?
  {
    None
  }

  function Size(): (n: int)
    ensures n == 0
  {
    0
  }

  function IsEmpty(): (empty: bool)
    ensures empty
  {
    true
  }

  function ContainsKey(key: Object): (found: bool)
    ensures !found
  {
    false
  }

  function ContainsValue(value: Object): (found: bool)
    ensures !found
  {
    false
  }

  function KeySet(): (keys: set<Object>)
    ensures keys == {}
  {
    {}
  }

  function EntrySet(): (entries: set<(Object, Object)>)
    ensures entries == {}
  {
    {}
  }

  function Values(): (values: seq<Object>)
    ensures values == []
  {
    []
  }

  /** `isPartialView()`: the map owns no larger structure. */
  function IsPartialView(): (partial: bool)
    ensures !partial
  {
    false
  }

  /** `equals(o)`: true exactly for a `Map` that is empty. */
  function Equals(o: JavaObject): (equal: bool)
    ensures equal <==> o.MapObject? && o.entries == map[]
  {
    match o
    case MapObject(entries) => |entries| == 0
    case OtherObject => false
  }

  function HashCode(): (h: int)
    ensures h == 0
  {
    0
  }

  function ToString(): (s: string)
    ensures s == "{}"
  {
    "{}"
  }

  /** The answers agree with one another as the `Map` contract demands. */
  lemma MapContract(key: Object, value: Object)
    ensures Get(key).Some? ==> ContainsKey(key)
    ensures ContainsKey(key) <==> key in KeySet()
    ensures Size() == |KeySet()| == |EntrySet()|
    ensures IsEmpty() <==> Size() == 0
    ensures ContainsValue(value) <==> exists k :: (k, value) in EntrySet()
    ensures ContainsValue(value) <==> value in Values()
    ensures Equals(MapObject(map[])) && !Equals(MapObject(map[key := value]))
  {
    assert key in map[key := value];
  }
}
