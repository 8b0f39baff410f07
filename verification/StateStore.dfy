/** The versioned key-value host: what one call does to the stored instances. */
module StateStore {
  import opened Bytes

  type Key = string
  type Value = string

  /** A stored instance; versions are issued from a sequence and identify instances. */
  datatype Cell = Cell(value: Value, version: nat)
  datatype Store = Store(cells: map<Key, Cell>, sequence: nat)

  datatype Action =
    | Get(key: Key)
    | Take(key: Key)
    | Cas(key: Key, version: nat, value: Value)
    | Delete(key: Key, version: nat)
    | GetMany(keys: seq<Key>)
    | Unsupported

  datatype Reply =
    | Instance(found: bool, value: Value, version: nat)
    | Swap(swapped: bool, issued: Option<nat>)
    | Deleted
    | Values(values: map<Key, Value>)
    | Refused

  const EMPTY := Store(map[], 0)

  /** Absent keys read as the empty string, all at version 0. */
  function ReadValue(st: Store, key: Key): Value {
    if key in st.cells then st.cells[key].value else ""
  }

  function VersionOf(st: Store, key: Key): nat {
    if key in st.cells then st.cells[key].version else 0
  }

  function Look(st: Store, key: Key): Reply {
    Instance(key in st.cells, ReadValue(st, key), VersionOf(st, key))
  }

  function Put(st: Store, key: Key, value: Value): Store {
    Store(st.cells[key := Cell(value, st.sequence + 1)], st.sequence + 1)
  }

  function Remove(st: Store, key: Key): Store {
    st.(cells := st.cells - {key})
  }

  function Apply(st: Store, a: Action): (Store, Reply) {
    match a
    case Get(key) => (st, Look(st, key))
    case Take(key) => (Remove(st, key), Look(st, key))
    case Cas(key, version, value) =>
      if version == VersionOf(st, key) then (Put(st, key, value), Swap(true, Some(st.sequence + 1)))
      else (st, Swap(false, None))
    case Delete(key, version) =>
      (if version == VersionOf(st, key) then Remove(st, key) else st, Deleted)
    case GetMany(keys) => (st, Values(map k | k in keys && k in st.cells :: st.cells[k].value))
    case Unsupported => (st, Refused)
  }

  /** Live versions come from the sequence and are pairwise different. */
  ghost predicate WellFormed(st: Store) {
    && (forall k :: k in st.cells ==> 1 <= st.cells[k].version <= st.sequence)
    && (forall k, l :: k in st.cells && l in st.cells && k != l ==> st.cells[k].version != st.cells[l].version)
  }

  lemma ApplyKeepsWellFormed(st: Store, a: Action)
    requires WellFormed(st)
    ensures WellFormed(Apply(st, a).0)
  {
  }

  lemma PutKeepsWellFormed(st: Store, key: Key, value: Value)
    requires WellFormed(st)
    ensures WellFormed(Put(st, key, value))
  {
  }

  /** A look at many keys finds exactly those that are stored, with their values, and changes nothing. */
  lemma ManyAreFound(st: Store, keys: seq<Key>, key: Key)
    ensures var (after, reply) := Apply(st, GetMany(keys));
            && after == st && reply.Values?
            && (key in reply.values <==> key in keys && key in st.cells)
            && (key in reply.values ==> reply.values[key] == ReadValue(st, key))
  {
  }

  /** The host itself: two maps and a counter, updated in place under one lock. */
  class State {
    var values: map<Key, Value>
    var versions: map<Key, nat>
    var sequence: nat

    ghost predicate Valid()
      reads this
    {
      && values.Keys == versions.Keys
      && WellFormed(Abs())
    }

    ghost function Abs(): Store
      reads this
    {
      Store(map k | k in values && k in versions :: Cell(values[k], versions[k]), sequence)
    }

    constructor ()
      ensures Valid() && Abs() == EMPTY
    {
      values, versions, sequence := map[], map[], 0;
    }

    /** A call with a cancelled context fails before it touches anything. */
    method Invoke(cancelled: bool, action: Action) returns (reply: Reply)
      requires Valid()
      modifies this
      ensures Valid()
      ensures cancelled ==> reply == Refused && Abs() == old(Abs())
      ensures !cancelled ==> (Abs(), reply) == Apply(old(Abs()), action)
    {
      if cancelled {
        return Refused;
      }
      match action {
        case Get(key) =>
          reply := Lookup(key);
        case Take(key) =>
          reply := Lookup(key);
          Drop(key);
        case Cas(key, version, value) =>
          var current := Lookup(key);
          if version != current.version {
            reply := Swap(false, None);
          } else {
            Assign(key, value);
            reply := Swap(true, Some(versions[key]));
          }
        case Delete(key, version) =>
          var current := Lookup(key);
          if version == current.version {
            Drop(key);
          }
          reply := Deleted;
        case GetMany(keys) =>
          reply := LookupMany(keys);
        case Unsupported =>
          reply := Refused;
      }
    }

    method Assign(key: Key, value: Value)
      requires Valid()
      modifies this
      ensures Valid() && Abs() == Put(old(Abs()), key, value)
      ensures key in versions && versions[key] == old(sequence) + 1
    {
      PutKeepsWellFormed(Abs(), key, value);
      sequence := sequence + 1;
      values := values[key := value];
      versions := versions[key := sequence];
      assert Abs().cells == Put(old(Abs()), key, value).cells;
    }

    method Drop(key: Key)
      requires Valid()
      modifies this
      ensures Valid() && Abs() == Remove(old(Abs()), key)
    {
      values := values - {key};
      versions := versions - {key};
      assert Abs().cells == Remove(old(Abs()), key).cells;
    }

    method Lookup(key: Key) returns (reply: Reply)
      requires Valid()
      ensures reply == Look(Abs(), key)
    {
      if key in values {
        reply := Instance(true, values[key], versions[key]);
      } else {
        reply := Instance(false, "", 0);
      }
    }

    method LookupMany(keys: seq<Key>) returns (reply: Reply)
      requires Valid()
      ensures reply == Apply(Abs(), GetMany(keys)).1
    {
      var found: map<Key, Value> := map[];
      for i := 0 to |keys|
        invariant found == map k | k in keys[..i] && k in values :: values[k]
      {
        if keys[i] in values {
          found := found[keys[i] := values[keys[i]]];
        }
      }
      assert keys[..|keys|] == keys;
      reply := Values(found);
    }
  }
}
