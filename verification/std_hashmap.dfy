/** `HashMap<K, V>`: each key is associated with at most one value.

    The hashing and the iteration order, which Rust leaves arbitrary, are
    not modelled: the entries are a Dafny `map`. */
module StdHashMap {
  import opened Prim

  class HashMap<K(==), V> {
    var entries: map<K, V>

    /** `HashMap::new()`: no entries. */
    constructor New()
      ensures entries == map[]
    {
      entries := map[];
    }

    /** `get(k)`: the value stored under `k`, if any. */
    function Get(k: K): (r: Option<V>)
      reads this
      ensures r.Some? <==> k in entries
      ensures r.Some? ==> r.value == entries[k]
    {
      if k in entries then Some(entries[k]) else None
    }

    /** `insert(k, v)`: `k` now maps to `v`, replacing any earlier value,
        which is returned; every other key keeps its value. */
    method Insert(k: K, v: V) returns (previous: Option<V>)
      modifies this
      ensures entries == old(entries)[k := v]
      ensures previous == old(Get(k))
    {
      previous := Get(k);
      entries := entries[k := v];
    }

    /** `*entry(k).or_insert(default)`: inserts `default` only when `k` is
        absent, and gives the value now stored under `k`. */
    method EntryOrInsert(k: K, default: V) returns (v: V)
      modifies this
      ensures k in old(entries) ==> entries == old(entries) && v == old(entries)[k]
      ensures k !in old(entries) ==> entries == old(entries)[k := default] && v == default
    {
      if k !in entries {
        entries := entries[k := default];
      }
      v := entries[k];
    }
  }
}
