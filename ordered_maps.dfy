/** Python's `OrderedDict`: a map that remembers the order in which keys were first inserted. */
module OrderedMaps {
  import opened Seqs

  datatype OrderedMap<K(==), V> = OrderedMap(keys: seq<K>, entries: map<K, V>)
  {
    /** Every key occurs once in the insertion order, and exactly the keys of `entries` occur. */
    predicate Valid()
    {
      Distinct(keys) && (forall k :: k in entries ==> k in keys) && (forall k :: k in keys ==> k in entries)
    }

    /** `d[k] = v`: a new key goes to the end of the order, an existing key keeps its place. */
    function Put(k: K, v: V): (m: OrderedMap<K, V>)
      requires Valid()
      ensures m.Valid()
      ensures m.entries == entries[k := v]
      ensures m.keys == if k in entries then keys else keys + [k]
    {
      if k in entries then OrderedMap(keys, entries[k := v])
      else OrderedMap(keys + [k], entries[k := v])
    }

    /** `d.values()`: the values in insertion order of their keys. */
    function Values(): (vs: seq<V>)
      requires Valid()
      ensures |vs| == |keys|
      ensures forall i :: 0 <= i < |keys| ==> vs[i] == entries[keys[i]]
    {
      seq(|keys|, i requires 0 <= i < |keys| => entries[keys[i]])
    }
  }

  /** An ordered map in its valid state: the type of every `OrderedDict` in the model. */
  type OrderedDict<K(==), V> = m: OrderedMap<K, V> | m.Valid() witness OrderedMap([], map[])

  function EmptyMap<K(==), V>(): (m: OrderedDict<K, V>)
    ensures m.Valid() && m.keys == [] && m.entries == map[]
  {
    OrderedMap([], map[])
  }
}
