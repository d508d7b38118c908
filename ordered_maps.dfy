/** PHP arrays used as dictionaries: the keys in insertion order, and the
    value under each key. Assigning to a key that is already present
    replaces its value and keeps its position; assigning to a new key adds
    it at the end. */
module OrderedMaps {

  datatype OMap<K, V> = OMap(keys: seq<K>, vals: map<K, V>)

  function Empty<K, V>(): OMap<K, V> {
    OMap([], map[])
  }

  /** No key appears twice in the order, and the order lists exactly the
      keys that have a value: true of every PHP array. */
  predicate Valid<K(==), V>(m: OMap<K, V>) {
    && Distinct(m.keys)
    && Listed(m)
    && (forall k :: k in m.vals ==> k in m.keys)
  }

  predicate Distinct<K(==)>(ks: seq<K>) {
    forall i, j :: 0 <= i < j < |ks| ==> ks[i] != ks[j]
  }

  /** Every key of the order has a value. */
  predicate Listed<K(==), V>(m: OMap<K, V>) {
    forall i :: 0 <= i < |m.keys| ==> m.keys[i] in m.vals
  }

  /** The two arrays have the same keys and values, except perhaps at `k`. */
  ghost predicate AgreeExcept<K(!new), V>(m: OMap<K, V>, m': OMap<K, V>, k: K) {
    forall k' :: k' != k ==>
      && (k' in m.vals <==> k' in m'.vals)
      && (k' in m.vals ==> m.vals[k'] == m'.vals[k'])
  }

  /** `$m[$k] = $v`. */
  function Put<K(==), V>(m: OMap<K, V>, k: K, v: V): (r: OMap<K, V>)
    ensures k in r.vals && r.vals[k] == v
  {
    if k in m.vals then OMap(m.keys, m.vals[k := v])
    else OMap(m.keys + [k], m.vals[k := v])
  }

  /** Assigning to a key: the key now holds v, every other key keeps its
      value, the order of the keys is kept and a new key comes last. */
  lemma PutFrame<K(!new), V>(m: OMap<K, V>, k: K, v: V)
    ensures AgreeExcept(m, Put(m, k, v), k)
    ensures Put(m, k, v).keys == if k in m.vals then m.keys else m.keys + [k]
  {
  }

  /** Assigning to a key keeps an array valid. */
  lemma PutValid<K, V>(m: OMap<K, V>, k: K, v: V)
    requires Valid(m)
    ensures Valid(Put(m, k, v))
  {
  }

  /** In a valid array, every key with a value sits at exactly one
      position of the order. */
  lemma KeyPosition<K, V>(m: OMap<K, V>, k: K) returns (i: nat)
    requires Valid(m) && k in m.vals
    ensures i < |m.keys| && m.keys[i] == k
    ensures forall j :: 0 <= j < |m.keys| && m.keys[j] == k ==> j == i
  {
    i :| 0 <= i < |m.keys| && m.keys[i] == k;
  }
}
