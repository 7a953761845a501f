/**
 * Python dictionaries with their insertion order: `d[k] = v` keeps the
 * position of a key already present and appends a new one.
 */
module Dicts {

  datatype Dict<K, V> = Dict(keys: seq<K>, values: map<K, V>)

  /** No key is listed twice. */
  predicate Distinct<K(==)>(ks: seq<K>) {
    forall i, j | 0 <= i < j < |ks| :: ks[i] != ks[j]
  }

  /** The key order lists each key of the dictionary exactly once. */
  ghost predicate Valid<K, V>(d: Dict<K, V>) {
    Distinct(d.keys) &&
    (forall k | k in d.values :: k in d.keys) && (forall k | k in d.keys :: k in d.values)
  }

  /** `{}` */
  function Empty<K(==), V>(): (d: Dict<K, V>)
    ensures Valid(d) && d.keys == []
  {
    Dict([], map[])
  }

  /** `d[k] = v` */
  function Assign<K(==), V>(d: Dict<K, V>, k: K, v: V): (r: Dict<K, V>)
    ensures r.values == d.values[k := v]
    ensures k in d.values ==> r.keys == d.keys
    ensures k !in d.values ==> r.keys == d.keys + [k]
  {
    if k in d.values then Dict(d.keys, d.values[k := v])
    else Dict(d.keys + [k], d.values[k := v])
  }

  /** Appending a key not yet listed keeps the keys distinct. */
  lemma DistinctAppend<K>(ks: seq<K>, k: K)
    requires Distinct(ks) && k !in ks
    ensures Distinct(ks + [k])
  {
    assert forall i | 0 <= i < |ks| :: (ks + [k])[i] == ks[i];
  }

  /** A key of a duplicate-free sequence does not occur before its own position. */
  lemma DistinctNotBefore<K>(ks: seq<K>, i: nat)
    requires Distinct(ks) && i < |ks|
    ensures ks[i] !in ks[..i]
  {
    assert forall j | 0 <= j < i :: ks[..i][j] == ks[j];
  }

  /** Assignment keeps the key order and the entries in step. */
  lemma AssignValid<K, V>(d: Dict<K, V>, k: K, v: V)
    requires Valid(d)
    ensures Valid(Assign(d, k, v))
  {
    if k !in d.values {
      DistinctAppend(d.keys, k);
    }
  }
}
