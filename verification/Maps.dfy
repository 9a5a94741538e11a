/** Looking things up in maps. */
module Maps {
  import opened Text

  function Get<K(==), V>(m: map<K, V>, k: K): Option<V> { if k in m then Some(m[k]) else None }

  /** A map is what its lookups find. */
  lemma SameMap<K, V>(m: map<K, V>, n: map<K, V>)
    requires forall k :: Get(m, k) == Get(n, k)
    ensures m == n
  {
    assert forall k | k in m :: Get(n, k) == Get(m, k);
    assert forall k | k in n :: Get(m, k) == Get(n, k);
  }
}
