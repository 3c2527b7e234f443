/** Optional values, standing for Java's `Optional` and for a `null` that means "absent". */
module Wrappers {

  datatype Option<+T> = None | Some(value: T)

  /** `m.get(k)` of a Java map: the bound value, or nothing. */
  function Get<K, V>(m: map<K, V>, k: K): (r: Option<V>)
    ensures r.Some? <==> k in m
    ensures r.Some? ==> r.value == m[k]
  {
    if k in m then Some(m[k]) else None
  }
}
