/** What every component shares: optional values, table look-up and the size of a part. */
module Wrappers {

  datatype Option<+T> = None | Some(value: T)

  function Get<K(==), V>(table: map<K, V>, key: K): Option<V> {
    if key in table then Some(table[key]) else None
  }

  lemma {:induction false} SubsetIsSmaller<T>(a: set<T>, b: set<T>)
    requires a <= b
    ensures |a| <= |b|
  {
    assert b == a + (b - a);
  }
}
