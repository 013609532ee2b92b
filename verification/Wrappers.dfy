/** The optional value that stands for the source's `(value, ok)` results and nullable references. */
module Wrappers {
  datatype Option<+T> = None | Some(value: T)

  /** Looks a key up, as the `(value, ok)` pair the source's tables return. */
  function Find<K, V>(m: map<K, V>, key: K): Option<V> {
    if key in m then Some(m[key]) else None
  }

  /** `ks` visits every element of `keys` once: the order a table's Range happens to take. */
  ghost predicate Enumerates<K>(ks: seq<K>, keys: set<K>) {
    && (forall k :: k in ks ==> k in keys)
    && (forall k :: k in keys ==> k in ks)
    && (forall i, j :: 0 <= i < j < |ks| ==> ks[i] != ks[j])
  }
}
