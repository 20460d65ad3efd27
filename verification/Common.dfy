/** Small value types shared by the models. */
module Common {
  datatype Option<+T> = None | Some(value: T)

  /** The value stored under a key, if any. */
  function Find<K, V>(m: map<K, V>, k: K): Option<V> {
    if k in m then Some(m[k]) else None
  }
}
