/** Small notions that several modules share. */
module Common {
  /** The states that error-free runs pass through, oldest first. */
  datatype Trail<S> = Begin(db: S) | Next(prev: Trail<S>, db: S)

  function Length<S>(c: Trail<S>): nat { if c.Begin? then 0 else Length(c.prev) + 1 }

  function Origin<S>(c: Trail<S>): S { if c.Begin? then c.db else Origin(c.prev) }

  /** A map without some of its keys, as a loop over its keys has left it. */
  ghost function Except<K, V>(m: map<K, V>, keys: set<K>): map<K, V> { m - keys }

  lemma ExceptStep<K, V>(m: map<K, V>, keys: set<K>, k: K)
    requires k in m && k in keys
    ensures Except(m, keys - {k}) == Except(m, keys)[k := m[k]]
  {}
}
