/** Facts about sequences and maps that the proofs of the imperative loops use. */
module Collections {
  /** Concatenation regroups freely; stated once so that loop proofs need not rediscover it. */
  lemma Associative<T>(a: seq<T>, b: seq<T>, c: seq<T>)
    ensures a + (b + c) == a + b + c
  {
  }

  /** Overwriting the entry of a key that is present keeps the key set. */
  lemma KeysAfterUpdate<K, V>(m: map<K, V>, k: K, v: V)
    requires k in m
    ensures m[k := v].Keys == m.Keys
  {
  }
}
