/** Two-level indexes as the source keeps them: a map from a key to a set, without empty sets. */
module Index {
  /** Reading an index: a missing key reads as the empty set. */
  function At<K, V>(m: map<K, set<V>>, k: K): set<V> {
    if k in m then m[k] else {}
  }

  function AddTo<K, V>(m: map<K, set<V>>, k: K, v: V): map<K, set<V>> {
    m[k := At(m, k) + {v}]
  }

  /** Removing a value; a key whose set becomes empty goes too. */
  function RemoveFrom<K, V>(m: map<K, set<V>>, k: K, v: V): map<K, set<V>> {
    var rest := At(m, k) - {v};
    if rest == {} then m - {k} else m[k := rest]
  }

  /** Moving everything listed under `was` to `now`; a missing key has nothing to move. */
  function MoveKey<K, V>(m: map<K, set<V>>, was: K, now: K): map<K, set<V>> {
    if was in m then m[now := At(m, now) + m[was]] - {was} else m
  }

  /** An index keeps no key without values. */
  ghost predicate NoEmpty<K, V>(m: map<K, set<V>>) {
    forall k | k in m :: m[k] != {}
  }

  lemma AtAddTo<K(!new), V>(m: map<K, set<V>>, k: K, v: V)
    ensures forall x :: At(AddTo(m, k, v), x) == if x == k then At(m, k) + {v} else At(m, x)
    ensures NoEmpty(m) ==> NoEmpty(AddTo(m, k, v))
  {
  }

  lemma AtRemoveFrom<K(!new), V>(m: map<K, set<V>>, k: K, v: V)
    ensures forall x :: At(RemoveFrom(m, k, v), x) == if x == k then At(m, k) - {v} else At(m, x)
    ensures NoEmpty(m) ==> NoEmpty(RemoveFrom(m, k, v))
  {
  }

  lemma AtMoveKey<K(!new), V>(m: map<K, set<V>>, was: K, now: K)
    requires was != now
    ensures forall x :: At(MoveKey(m, was, now), x) ==
                        if x == was then {} else if x == now then At(m, now) + At(m, was) else At(m, x)
    ensures NoEmpty(m) ==> NoEmpty(MoveKey(m, was, now))
  {
  }

  function Elements<T>(list: seq<T>): set<T> {
    set x | x in list
  }
}
