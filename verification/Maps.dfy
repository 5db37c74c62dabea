/** Finite maps given by their keys. */
module Maps {
  /** Some key, the same one every time. */
  ghost function Pick<K>(keys: set<K>): (k: K)
    requires keys != {}
    ensures k in keys
  {
    var k :| k in keys; k
  }

  /** The map that has one value under every key. */
  ghost function Constant<K, V>(keys: set<K>, v: V): (m: map<K, V>)
    ensures m.Keys == keys && forall k :: k in m ==> m[k] == v
  {
    if keys == {} then map[]
    else
      var k := Pick(keys);
      Constant(keys - {k}, v)[k := v]
  }

  lemma {:induction false} ConstantUnique<K, V>(m: map<K, V>, keys: set<K>, v: V)
    requires m.Keys == keys && forall k :: k in m ==> m[k] == v
    ensures m == Constant(keys, v)
  {
  }
}
