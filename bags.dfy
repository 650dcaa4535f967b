/** The values of a map counted with their multiplicity: what reading back
    every file of a directory gives when the order of the listing is not
    known. */
module Bags {

  ghost function Pick<K, V>(m: map<K, V>): (k: K)
    requires m != map[]
    ensures k in m
  {
    var k :| k in m; k
  }

  lemma RemoveSmaller<K, V>(m: map<K, V>, k: K)
    requires k in m
    ensures |m - {k}| < |m|
  {
    assert (m - {k}).Keys == m.Keys - {k};
  }

  /** The values of `m`, one per key. */
  ghost function Bag<K, V>(m: map<K, V>): multiset<V>
    decreases |m|
  {
    if m == map[] then multiset{}
    else
      var k := Pick(m);
      RemoveSmaller(m, k);
      multiset{m[k]} + Bag(m - {k})
  }

  lemma BagUnfold<K, V>(m: map<K, V>)
    requires m != map[]
    ensures Bag(m) == multiset{m[Pick(m)]} + Bag(m - {Pick(m)})
  {
  }

  lemma SwapRemove<K, V>(m: map<K, V>, j: K, k: K)
    ensures m - {j} - {k} == m - {k} - {j}
  {
  }

  /** Taking the files in any order gives the same multiset. */
  lemma {:induction false} BagRemove<K, V>(m: map<K, V>, k: K)
    requires k in m
    ensures Bag(m) == multiset{m[k]} + Bag(m - {k})
    decreases |m|
  {
    var j := Pick(m);
    BagUnfold(m);
    if j != k {
      var mj, mk := m - {j}, m - {k};
      RemoveSmaller(m, j);
      RemoveSmaller(m, k);
      assert k in mj && mj[k] == m[k];
      assert j in mk && mk[j] == m[j];
      BagRemove(mj, k);
      BagRemove(mk, j);
      SwapRemove(m, j, k);
    }
  }

  /** A value is in the bag exactly when some key holds it. */
  lemma {:induction false} BagMembers<K, V>(m: map<K, V>, v: V)
    ensures v in Bag(m) <==> exists k :: k in m && m[k] == v
    decreases |m|
  {
    if m != map[] {
      var j := Pick(m);
      BagUnfold(m);
      RemoveSmaller(m, j);
      BagMembers(m - {j}, v);
      if v in Bag(m) && m[j] != v {
        var k :| k in m - {j} && (m - {j})[k] == v;
        assert k in m && m[k] == v;
      }
      if v !in Bag(m) {
        forall k | k in m
          ensures m[k] != v
        {
          if k != j {
            assert k in m - {j};
          }
        }
      }
    }
  }

  /** A map that holds every entry of `m0` has every value of `m0` in its bag,
      at least as often. */
  lemma {:induction false} BagSubmap<K, V>(m0: map<K, V>, m: map<K, V>)
    requires forall k :: k in m0 ==> k in m && m[k] == m0[k]
    ensures Bag(m0) <= Bag(m)
    decreases |m0|
  {
    if m0 != map[] {
      var k := Pick(m0);
      BagUnfold(m0);
      BagRemove(m, k);
      RemoveSmaller(m0, k);
      BagSubmap(m0 - {k}, m - {k});
    }
  }

  /** Writing a new file adds its value to the bag. */
  lemma BagAdd<K, V>(m: map<K, V>, k: K, v: V)
    requires k !in m
    ensures Bag(m[k := v]) == Bag(m) + multiset{v}
  {
    BagRemove(m[k := v], k);
    assert m[k := v] - {k} == m;
  }
}
