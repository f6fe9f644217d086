/** Totals over finite maps: the measures and degree counts of the other modules. */
module Sums {
  ghost function AnyKey<K>(m: map<K, nat>): (k: K)
    requires m != map[]
    ensures k in m
  {
    assert m.Keys != {};
    var k :| k in m.Keys;
    k
  }

  ghost function Total<K>(m: map<K, nat>): nat
    decreases |m|
  {
    if m == map[] then 0 else m[AnyKey(m)] + Total(m - {AnyKey(m)})
  }

  lemma {:induction false} TotalRemove<K>(m: map<K, nat>, k: K)
    requires k in m
    ensures Total(m) == m[k] + Total(m - {k})
    decreases |m|
  {
    var j := AnyKey(m);
    if j != k {
      assert k in m - {j} && j in m - {k};
      TotalRemove(m - {j}, k);
      assert (m - {j}) - {k} == (m - {k}) - {j};
      TotalRemove(m - {k}, j);
    }
  }

  lemma TotalUpdate<K>(m: map<K, nat>, k: K, v: nat)
    ensures Total(m[k := v]) == v + Total(m - {k})
    ensures k in m ==> Total(m[k := v]) + m[k] == v + Total(m)
    ensures k !in m ==> Total(m[k := v]) == v + Total(m)
  {
    TotalRemove(m[k := v], k);
    assert m[k := v] - {k} == m - {k};
    if k in m {
      TotalRemove(m, k);
    } else {
      assert m - {k} == m;
    }
  }

  lemma {:induction false} TotalMonotone<K>(m: map<K, nat>, n: map<K, nat>)
    requires m.Keys <= n.Keys
    requires forall k :: k in m ==> m[k] <= n[k]
    ensures Total(m) <= Total(n)
    decreases |m|
  {
    if m != map[] {
      var k := AnyKey(m);
      TotalRemove(m, k);
      TotalRemove(n, k);
      TotalMonotone(m - {k}, n - {k});
    }
  }

  lemma {:induction false} TotalZero<K>(m: map<K, nat>)
    ensures Total(m) == 0 <==> forall k :: k in m ==> m[k] == 0
    decreases |m|
  {
    if m != map[] {
      var k := AnyKey(m);
      TotalRemove(m, k);
      TotalZero(m - {k});
      assert forall j :: j in m && j != k ==> m[j] == (m - {k})[j];
    }
  }

  /** Two maps with the same keys whose values differ only at k. */
  lemma TotalChangeAt<K>(m: map<K, nat>, n: map<K, nat>, k: K)
    requires m.Keys == n.Keys && k in m
    requires forall j :: j in m && j != k ==> m[j] == n[j]
    ensures Total(n) + m[k] == Total(m) + n[k]
  {
    assert n == m[k := n[k]];
    TotalUpdate(m, k, n[k]);
  }
}
