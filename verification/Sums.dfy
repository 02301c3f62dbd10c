/** Sums over the values of a map. */
module Sums {
  ghost function Pick<K, V>(m: map<K, V>): (k: K)
    requires |m| != 0
    ensures k in m
  {
    var k :| k in m;
    k
  }

  ghost function Total<K, V>(m: map<K, V>, f: V -> nat): nat
    decreases |m|
  {
    if |m| == 0 then 0 else f(m[Pick(m)]) + Total(m - {Pick(m)}, f)
  }

  lemma {:induction false} TotalWithout<K, V>(m: map<K, V>, f: V -> nat, k: K)
    requires k in m
    ensures Total(m, f) == f(m[k]) + Total(m - {k}, f)
    decreases |m|
  {
    var p := Pick(m);
    var rest := m - {p};
    assert Total(m, f) == f(m[p]) + Total(rest, f);
    if k != p {
      hide Total;
      TotalWithout(rest, f, k);
      TotalWithout(m - {k}, f, p);
      assert m - {k} - {p} == rest - {k};
    }
  }

  /** Replacing one value, or adding one. */
  lemma TotalReplaced<K, V>(m: map<K, V>, f: V -> nat, k: K, v: V)
    ensures Total(m[k := v], f) == Total(m, f) + f(v) - (if k in m then f(m[k]) else 0)
  {
    hide Total;
    TotalWithout(m[k := v], f, k);
    assert m[k := v] - {k} == m - {k};
    if k in m {
      TotalWithout(m, f, k);
    } else {
      assert m - {k} == m;
    }
  }
}
