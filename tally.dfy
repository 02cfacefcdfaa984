/**
 * Count records such as `byGrade[g] = (byGrade[g] || 0) + 1`, and the sum
 * of all their values.
 */
module Tally {

  /** The sum of the values of a finite map, taken in no particular order. */
  ghost function SumValues<K>(m: map<K, int>): int
  {
    SumOver(m, m.Keys)
  }

  /** The sum of the values of m at the keys ks. */
  ghost function SumOver<K>(m: map<K, int>, ks: set<K>): int
    requires ks <= m.Keys
  {
    if ks == {} then 0
    else
      var k :| k in ks;
      m[k] + SumOver(m, ks - {k})
  }

  /** The sum does not depend on which key is taken out first. */
  lemma {:induction false} SumOverRemove<K>(m: map<K, int>, ks: set<K>, j: K)
    requires ks <= m.Keys && j in ks
    ensures SumOver(m, ks) == m[j] + SumOver(m, ks - {j})
  {
    var k :| k in ks && SumOver(m, ks) == m[k] + SumOver(m, ks - {k});
    if k != j {
      assert ks - {k} - {j} == ks - {j} - {k};
      SumOverRemove(m, ks - {k}, j);
      SumOverRemove(m, ks - {j}, k);
    }
  }

  /** Only the values at the keys summed matter. */
  lemma {:induction false} SumOverAgree<K>(m: map<K, int>, n: map<K, int>, ks: set<K>)
    requires ks <= m.Keys && ks <= n.Keys
    requires forall k :: k in ks ==> m[k] == n[k]
    ensures SumOver(m, ks) == SumOver(n, ks)
  {
    if ks != {} {
      var k :| k in ks && SumOver(m, ks) == m[k] + SumOver(m, ks - {k});
      SumOverRemove(n, ks, k);
      SumOverAgree(m, n, ks - {k});
    }
  }

  /** The count record after counting one more occurrence of k. */
  function Bump<K>(m: map<K, int>, k: K): (r: map<K, int>)
    ensures r.Keys == m.Keys + {k}
    ensures r[k] == (if k in m then m[k] else 0) + 1
    ensures forall j :: j in m && j != k ==> r[j] == m[j]
  {
    m[k := (if k in m then m[k] else 0) + 1]
  }

  lemma SumValuesBump<K>(m: map<K, int>, k: K)
    ensures SumValues(Bump(m, k)) == SumValues(m) + 1
  {
    var r := Bump(m, k);
    var rest := m.Keys - {k};
    SumOverRemove(r, r.Keys, k);
    assert r.Keys - {k} == rest;
    SumOverAgree(r, m, rest);
    if k in m {
      SumOverRemove(m, m.Keys, k);
    } else {
      assert m.Keys == rest;
    }
  }
}
