/** Sums over finite maps, independent of any order of their keys. */
module Sums {

  ghost function Total<K(!new)>(m: map<K, nat>): nat {
    if m == map[] then 0 else
      var k :| k in m;
      m[k] + Total(m - {k})
  }

  lemma {:induction false} TotalRemove<K(!new)>(m: map<K, nat>, k: K)
    requires k in m
    ensures Total(m) == m[k] + Total(m - {k})
    decreases |m|
  {
    var j :| j in m && Total(m) == m[j] + Total(m - {j});
    if j != k {
      TotalRemove(m - {j}, k);
      TotalRemove(m - {k}, j);
      assert m - {j} - {k} == m - {k} - {j};
    }
  }

  lemma TotalEmpty<K(!new)>()
    ensures Total<K>(map[]) == 0
  {
  }

  lemma TotalPut<K(!new)>(m: map<K, nat>, k: K, v: nat)
    requires k !in m
    ensures Total(m[k := v]) == Total(m) + v
  {
    hide Total;
    TotalRemove(m[k := v], k);
    assert m[k := v] - {k} == m;
  }

  /** Replacing one value changes the sum by the difference. */
  lemma TotalUpdate<K(!new)>(m: map<K, nat>, k: K, v: nat)
    requires k in m
    ensures Total(m[k := v]) == Total(m) - m[k] + v
  {
    hide Total;
    TotalRemove(m[k := v], k);
    TotalRemove(m, k);
    assert m[k := v] - {k} == m - {k};
  }

  /** The part of `m` inside `s`. */
  function Restrict<K, V>(m: map<K, V>, s: set<K>): map<K, V> {
    map k | k in m && k in s :: m[k]
  }

  lemma {:induction false} TotalSplit<K(!new)>(m: map<K, nat>, s: set<K>)
    ensures Total(m) == Total(Restrict(m, s)) + Total(m - s)
    decreases |m|
  {
    hide Total;
    TotalEmpty<K>();
    if m != map[] {
      var k :| k in m;
      TotalRemove(m, k);
      TotalSplit(m - {k}, s);
      var inside, outside := Restrict(m, s), m - s;
      if k in s {
        TotalRemove(inside, k);
        assert inside - {k} == Restrict(m - {k}, s);
        assert outside == (m - {k}) - s;
      } else {
        TotalRemove(outside, k);
        assert outside - {k} == (m - {k}) - s;
        assert inside == Restrict(m - {k}, s);
      }
    } else {
      assert Restrict(m, s) == map[] && m - s == map[];
    }
  }

  /** `k in m` counts `m[k]`, any other key counts nothing. */
  function At<K>(m: map<K, nat>, k: K): nat {
    if k in m then m[k] else 0
  }

  lemma {:induction false} TotalOfZeros<K(!new)>(m: map<K, nat>)
    requires forall k :: k in m ==> m[k] == 0
    ensures Total(m) == 0
    decreases |m|
  {
    hide Total;
    TotalEmpty<K>();
    if m != map[] {
      var k :| k in m;
      TotalRemove(m, k);
      TotalOfZeros(m - {k});
    }
  }

  /** Two maps that agree up to zero entries have the same sum. */
  lemma TotalSameUpToZeros<K(!new)>(m: map<K, nat>, m': map<K, nat>)
    requires forall k :: At(m, k) == At(m', k)
    ensures Total(m) == Total(m')
  {
    hide Total;
    var s := set k | k in m && m[k] > 0;
    TotalSplit(m, s);
    TotalSplit(m', s);
    forall k | k in m - s ensures m[k] == 0 {
    }
    forall k | k in m' - s ensures m'[k] == 0 {
      assert At(m, k) == At(m', k);
    }
    TotalOfZeros(m - s);
    TotalOfZeros(m' - s);
    forall k ensures k in Restrict(m, s) <==> k in Restrict(m', s) {
      assert At(m, k) == At(m', k);
    }
    forall k | k in Restrict(m, s) ensures m[k] == m'[k] {
      assert At(m, k) == At(m', k);
    }
    assert Restrict(m, s) == Restrict(m', s);
  }

  /** Adding two maps pointwise adds their sums. */
  lemma {:induction false} TotalPointwise<K(!new)>(a: map<K, nat>, b: map<K, nat>, c: map<K, nat>)
    requires forall k :: At(c, k) == At(a, k) + At(b, k)
    ensures Total(c) == Total(a) + Total(b)
    decreases |a|
  {
    hide Total;
    TotalEmpty<K>();
    if a == map[] {
      forall k ensures At(c, k) == At(b, k) {
        assert At(c, k) == At(a, k) + At(b, k);
      }
      TotalSameUpToZeros(c, b);
    } else {
      var k :| k in a;
      var a', b', c' := a - {k}, b - {k}, c - {k};
      forall j ensures At(c', j) == At(a', j) + At(b', j) {
        assert At(c, j) == At(a, j) + At(b, j);
      }
      TotalPointwise(a', b', c');
      TotalDrop(a, k);
      TotalDrop(b, k);
      TotalDrop(c, k);
      assert At(c, k) == At(a, k) + At(b, k);
    }
  }

  lemma TotalDrop<K(!new)>(m: map<K, nat>, k: K)
    ensures Total(m) == At(m, k) + Total(m - {k})
  {
    if k in m {
      TotalRemove(m, k);
    } else {
      assert m - {k} == m;
    }
  }
}
