// The total of a measure over a finite map's values, independent of any enumeration order.
module MapSum {

  ghost function Total<K, V>(m: map<K, V>, w: V -> real): real
    decreases |m|
  {
    if m == map[] then 0.0 else
      var k :| k in m;
      w(m[k]) + Total(m - {k}, w)
  }

  lemma {:induction false} TotalRemove<K, V>(m: map<K, V>, w: V -> real, k: K)
    requires k in m
    ensures Total(m, w) == w(m[k]) + Total(m - {k}, w)
    decreases |m|
  {
    var j :| j in m && Total(m, w) == w(m[j]) + Total(m - {j}, w);
    if j != k {
      TotalRemove(m - {j}, w, k);
      TotalRemove(m - {k}, w, j);
      assert m - {j} - {k} == m - {k} - {j};
    }
  }

  lemma TotalSet<K, V>(m: map<K, V>, w: V -> real, k: K, x: V)
    ensures Total(m[k := x], w) == Total(m, w) + w(x) - (if k in m then w(m[k]) else 0.0)
    ensures |m[k := x]| == |m| + if k in m then 0 else 1
  {
    TotalRemove(m[k := x], w, k);
    if k in m {
      TotalRemove(m, w, k);
      assert m[k := x] - {k} == m - {k};
    } else {
      assert m[k := x] - {k} == m;
    }
  }

  lemma TotalDrop<K, V>(m: map<K, V>, w: V -> real, k: K)
    requires k in m
    ensures Total(m - {k}, w) == Total(m, w) - w(m[k])
    ensures |m - {k}| == |m| - 1
  {
    TotalRemove(m, w, k);
    assert (m - {k}).Keys == m.Keys - {k};
  }
}
