/**
 The weighted sum of the values of a finite map, independent of the order of its keys.

 Taking one key out takes its weight out, so changing the value of one key changes the sum by the difference of the
 weights, and adding a key adds its weight. The measure of the job runner is made of such sums, over threads and jobs.
 */
module MapSum {

  ghost function Sum<K(!new), V>(m: map<K, V>, weight: V -> nat): nat
    decreases |m|
  {
    if m.Keys == {} then 0
    else
      var k :| k in m.Keys;
      weight(m[k]) + Sum(m - {k}, weight)
  }

  lemma LessOne<K(!new), V>(m: map<K, V>, k: K)
    requires k in m
    ensures |m - {k}| < |m|
  {
    assert m.Keys == (m - {k}).Keys + {k};
  }

  lemma Either<K(!new), V>(m: map<K, V>, c: K, k: K)
    ensures m - {c} - {k} == m - {k} - {c}
  {
  }

  lemma {:induction false} SumOut<K(!new), V>(m: map<K, V>, weight: V -> nat, k: K)
    requires k in m
    ensures Sum(m, weight) == weight(m[k]) + Sum(m - {k}, weight)
    decreases |m|
  {
    var c :| c in m.Keys && Sum(m, weight) == weight(m[c]) + Sum(m - {c}, weight);
    if c != k {
      LessOne(m, c);
      LessOne(m, k);
      Either(m, c, k);
      SumOut(m - {c}, weight, k);
      SumOut(m - {k}, weight, c);
    }
  }

  lemma SumPut<K(!new), V>(m: map<K, V>, weight: V -> nat, k: K, v: V)
    ensures Sum(m[k := v], weight) == weight(v) + Sum(m - {k}, weight)
  {
    SumOut(m[k := v], weight, k);
    assert m[k := v] - {k} == m - {k};
  }

  /** Replacing one entry changes the sum by the difference of the weights. */
  lemma SumSwap<K(!new), V>(m: map<K, V>, weight: V -> nat, k: K, v: V)
    requires k in m
    ensures Sum(m[k := v], weight) == Sum(m, weight) - weight(m[k]) + weight(v)
  {
    SumOut(m, weight, k);
    SumPut(m, weight, k, v);
  }
}
