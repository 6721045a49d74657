/** The sum of the values of a map. */
module Sums {
  ghost function Sum(m: map<nat, nat>): nat
    decreases |m|
  {
    if m == map[] then 0
    else
      var k :| k in m;
      m[k] + Sum(m - {k})
  }

  /** Any key may be taken out first. */
  lemma {:induction false} TakeOut(m: map<nat, nat>, k: nat)
    requires k in m
    ensures Sum(m) == m[k] + Sum(m - {k})
    decreases |m|
  {
    var j :| j in m && Sum(m) == m[j] + Sum(m - {j});
    if j != k {
      TakeOut(m - {j}, k);
      TakeOut(m - {k}, j);
      assert m - {j} - {k} == m - {k} - {j};
    }
  }

  /** Where values rise by at most three, and only for keys in `up`, the sum rises by at most three for each of those. */
  lemma {:induction false} Rises(m: map<nat, nat>, m': map<nat, nat>, up: set<nat>)
    requires m'.Keys == m.Keys && forall k | k in m :: m'[k] <= m[k] + if k in up then 3 else 0
    ensures Sum(m') <= Sum(m) + 3 * |up|
    decreases |m|
  {
    if m == map[] {
    } else {
      var k :| k in m;
      TakeOut(m, k);
      TakeOut(m', k);
      Rises(m - {k}, m' - {k}, up - {k});
      assert k in up ==> |up - {k}| == |up| - 1;
      assert k !in up ==> up - {k} == up;
    }
  }

  lemma Falls(m: map<nat, nat>, m': map<nat, nat>)
    requires m'.Keys == m.Keys && forall k | k in m :: m'[k] <= m[k]
    ensures Sum(m') <= Sum(m)
  {
    Rises(m, m', {});
  }
}
