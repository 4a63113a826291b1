// Histories kept per run, and sums over the entries of a finite map.

module Sums {

  /** The history of one run; a run without an entry has the empty history. */
  function At<T>(m: map<string, seq<T>>, run: string): seq<T> {
    if run in m then m[run] else []
  }

  function Push<T>(m: map<string, seq<T>>, run: string, x: T): map<string, seq<T>> {
    m[run := At(m, run) + [x]]
  }

  ghost function Sum<V>(m: map<nat, V>, weight: V -> nat): nat {
    if m == map[] then 0
    else
      var k :| k in m;
      weight(m[k]) + Sum(m - {k}, weight)
  }

  lemma {:induction false} SumSplit<V>(m: map<nat, V>, weight: V -> nat, k: nat)
    requires k in m
    ensures Sum(m, weight) == weight(m[k]) + Sum(m - {k}, weight)
    decreases |m|
  {
    var j :| j in m && Sum(m, weight) == weight(m[j]) + Sum(m - {j}, weight);
    if j != k {
      SumSplit(m - {j}, weight, k);
      SumSplit(m - {k}, weight, j);
      assert m - {j} - {k} == m - {k} - {j};
    }
  }

  /** Writing one entry changes the sum by the change of that entry. */
  lemma SumWrite<V>(m: map<nat, V>, weight: V -> nat, k: nat, v: V)
    ensures Sum(m[k := v], weight) == Sum(m - {k}, weight) + weight(v)
    ensures Sum(m, weight) == Sum(m - {k}, weight) + if k in m then weight(m[k]) else 0
  {
    SumSplit(m[k := v], weight, k);
    assert m[k := v] - {k} == m - {k};
    if k in m {
      SumSplit(m, weight, k);
    } else {
      assert m - {k} == m;
    }
  }

  /** A number above every key, so not a key itself. */
  ghost function Above<V>(m: map<nat, V>): (n: nat)
    ensures forall k :: k in m ==> k < n
  {
    if m == map[] then 0
    else
      var k :| k in m;
      var n := Above(m - {k});
      assert forall j :: j in m ==> j == k || j in m - {k};
      if k < n then n else k + 1
  }

  lemma Times(c: nat, a: nat, b: nat)
    requires a < b
    ensures c * a + c <= c * b
  {
    hide *;
    assert c * b == c * a + c * (b - a);
    TimesPositive(c, b - a);
  }

  lemma TimesPositive(c: nat, d: nat)
    requires d >= 1
    ensures c <= c * d
  {
    hide *;
    assert c * d == c * (d - 1) + c;
    TimesNat(c, d - 1);
  }

  lemma TimesNat(c: nat, d: nat)
    ensures 0 <= c * d
  {
  }

  lemma TimesUpTo(c: nat, a: nat, b: nat, k: nat)
    requires a <= b + k
    ensures c * a <= c * b + c * k
  {
    hide *;
    assert c * (b + k) == c * b + c * k;
    if a < b + k {
      Times(c, a, b + k);
    }
  }
}
