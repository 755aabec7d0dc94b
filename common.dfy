/** Small shared vocabulary: an optional value, distinct sequences and the
    sum of the values of a finite map from names to amounts. */
module Common {

  datatype Option<+T> = None | Some(value: T)

  /** No element occurs twice in `xs`. */
  predicate Distinct<T(==)>(xs: seq<T>)
  {
    forall i, j :: 0 <= i < j < |xs| ==> xs[i] != xs[j]
  }

  /** `xs` lists every element of `s` exactly once, in some order. */
  ghost predicate Enumerates(xs: seq<string>, s: set<string>)
  {
    Distinct(xs) && (forall x :: x in xs <==> x in s)
  }

  function Min(a: real, b: real): (r: real)
    ensures r <= a && r <= b && (r == a || r == b)
  {
    if a <= b then a else b
  }

  /** The sum of all values of `m`; the order of summation does not matter
      (SumValuesPick). */
  ghost function SumValues(m: map<string, real>): real
    decreases |m|
  {
    if m == map[] then 0.0
    else
      var k :| k in m;
      assert |m - {k}| < |m| by { assert m.Keys - {k} < m.Keys; }
      m[k] + SumValues(m - {k})
  }

  /** Any key may be taken out first. */
  lemma {:induction false} SumValuesPick(m: map<string, real>, k: string)
    requires k in m
    ensures SumValues(m) == m[k] + SumValues(m - {k})
    decreases |m|
  {
    var j :| j in m && SumValues(m) == m[j] + SumValues(m - {j});
    if j != k {
      assert (m - {j}) - {k} == (m - {k}) - {j};
      assert |m - {j}| < |m| by { assert (m - {j}).Keys < m.Keys; }
      assert |m - {k}| < |m| by { assert (m - {k}).Keys < m.Keys; }
      SumValuesPick(m - {j}, k);
      SumValuesPick(m - {k}, j);
    }
  }

  /** Overwriting one entry changes the sum by the difference. */
  lemma SumValuesUpdate(m: map<string, real>, k: string, v: real)
    requires k in m
    ensures SumValues(m[k := v]) == SumValues(m) - m[k] + v
  {
    SumValuesPick(m, k);
    SumValuesPick(m[k := v], k);
    assert m[k := v] - {k} == m - {k};
  }

  /** A map whose values are all zero sums to zero. */
  lemma {:induction false} SumValuesZero(m: map<string, real>)
    requires forall k :: k in m ==> m[k] == 0.0
    ensures SumValues(m) == 0.0
    decreases |m|
  {
    if m != map[] {
      var k :| k in m;
      SumValuesPick(m, k);
      assert |m - {k}| < |m| by { assert (m - {k}).Keys < m.Keys; }
      SumValuesZero(m - {k});
    }
  }

  /** Summing is monotone in the values. */
  lemma {:induction false} SumValuesMono(m: map<string, real>, n: map<string, real>)
    requires m.Keys == n.Keys
    requires forall k :: k in m ==> m[k] <= n[k]
    ensures SumValues(m) <= SumValues(n)
    decreases |m|
  {
    if m != map[] {
      var k :| k in m;
      SumValuesPick(m, k);
      SumValuesPick(n, k);
      assert |m - {k}| < |m| by { assert (m - {k}).Keys < m.Keys; }
      SumValuesMono(m - {k}, n - {k});
    }
  }

  /** If every value is at most its partner and the two sums agree, the maps
      agree everywhere. */
  lemma SumValuesTight(m: map<string, real>, n: map<string, real>)
    requires m.Keys == n.Keys
    requires forall k :: k in m ==> m[k] <= n[k]
    requires SumValues(m) == SumValues(n)
    ensures m == n
  {
    forall k | k in m
      ensures m[k] == n[k]
    {
      SumValuesPick(m, k);
      SumValuesPick(n, k);
      SumValuesMono(m - {k}, n - {k});
    }
  }

  /** Non-negative values have a non-negative sum, and a zero sum forces every
      value to zero. */
  lemma SumValuesNonNegative(m: map<string, real>)
    requires forall k :: k in m ==> m[k] >= 0.0
    ensures SumValues(m) >= 0.0
    ensures SumValues(m) == 0.0 ==> forall k :: k in m ==> m[k] == 0.0
  {
    var z := map k | k in m :: 0.0;
    SumValuesZero(z);
    SumValuesMono(z, m);
    if SumValues(m) == 0.0 {
      SumValuesTight(z, m);
    }
  }
}
