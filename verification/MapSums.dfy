/** Sums of an integer measure over the values of a finite map: the SUM aggregate of a table. */
module MapSums {
  ghost function Sum<K, V>(m: map<K, V>, f: V -> int): int
    decreases |m|
  {
    if m == map[] then 0
    else
      var k :| k in m;
      f(m[k]) + Sum(m - {k}, f)
  }

  lemma PickKey<K, V>(m: map<K, V>) returns (k: K)
    requires m != map[]
    ensures k in m
  {
    assert m.Keys != {};
    k :| k in m.Keys;
  }

  /** Some row of a non-empty table: the order of a query result is not specified. */
  method RowIn<K, V>(rows: map<K, V>) returns (k: K)
    requires rows != map[]
    ensures k in rows
  {
    ghost var _ := PickKey(rows);
    k :| k in rows;
  }

  /** The order in which the rows are added up does not matter. */
  lemma {:induction false} SumSplit<K, V>(m: map<K, V>, f: V -> int, k: K)
    requires k in m
    ensures Sum(m, f) == f(m[k]) + Sum(m - {k}, f)
    decreases |m|
  {
    var c :| c in m && Sum(m, f) == f(m[c]) + Sum(m - {c}, f);
    if c != k {
      SumSplit(m - {c}, f, k);
      SumSplit(m - {k}, f, c);
      assert m - {c} - {k} == m - {k} - {c};
    }
  }

  lemma SumInsert<K, V>(m: map<K, V>, f: V -> int, k: K, v: V)
    requires k !in m
    ensures Sum(m[k := v], f) == Sum(m, f) + f(v)
  {
    SumSplit(m[k := v], f, k);
    assert m[k := v] - {k} == m;
  }

  lemma SumUpdate<K, V>(m: map<K, V>, f: V -> int, k: K, v: V)
    requires k in m
    ensures Sum(m[k := v], f) == Sum(m, f) - f(m[k]) + f(v)
  {
    SumSplit(m, f, k);
    SumSplit(m[k := v], f, k);
    assert m[k := v] - {k} == m - {k};
  }

  lemma {:induction false} SumZero<K, V>(m: map<K, V>, f: V -> int)
    requires forall k :: k in m ==> f(m[k]) == 0
    ensures Sum(m, f) == 0
    decreases |m|
  {
    if m != map[] {
      var k :| k in m;
      SumSplit(m, f, k);
      SumZero(m - {k}, f);
    }
  }

  lemma {:induction false} SumNonNegative<K, V>(m: map<K, V>, f: V -> int)
    requires forall k :: k in m ==> f(m[k]) >= 0
    ensures Sum(m, f) >= 0
    ensures forall k :: k in m ==> f(m[k]) <= Sum(m, f)
    decreases |m|
  {
    forall k | k in m
      ensures 0 <= f(m[k]) <= Sum(m, f)
    {
      SumSplit(m, f, k);
      SumNonNegative(m - {k}, f);
    }
    if m != map[] {
      var k :| k in m;
    }
  }

  /** Two measures that agree on every row have the same sum. */
  lemma {:induction false} SumCongruent<K, V, W>(m: map<K, V>, f: V -> int, n: map<K, W>, g: W -> int)
    requires m.Keys == n.Keys
    requires forall k :: k in m ==> f(m[k]) == g(n[k])
    ensures Sum(m, f) == Sum(n, g)
    decreases |m|
  {
    if m == map[] {
      assert n == map[];
    } else {
      var k :| k in m;
      SumSplit(m, f, k);
      SumSplit(n, g, k);
      SumCongruent(m - {k}, f, n - {k}, g);
    }
  }

  /** The sum of a combination is the combination of the sums. */
  lemma {:induction false} SumDifference<K, V>(m: map<K, V>, f: V -> int, g: V -> int, h: V -> int)
    requires forall k :: k in m ==> h(m[k]) == f(m[k]) - g(m[k])
    ensures Sum(m, h) == Sum(m, f) - Sum(m, g)
    decreases |m|
  {
    if m != map[] {
      var k :| k in m;
      SumSplit(m, f, k);
      SumSplit(m, g, k);
      SumSplit(m, h, k);
      SumDifference(m - {k}, f, g, h);
    }
  }

  /** A measure made of three parts sums to the sums of the parts. */
  lemma {:induction false} SumOfParts<K, V>(m: map<K, V>, whole: V -> int, a: V -> int, b: V -> int, c: V -> int)
    requires forall k :: k in m ==> whole(m[k]) == a(m[k]) + b(m[k]) + c(m[k])
    ensures Sum(m, whole) == Sum(m, a) + Sum(m, b) + Sum(m, c)
    decreases |m|
  {
    if m != map[] {
      var k :| k in m;
      SumSplit(m, whole, k);
      SumSplit(m, a, k);
      SumSplit(m, b, k);
      SumSplit(m, c, k);
      SumOfParts(m - {k}, whole, a, b, c);
    }
  }
}
