/** Sums over the values of a map, which the source computes by ranging in any order. */
module MapSums {
  import opened UsageModel

  ghost function Sum<K>(m: map<K, int>): int {
    if m == map[] then 0 else var k :| k in m; m[k] + Sum(m - {k})
  }

  lemma {:induction false} SumPick<K>(m: map<K, int>, k: K)
    requires k in m
    ensures Sum(m) == m[k] + Sum(m - {k})
    decreases |m|
  {
    var j :| j in m && Sum(m) == m[j] + Sum(m - {j});
    if j != k {
      SumPick(m - {j}, k);
      SumPick(m - {k}, j);
      assert m - {j} - {k} == m - {k} - {j};
    }
  }

  function ValueAt<K>(m: map<K, int>, k: K): int { if k in m then m[k] else 0 }

  /** Writing one key changes the sum by the difference at that key. */
  lemma SumPut<K>(m: map<K, int>, k: K, v: int)
    ensures Sum(m[k := v]) == Sum(m) - ValueAt(m, k) + v
  {
    SumPick(m[k := v], k);
    if k in m {
      SumPick(m, k);
      assert m[k := v] - {k} == m - {k};
    } else {
      assert m[k := v] - {k} == m;
    }
  }

  /** The sum of a pointwise sum, over the keys of either map. */
  lemma {:induction false} SumOfPointwiseSum<K>(a: map<K, int>, delta: map<K, int>, b: map<K, int>)
    requires forall k :: k in b <==> k in a || k in delta
    requires forall k :: k in b ==> b[k] == ValueAt(a, k) + ValueAt(delta, k)
    ensures Sum(b) == Sum(a) + Sum(delta)
    decreases |b|
  {
    if b == map[] {
      assert forall k :: k !in b;
      assert a == map[];
      assert delta == map[];
    } else {
      var k :| k in b;
      var a', delta', b' := a - {k}, delta - {k}, b - {k};
      SumPick(b, k);
      DropKey(a, k);
      DropKey(delta, k);
      forall j | j in b' ensures b'[j] == ValueAt(a', j) + ValueAt(delta', j) {
        assert b[j] == ValueAt(a, j) + ValueAt(delta, j);
      }
      SumOfPointwiseSum(a', delta', b');
    }
  }

  /** A missing key stands for zero on either side. */
  lemma {:induction false} SumMonotone<K>(a: map<K, int>, b: map<K, int>)
    requires forall k :: k in a || k in b ==> ValueAt(a, k) <= ValueAt(b, k)
    ensures Sum(a) <= Sum(b)
    decreases |a| + |b|
  {
    if a != map[] {
      var k :| k in a;
      DropKey(a, k);
      DropKey(b, k);
      SumMonotone(a - {k}, b - {k});
    } else if b != map[] {
      var k :| k in b;
      DropKey(b, k);
      SumMonotone(a, b - {k});
    }
  }

  lemma DropKey<K>(m: map<K, int>, k: K)
    ensures Sum(m - {k}) == Sum(m) - ValueAt(m, k)
  {
    if k in m { SumPick(m, k); } else { assert m - {k} == m; }
  }

  ghost function SumCounters<K>(m: map<K, DayCounter>): DayCounter {
    if m == map[] then ZERO else var k :| k in m; Plus(m[k], SumCounters(m - {k}))
  }

  lemma PlusSwap(a: DayCounter, b: DayCounter, c: DayCounter)
    ensures Plus(a, Plus(b, c)) == Plus(b, Plus(a, c))
  {
  }

  lemma {:induction false} SumCountersPick<K>(m: map<K, DayCounter>, k: K)
    requires k in m
    ensures SumCounters(m) == Plus(m[k], SumCounters(m - {k}))
    decreases |m|
  {
    var j :| j in m && SumCounters(m) == Plus(m[j], SumCounters(m - {j}));
    if j != k {
      SumCountersPick(m - {j}, k);
      SumCountersPick(m - {k}, j);
      assert m - {j} - {k} == m - {k} - {j};
      PlusSwap(m[j], m[k], SumCounters(m - {j} - {k}));
    }
  }

  lemma SumCountersPut<K>(m: map<K, DayCounter>, k: K, v: DayCounter)
    ensures k in m ==> Plus(SumCounters(m[k := v]), m[k]) == Plus(SumCounters(m), v)
    ensures k !in m ==> SumCounters(m[k := v]) == Plus(SumCounters(m), v)
  {
    SumCountersPick(m[k := v], k);
    if k in m {
      SumCountersPick(m, k);
      assert m[k := v] - {k} == m - {k};
    } else {
      assert m[k := v] - {k} == m;
    }
  }
}
