/** Sums over the values of a finite map. */
module MapSums {

  ghost function Sum<V(!new)>(m: map<string, V>, f: V -> int): int
    decreases |m|
  {
    if m == map[] then 0
    else
      var k :| k in m;
      Smaller(m, k);
      f(m[k]) + Sum(m - {k}, f)
  }

  lemma Smaller<V>(m: map<string, V>, k: string)
    requires k in m
    ensures |m - {k}| == |m| - 1
  {
    assert (m - {k}).Keys == m.Keys - {k};
    assert |m.Keys| == |m| && |(m - {k}).Keys| == |m - {k}|;
  }

  /** Any key may be taken out first. */
  lemma {:induction false} SumSplit<V(!new)>(m: map<string, V>, f: V -> int, k: string)
    requires k in m
    ensures Sum(m, f) == f(m[k]) + Sum(m - {k}, f)
    decreases |m|
  {
    var c :| c in m && Sum(m, f) == f(m[c]) + Sum(m - {c}, f);
    if c != k {
      Smaller(m, c);
      Smaller(m, k);
      SumSplit(m - {c}, f, k);
      SumSplit(m - {k}, f, c);
      assert m - {c} - {k} == m - {k} - {c};
    }
  }

  lemma SumUpdate<V(!new)>(m: map<string, V>, f: V -> int, k: string, v: V)
    ensures Sum(m[k := v], f) == Sum(m, f) + f(v) - (if k in m then f(m[k]) else 0)
  {
    SumSplit(m[k := v], f, k);
    assert m[k := v] - {k} == m - {k};
    if k in m {
      SumSplit(m, f, k);
    } else {
      assert m - {k} == m;
    }
  }

  ghost function Support<V(!new)>(m: map<string, V>, f: V -> int): set<string> {
    set k | k in m && f(m[k]) > 0
  }

  /** A sum of bounded values is at most the bound times the number of values counted in. */
  lemma {:induction false} SumBound<V(!new)>(m: map<string, V>, f: V -> int, bound: nat)
    requires forall k :: k in m ==> 0 <= f(m[k]) <= bound
    ensures 0 <= Sum(m, f) <= bound * |Support(m, f)|
    decreases |m|
  {
    if m != map[] {
      var c :| c in m && Sum(m, f) == f(m[c]) + Sum(m - {c}, f);
      Smaller(m, c);
      SumBound(m - {c}, f, bound);
      SupportSplit(m, f, c);
      var rest := |Support(m - {c}, f)|;
      assert bound * (rest + 1) == bound * rest + bound;
    }
  }

  lemma SupportSplit<V(!new)>(m: map<string, V>, f: V -> int, c: string)
    requires c in m
    ensures |Support(m, f)| == |Support(m - {c}, f)| + if f(m[c]) > 0 then 1 else 0
  {
    assert Support(m - {c}, f) == Support(m, f) - {c};
  }
}
