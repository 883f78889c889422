/** Sums over finite maps and sequences and a little arithmetic, shared by the ledgers and the risk checks. */
module FiniteSums {

  datatype Option<+T> = None | Some(value: T)

  /** The sum of the values of a finite map. */
  ghost function Total<K(!new)>(m: map<K, real>): real
    decreases |m|
  {
    if m == map[] then 0.0
    else
      var k :| k in m;
      m[k] + Total(m - {k})
  }

  lemma {:induction false} TotalRemove<K(!new)>(m: map<K, real>, k: K)
    requires k in m
    ensures Total(m) == m[k] + Total(m - {k})
    decreases |m|
  {
    var c :| c in m && Total(m) == m[c] + Total(m - {c});
    if c != k {
      TotalRemove(m - {c}, k);
      TotalRemove(m - {k}, c);
      assert m - {c} - {k} == m - {k} - {c};
    }
  }

  lemma TotalInsert<K(!new)>(m: map<K, real>, k: K, v: real)
    requires k !in m
    ensures Total(m[k := v]) == Total(m) + v
  {
    TotalRemove(m[k := v], k);
    assert m[k := v] - {k} == m;
  }

  lemma {:induction false} TotalMonotone<K(!new)>(m: map<K, real>, n: map<K, real>)
    requires m.Keys <= n.Keys
    requires forall k :: k in m ==> m[k] <= n[k]
    requires forall k :: k in n && k !in m ==> 0.0 <= n[k]
    ensures Total(m) <= Total(n)
    decreases |n|
  {
    if n == map[] {
    } else {
      var k :| k in n;
      TotalRemove(n, k);
      if k in m {
        TotalRemove(m, k);
        TotalMonotone(m - {k}, n - {k});
      } else {
        TotalMonotone(m, n - {k});
      }
    }
  }

  /** A product of two unknowns, under a name so that proofs can treat it as one. */
  function Times(a: real, b: real): real {
    a * b
  }

  lemma TimesGrows(a: real, b: real, c: real)
    requires 0.0 <= a && b <= c
    ensures Times(a, b) <= Times(a, c)
  {
    ProductMonotone(a, b, c);
  }

  lemma TimesSum(a: real, b: real, c: real)
    ensures Times(a, b + c) == Times(a, b) + Times(a, c)
  {
  }

  lemma TimesUnits(a: real)
    ensures Times(a, 0.0) == 0.0 && Times(a, 1.0) == a
  {
  }

  lemma {:induction false} TotalAtMost<K(!new)>(m: map<K, real>, bound: real)
    requires forall k :: k in m ==> m[k] <= bound
    ensures Total(m) <= Times(bound, |m| as real)
    decreases |m|
  {
    TimesUnits(bound);
    if m == map[] {
      assert Total(m) == 0.0;
    } else {
      hide Total, Times;
      var k :| k in m;
      TotalRemove(m, k);
      TotalAtMost(m - {k}, bound);
      SizeRemove(m, k);
      TimesSum(bound, |m - {k}| as real, 1.0);
    }
  }

  lemma SizeRemove<K, V>(m: map<K, V>, k: K)
    requires k in m
    ensures |m - {k}| == |m| - 1
  {
    assert (m - {k}).Keys == m.Keys - {k};
    assert |(m - {k}).Keys| == |m.Keys| - 1;
  }

  /** Zeroes outside a set of keys add nothing. */
  lemma {:induction false} TotalFilter<K(!new)>(m: map<K, real>, keys: set<K>)
    requires keys <= m.Keys
    ensures Total(map k | k in m :: if k in keys then m[k] else 0.0) == Total(map k | k in keys :: m[k])
    decreases |m|
  {
    hide Total;
    var all := map k | k in m :: if k in keys then m[k] else 0.0;
    var some := map k | k in keys :: m[k];
    if m == map[] {
      assert all == some;
    } else {
      var k :| k in m;
      TotalFilter(m - {k}, keys - {k});
      TotalRemove(all, k);
      assert all - {k} == map j | j in m - {k} :: if j in keys - {k} then (m - {k})[j] else 0.0;
      assert some - {k} == map j | j in keys - {k} :: (m - {k})[j];
      if k in keys {
        TotalRemove(some, k);
      } else {
        assert some - {k} == some;
      }
    }
  }

  lemma {:induction false} TotalOfOnes<K(!new)>(m: map<K, real>)
    requires forall k :: k in m ==> m[k] == 1.0
    ensures Total(m) == |m| as real
    decreases |m|
  {
    if m == map[] {
      assert Total(m) == 0.0;
    } else {
      hide Total;
      var k :| k in m;
      TotalRemove(m, k);
      TotalOfOnes(m - {k});
      SizeRemove(m, k);
    }
  }

  lemma {:induction false} TotalScaled<K(!new)>(m: map<K, real>, scaled: map<K, real>, factor: real)
    requires scaled.Keys == m.Keys && forall k :: k in m ==> scaled[k] == Times(factor, m[k])
    ensures Total(scaled) == Times(factor, Total(m))
    decreases |m|
  {
    if m == map[] {
      assert scaled == map[] && Total(m) == 0.0;
      TimesUnits(factor);
    } else {
      hide Total, Times;
      var k :| k in m;
      TotalRemove(m, k);
      TotalRemove(scaled, k);
      TotalScaled(m - {k}, scaled - {k}, factor);
      TimesSum(factor, m[k], Total(m - {k}));
    }
  }

  /** The sum of a sequence, newest element last. */
  function Sum(s: seq<real>): real {
    if s == [] then 0.0 else Sum(s[..|s| - 1]) + s[|s| - 1]
  }

  lemma SumSnoc(s: seq<real>, x: real)
    ensures Sum(s + [x]) == Sum(s) + x
  {
    assert (s + [x])[..|s|] == s;
  }

  lemma {:induction false} SumConcat(s: seq<real>, t: seq<real>)
    ensures Sum(s + t) == Sum(s) + Sum(t)
    decreases |t|
  {
    if t == [] {
      assert s + t == s;
    } else {
      var n := |t| - 1;
      SumConcat(s, t[..n]);
      assert (s + t)[..|s + t| - 1] == s + t[..n];
    }
  }

  /** The last `n` elements of a sequence, or all of it when it is shorter: what a capped history keeps. */
  function LastN<T>(s: seq<T>, n: nat): (r: seq<T>)
    ensures |r| == if |s| <= n then |s| else n
  {
    if |s| <= n then s else s[|s| - n..]
  }

  lemma LastNSnoc<T>(s: seq<T>, n: nat, x: T)
    requires 0 < n
    ensures LastN(LastN(s, n) + [x], n) == LastN(s + [x], n)
  {
  }

  lemma ProductMonotone(a: real, b: real, c: real)
    requires 0.0 <= a && b <= c
    ensures a * b <= a * c
  {
    assert a * c - a * b == a * (c - b);
  }

  lemma SignOfProduct(q: real, x: real)
    requires q > 0.0
    ensures q * x > 0.0 <==> x > 0.0
  {
  }

  function Max(a: real, b: real): real {
    if a < b then b else a
  }
}
