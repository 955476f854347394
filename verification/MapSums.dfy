/** Sums over maps from names to reals, independent of the order in which the keys are visited. */
module MapSums {
  import opened RealArithmetic

  ghost function Sum(m: map<string, real>): real
    decreases |m|
  {
    if m == map[] then 0.0
    else
      var k :| k in m;
      m[k] + Sum(m - {k})
  }

  lemma {:induction false} SumSplit(m: map<string, real>, k: string)
    requires k in m
    ensures Sum(m) == m[k] + Sum(m - {k})
    decreases |m|
  {
    var j :| j in m && Sum(m) == m[j] + Sum(m - {j});
    if j != k {
      SumSplit(m - {j}, k);
      SumSplit(m - {k}, j);
      assert m - {j} - {k} == m - {k} - {j};
    }
  }

  lemma SumUpdate(m: map<string, real>, k: string, v: real)
    ensures Sum(m[k := v]) == v + Sum(m - {k})
    ensures k in m ==> Sum(m[k := v]) == Sum(m) - m[k] + v
    ensures k !in m ==> Sum(m[k := v]) == Sum(m) + v
  {
    SumSplit(m[k := v], k);
    assert m[k := v] - {k} == m - {k};
    if k in m {
      SumSplit(m, k);
    } else {
      assert m - {k} == m;
    }
  }

  function Repeat(n: nat, x: real): real {
    if n == 0 then 0.0 else Repeat(n - 1, x) + x
  }

  lemma {:induction false} RepeatIsProduct(n: nat, x: real)
    ensures Repeat(n, x) == n as real * x
  {
    if n > 0 {
      RepeatIsProduct(n - 1, x);
      var p := (n - 1) as real;
      assert n as real == p + 1.0;
      assert (p + 1.0) * x == p * x + x;
    }
  }

  lemma {:induction false} RepeatScaled(n: nat, c: real, x: real, cx: real)
    requires cx == c * x
    ensures Repeat(n, cx) == c * Repeat(n, x)
  {
    if n > 0 {
      RepeatScaled(n - 1, c, x, cx);
      Distribute(c, Repeat(n - 1, x), x, Repeat(n, x));
    }
  }

  lemma RepeatTimes(n: nat, c: real, x: real)
    ensures Repeat(n, Times(c, x)) == Times(c, Repeat(n, x))
  {
    RepeatScaled(n, c, x, Times(c, x));
  }

  /** Values between lo and hi give a sum between |m| times lo and |m| times hi. */
  lemma {:induction false} SumBounds(m: map<string, real>, lo: real, hi: real)
    requires forall k :: k in m ==> lo <= m[k] <= hi
    ensures Repeat(|m|, lo) <= Sum(m) <= Repeat(|m|, hi)
    decreases |m|
  {
    if m != map[] {
      var k :| k in m && Sum(m) == m[k] + Sum(m - {k});
      SumBounds(m - {k}, lo, hi);
      assert |m - {k}| == |m| - 1;
    }
  }

  lemma {:induction false} SumIsPositive(m: map<string, real>)
    requires forall k :: k in m ==> m[k] >= 0.0
    ensures Sum(m) >= 0.0
    decreases |m|
  {
    if m != map[] {
      var k :| k in m && Sum(m) == m[k] + Sum(m - {k});
      SumIsPositive(m - {k});
    }
  }

  lemma {:induction false} SumMonotone(m: map<string, real>, n: map<string, real>)
    requires m.Keys == n.Keys && forall k :: k in m ==> m[k] <= n[k]
    ensures Sum(m) <= Sum(n)
    decreases |m|
  {
    if m != map[] {
      var k :| k in m;
      SumSplit(m, k);
      SumSplit(n, k);
      SumMonotone(m - {k}, n - {k});
    } else {
      assert n == map[];
    }
  }

  ghost predicate AddsUp(f: real -> real, x: real, y: real) {
    f(x + y) == f(x) + f(y)
  }

  ghost predicate Additive(f: real -> real) {
    f(0.0) == 0.0 && forall x: real, y: real :: AddsUp(f, x, y)
  }

  lemma {:induction false} SumOfImages(m: map<string, real>, n: map<string, real>, f: real -> real)
    requires m.Keys == n.Keys && Additive(f)
    requires forall k :: k in m ==> n[k] == f(m[k])
    ensures Sum(n) == f(Sum(m))
    decreases |m|
  {
    if m != map[] {
      var k :| k in m;
      SumSplit(m, k);
      SumSplit(n, k);
      SumOfImages(m - {k}, n - {k}, f);
      assert AddsUp(f, m[k], Sum(m - {k}));
    } else {
      assert n == map[];
    }
  }

  /** Dividing every value by the same number divides the sum. */
  lemma SumQuotient(m: map<string, real>, n: map<string, real>, d: real)
    requires d != 0.0 && m.Keys == n.Keys && forall k :: k in m ==> n[k] == m[k] / d
    ensures Sum(n) == Sum(m) / d
  {
    var f := (x: real) => x / d;
    forall x: real, y: real ensures AddsUp(f, x, y) {
      QuotientOfSum(x, y, d);
    }
    SumOfImages(m, n, f);
  }

  function Restrict(m: map<string, real>, keys: set<string>): map<string, real> {
    map k | k in m && k in keys :: m[k]
  }

  /** Adds up all values, visiting the keys in no particular order. */
  method Total(m: map<string, real>) returns (total: real)
    ensures total == Sum(m)
  {
    total := 0.0;
    var todo := m.Keys;
    assert Restrict(m, todo) == m;
    while todo != {}
      invariant todo <= m.Keys
      invariant total + Sum(Restrict(m, todo)) == Sum(m)
    {
      var k :| k in todo;
      SumSplit(Restrict(m, todo), k);
      assert Restrict(m, todo) - {k} == Restrict(m, todo - {k});
      total := total + m[k];
      todo := todo - {k};
    }
    assert Restrict(m, todo) == map[];
  }
}
