/** Whole numbers in decimal, as Go prints them. */
module Decimals {
  function Decimal(n: nat): string {
    if n < 10 then [('0' as int + n) as char] else Decimal(n / 10) + [('0' as int + n % 10) as char]
  }

  predicate Free(s: string, c: char) {
    forall i :: 0 <= i < |s| ==> s[i] != c
  }

  lemma {:induction false} DigitsOnly(n: nat, c: char)
    requires !('0' <= c <= '9')
    ensures Decimal(n) != [] && Free(Decimal(n), c)
  {
    if n >= 10 {
      DigitsOnly(n / 10, c);
    }
  }

  lemma {:induction false} DecimalIsInjective(m: nat, n: nat)
    requires Decimal(m) == Decimal(n)
    ensures m == n
  {
    DigitsOnly(m / 10, ':');
    DigitsOnly(n / 10, ':');
    var s, t := Decimal(m), Decimal(n);
    if m >= 10 && n >= 10 {
      assert s[..|s| - 1] == Decimal(m / 10) && t[..|t| - 1] == Decimal(n / 10);
      assert s[|s| - 1] == t[|t| - 1];
      DecimalIsInjective(m / 10, n / 10);
    }
  }

  /** Where the separator does not occur before it, a text splits in one way. */
  lemma SplitsOnce(a: string, b: string, x: string, y: string, sep: char)
    requires Free(a, sep) && Free(b, sep) && a + [sep] + x == b + [sep] + y
    ensures a == b && x == y
  {
    var s, t := a + [sep] + x, b + [sep] + y;
    assert forall i :: 0 <= i < |a| ==> s[i] == a[i];
    assert forall i :: 0 <= i < |b| ==> t[i] == b[i];
    assert s[|a|] == sep && t[|b|] == sep;
    assert |a| == |b|;
    assert s[..|a|] == a && t[..|b|] == b;
    assert s[|a| + 1..] == x && t[|b| + 1..] == y;
  }

  /** And where it does not occur after it. */
  lemma SplitsOnceFromEnd(a: string, b: string, x: string, y: string, sep: char)
    requires Free(x, sep) && Free(y, sep) && a + [sep] + x == b + [sep] + y
    ensures a == b && x == y
  {
    var s, t := a + [sep] + x, b + [sep] + y;
    assert forall i :: |a| < i < |s| ==> s[i] == x[i - |a| - 1];
    assert forall i :: |b| < i < |t| ==> t[i] == y[i - |b| - 1];
    assert s[|a|] == sep && t[|b|] == sep;
    assert |a| == |b|;
    assert s[..|a|] == a && t[..|b|] == b;
    assert s[|a| + 1..] == x && t[|b| + 1..] == y;
  }
}
