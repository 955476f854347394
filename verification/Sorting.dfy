/** Sorting and ordering, standing for the Go library's sort.Slice and sort.Strings. */
module Sorting {
  ghost predicate TotalOrder<T(!new)>(le: (T, T) -> bool) {
    && (forall a, b :: le(a, b) || le(b, a))
    && (forall a, b :: le(a, b) && le(b, a) ==> a == b)
    && (forall a, b, c :: le(a, b) && le(b, c) ==> le(a, c))
  }

  ghost predicate Ordered<T>(le: (T, T) -> bool, s: seq<T>) {
    forall i, j :: 0 <= i < j < |s| ==> le(s[i], s[j])
  }

  method Insert<T(!new)>(le: (T, T) -> bool, s: seq<T>, x: T) returns (r: seq<T>)
    requires TotalOrder(le) && Ordered(le, s)
    ensures Ordered(le, r) && multiset(r) == multiset(s) + multiset{x}
  {
    var i := |s|;
    while i > 0 && !le(s[i - 1], x)
      invariant 0 <= i <= |s|
      invariant forall j :: i <= j < |s| ==> le(x, s[j])
    {
      i := i - 1;
    }
    forall j | 0 <= j < i ensures le(s[j], x) {
      assert j < i - 1 ==> le(s[j], s[i - 1]);
    }
    r := s[..i] + [x] + s[i..];
    InsertedInOrder(le, s, i, x);
    assert s == s[..i] + s[i..];
  }

  lemma InsertedInOrder<T>(le: (T, T) -> bool, s: seq<T>, i: nat, x: T)
    requires Ordered(le, s) && i <= |s|
    requires (forall j :: 0 <= j < i ==> le(s[j], x)) && (forall j :: i <= j < |s| ==> le(x, s[j]))
    ensures Ordered(le, s[..i] + [x] + s[i..])
  {
  }

  method Sort<T(!new)>(le: (T, T) -> bool, s: seq<T>) returns (r: seq<T>)
    requires TotalOrder(le)
    ensures Ordered(le, r) && multiset(r) == multiset(s)
  {
    r := [];
    for i := 0 to |s|
      invariant Ordered(le, r) && multiset(r) == multiset(s[..i])
    {
      assert s[..i + 1] == s[..i] + [s[i]];
      r := Insert(le, r, s[i]);
    }
    assert s[..|s|] == s;
  }

  /** Lists a set in no particular order, each element once. */
  method Elements<T>(s: set<T>) returns (r: seq<T>)
    ensures multiset(r) == multiset(s)
  {
    r := [];
    var todo := s;
    while todo != {}
      invariant todo <= s && multiset(r) + multiset(todo) == multiset(s)
    {
      var x :| x in todo;
      assert multiset(todo) == multiset(todo - {x}) + multiset{x};
      r := r + [x];
      todo := todo - {x};
    }
  }

  lemma {:induction false} ListedOnce<T>(s: set<T>, r: seq<T>)
    requires multiset(r) == multiset(s)
    ensures forall x :: x in r <==> x in s
    ensures forall i, j :: 0 <= i < j < |r| ==> r[i] != r[j]
  {
    forall x ensures x in r <==> x in s {
      assert x in multiset(r) <==> x in multiset(s);
    }
    forall i, j | 0 <= i < j < |r| ensures r[i] != r[j] {
      var rest := r[..i] + r[i + 1..];
      assert r == r[..i] + [r[i]] + r[i + 1..];
      assert multiset(r) == multiset(rest) + multiset{r[i]};
      assert rest[j - 1] == r[j] && r[j] in multiset(rest);
      assert multiset(r)[r[j]] >= multiset(rest)[r[j]] >= 1;
      assert multiset(r)[r[i]] == multiset(rest)[r[i]] + 1;
      assert multiset(r)[r[i]] <= 1;
    }
  }

  predicate LexLe(a: string, b: string) {
    a == "" || (b != "" && (a[0] < b[0] || (a[0] == b[0] && LexLe(a[1..], b[1..]))))
  }

  lemma LexTotal()
    ensures TotalOrder(LexLe)
  {
    forall a, b ensures LexLe(a, b) || LexLe(b, a) {
      LexConnected(a, b);
    }
    forall a, b | LexLe(a, b) && LexLe(b, a) ensures a == b {
      LexAntisymmetric(a, b);
    }
    forall a, b, c | LexLe(a, b) && LexLe(b, c) ensures LexLe(a, c) {
      LexTransitive(a, b, c);
    }
  }

  lemma {:induction false} LexConnected(a: string, b: string)
    ensures LexLe(a, b) || LexLe(b, a)
  {
    if a != "" && b != "" {
      LexConnected(a[1..], b[1..]);
    }
  }

  lemma {:induction false} LexAntisymmetric(a: string, b: string)
    requires LexLe(a, b) && LexLe(b, a)
    ensures a == b
  {
    if a != "" && b != "" {
      LexAntisymmetric(a[1..], b[1..]);
      assert a == [a[0]] + a[1..] && b == [b[0]] + b[1..];
    }
  }

  lemma {:induction false} LexTransitive(a: string, b: string, c: string)
    requires LexLe(a, b) && LexLe(b, c)
    ensures LexLe(a, c)
  {
    if a != "" && b != "" && c != "" && a[0] == b[0] == c[0] {
      LexTransitive(a[1..], b[1..], c[1..]);
    }
  }
}
