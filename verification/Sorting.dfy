/** Sorting as a function, and the fact that a sorted arrangement is determined by its contents. */
module Sorting {

  ghost predicate Total<T(!new)>(le: (T, T) -> bool) {
    && (forall a, b :: le(a, b) || le(b, a))
    && (forall a, b, c :: le(a, b) && le(b, c) ==> le(a, c))
  }

  ghost predicate SortedBy<T>(xs: seq<T>, le: (T, T) -> bool) {
    forall i, j :: 0 <= i < j < |xs| ==> le(xs[i], xs[j])
  }

  /* No two elements that `le` cannot tell apart. */
  ghost predicate Distinguishes<T>(le: (T, T) -> bool, xs: seq<T>) {
    forall i, j :: 0 <= i < |xs| && 0 <= j < |xs| && le(xs[i], xs[j]) && le(xs[j], xs[i]) ==> xs[i] == xs[j]
  }

  function Insert<T>(x: T, xs: seq<T>, le: (T, T) -> bool): seq<T> {
    if |xs| == 0 || le(x, xs[0]) then [x] + xs else [xs[0]] + Insert(x, xs[1..], le)
  }

  function Sort<T>(xs: seq<T>, le: (T, T) -> bool): seq<T> {
    if |xs| == 0 then [] else Insert(xs[0], Sort(xs[1..], le), le)
  }

  lemma {:induction false} InsertSorts<T(!new)>(x: T, xs: seq<T>, le: (T, T) -> bool)
    requires Total(le) && SortedBy(xs, le)
    ensures multiset(Insert(x, xs, le)) == multiset{x} + multiset(xs)
    ensures SortedBy(Insert(x, xs, le), le)
  {
    if |xs| == 0 || le(x, xs[0]) {
    } else {
      InsertSorts(x, xs[1..], le);
      assert xs == [xs[0]] + xs[1..];
      var ys := Insert(x, xs[1..], le);
      forall j | 0 <= j < |ys| ensures le(xs[0], ys[j]) {
        assert ys[j] in multiset(ys);
        assert ys[j] == x || ys[j] in xs[1..];
      }
    }
  }

  lemma {:induction false} SortSorts<T(!new)>(xs: seq<T>, le: (T, T) -> bool)
    requires Total(le)
    ensures multiset(Sort(xs, le)) == multiset(xs) && SortedBy(Sort(xs, le), le)
    ensures |Sort(xs, le)| == |xs|
  {
    if |xs| > 0 {
      SortSorts(xs[1..], le);
      InsertSorts(xs[0], Sort(xs[1..], le), le);
      assert xs == [xs[0]] + xs[1..];
    }
    assert |multiset(Sort(xs, le))| == |multiset(xs)|;
  }

  /* Two sorted arrangements of the same contents are the same sequence. */
  lemma {:induction false} SortedUnique<T(!new)>(xs: seq<T>, ys: seq<T>, le: (T, T) -> bool)
    requires SortedBy(xs, le) && SortedBy(ys, le) && multiset(xs) == multiset(ys)
    requires Distinguishes(le, xs)
    ensures xs == ys
  {
    hide SortedBy, Distinguishes;
    assert |xs| == |multiset(xs)| == |multiset(ys)| == |ys|;
    if |xs| > 0 {
      HeadIsLeast(xs, ys, le);
      TailOf(xs, le);
      TailOf(ys, le);
      SortedUnique(xs[1..], ys[1..], le);
      assert xs == [xs[0]] + xs[1..] && ys == [ys[0]] + ys[1..];
    }
  }

  lemma TailOf<T(!new)>(xs: seq<T>, le: (T, T) -> bool)
    requires |xs| > 0 && SortedBy(xs, le)
    ensures SortedBy(xs[1..], le) && multiset(xs[1..]) == multiset(xs) - multiset{xs[0]}
    ensures Distinguishes(le, xs) ==> Distinguishes(le, xs[1..])
  {
    assert xs == [xs[0]] + xs[1..];
  }

  lemma HeadIsLeast<T(!new)>(xs: seq<T>, ys: seq<T>, le: (T, T) -> bool)
    requires |xs| > 0 && |ys| > 0
    requires SortedBy(xs, le) && SortedBy(ys, le) && multiset(xs) == multiset(ys)
    requires Distinguishes(le, xs)
    ensures xs[0] == ys[0]
  {
    assert xs[0] in multiset(ys) && ys[0] in multiset(xs);
    var i :| 0 <= i < |ys| && ys[i] == xs[0];
    var j :| 0 <= j < |xs| && xs[j] == ys[0];
    if i > 0 && j > 0 {
      assert le(xs[0], xs[j]) && le(ys[0], ys[i]);
    }
  }

  /* Sorting forgets exactly the order. */
  lemma SortForgetsOrder<T(!new)>(xs: seq<T>, ys: seq<T>, le: (T, T) -> bool)
    requires Total(le)
    requires forall a, b :: le(a, b) && le(b, a) ==> a == b
    ensures Sort(xs, le) == Sort(ys, le) <==> multiset(xs) == multiset(ys)
  {
    SortSorts(xs, le);
    SortSorts(ys, le);
    if multiset(xs) == multiset(ys) {
      SortedUnique(Sort(xs, le), Sort(ys, le), le);
    }
  }

  /* The order of Go strings. */
  predicate StringLe(a: string, b: string) {
    |a| == 0 || (|b| > 0 && (a[0] < b[0] || (a[0] == b[0] && StringLe(a[1..], b[1..]))))
  }

  /** Lexicographic order: a prefix comes first, otherwise the first difference decides. */
  ghost predicate Lexicographic(a: string, b: string) {
    a <= b || exists i :: 0 <= i < |a| && i < |b| && a[..i] == b[..i] && a[i] < b[i]
  }

  lemma {:induction false} StringLeMeans(a: string, b: string)
    ensures StringLe(a, b) <==> Lexicographic(a, b)
  {
    if |a| > 0 && |b| > 0 && a[0] == b[0] {
      StringLeMeans(a[1..], b[1..]);
      if StringLe(a, b) {
        if a[1..] <= b[1..] {
          assert a == [a[0]] + a[1..] && b == [b[0]] + b[1..];
        } else {
          var i :| 0 <= i < |a[1..]| && i < |b[1..]| && a[1..][..i] == b[1..][..i] && a[1..][i] < b[1..][i];
          assert a[..i + 1] == [a[0]] + a[1..][..i] && b[..i + 1] == [b[0]] + b[1..][..i];
          assert a[i + 1] < b[i + 1];
        }
      }
      if Lexicographic(a, b) && !(a <= b) {
        var i :| 0 <= i < |a| && i < |b| && a[..i] == b[..i] && a[i] < b[i];
        assert a[1..][..i - 1] == a[..i][1..] == b[..i][1..] == b[1..][..i - 1];
        assert a[1..][i - 1] < b[1..][i - 1];
      }
      if a <= b { assert a[1..] <= b[1..]; }
    } else if |a| > 0 && |b| > 0 {
      if a[0] < b[0] { assert a[..0] == b[..0]; }
      assert forall i :: 0 < i < |a| && i < |b| ==> a[..i][0] == a[0] && b[..i][0] == b[0];
    }
  }

  lemma {:induction false} StringLeTotal(a: string, b: string)
    ensures StringLe(a, b) || StringLe(b, a)
    ensures StringLe(a, b) && StringLe(b, a) ==> a == b
  {
    if |a| > 0 && |b| > 0 {
      StringLeTotal(a[1..], b[1..]);
      assert a == [a[0]] + a[1..] && b == [b[0]] + b[1..];
    }
  }

  lemma {:induction false} StringLeTransitive(a: string, b: string, c: string)
    requires StringLe(a, b) && StringLe(b, c)
    ensures StringLe(a, c)
  {
    if |a| > 0 && a[0] == b[0] == c[0] {
      StringLeTransitive(a[1..], b[1..], c[1..]);
    }
  }

  lemma StringOrder()
    ensures Total(StringLe)
    ensures forall a, b :: StringLe(a, b) && StringLe(b, a) ==> a == b
  {
    forall a, b ensures StringLe(a, b) || StringLe(b, a) ensures StringLe(a, b) && StringLe(b, a) ==> a == b {
      StringLeTotal(a, b);
    }
    forall a, b, c | StringLe(a, b) && StringLe(b, c) ensures StringLe(a, c) {
      StringLeTransitive(a, b, c);
    }
  }
}
