/** The two shapes every report in the store is built from: a query that
    keeps the rows satisfying a condition, and `sum(f(row) for row in rows)`. */
module Sums {

  /** The rows of `xs` satisfying `p`, in their original order. */
  function Filter<T(!new)>(xs: seq<T>, p: T -> bool): (r: seq<T>)
    ensures |r| <= |xs|
    ensures forall x :: multiset(r)[x] == if p(x) then multiset(xs)[x] else 0
    ensures forall x :: x in r ==> x in xs && p(x)
    decreases |xs|
  {
    if xs == [] then []
    else
      var rest := Filter(xs[1..], p);
      assert xs == [xs[0]] + xs[1..];
      if p(xs[0]) then [xs[0]] + rest else rest
  }

  /** `sum(f(x) for x in xs)`, starting from 0. A sum of terms that are
      all non-negative is non-negative, and one of zero terms is zero. */
  function SumBy<T>(xs: seq<T>, f: T -> int): (r: int)
    ensures (forall x :: x in xs ==> f(x) >= 0) ==> r >= 0
    ensures (forall x :: x in xs ==> f(x) == 0) ==> r == 0
    decreases |xs|
  {
    if xs == [] then 0 else f(xs[0]) + SumBy(xs[1..], f)
  }

  /** Filtering a non-empty sequence: decide its first row, then filter the rest. */
  lemma FilterFirst<T(!new)>(xs: seq<T>, p: T -> bool)
    requires xs != []
    ensures Filter(xs, p) == (if p(xs[0]) then [xs[0]] else []) + Filter(xs[1..], p)
  {
  }

  lemma {:induction false} FilterAppend<T(!new)>(a: seq<T>, b: seq<T>, p: T -> bool)
    ensures Filter(a + b, p) == Filter(a, p) + Filter(b, p)
    decreases |a|
  {
    if a == [] {
      assert a + b == b;
    } else {
      var ab := a + b;
      assert ab[0] == a[0] && ab[1..] == a[1..] + b;
      FilterAppend(a[1..], b, p);
      FilterFirst(ab, p);
      FilterFirst(a, p);
    }
  }

  lemma {:induction false} SumByAppend<T>(a: seq<T>, b: seq<T>, f: T -> int)
    ensures SumBy(a + b, f) == SumBy(a, f) + SumBy(b, f)
    decreases |a|
  {
    if a != [] {
      assert (a + b)[1..] == a[1..] + b;
      SumByAppend(a[1..], b, f);
    } else {
      assert a + b == b;
    }
  }

  /** A sum does not depend on the order the rows come in: a query without
      ORDER BY may return them in any order. */
  lemma {:induction false} SumByPermutation<T>(a: seq<T>, b: seq<T>, f: T -> int)
    requires multiset(a) == multiset(b)
    ensures SumBy(a, f) == SumBy(b, f)
    decreases |a|
  {
    if a == [] {
      assert |b| == |multiset(b)| == 0;
    } else {
      var x := a[0];
      assert x in multiset(b);
      var i :| 0 <= i < |b| && b[i] == x;
      var rest := b[..i] + b[i + 1..];
      assert b == b[..i] + ([x] + b[i + 1..]);
      assert a == [x] + a[1..];
      assert multiset(b) == multiset(b[..i]) + multiset([x]) + multiset(b[i + 1..]);
      assert multiset(rest) == multiset(b[..i]) + multiset(b[i + 1..]);
      assert multiset(a) == multiset([x]) + multiset(a[1..]);
      assert multiset(a[1..]) == multiset(a) - multiset{x};
      assert multiset(rest) == multiset(b) - multiset{x};
      SumByPermutation(a[1..], rest, f);
      SumByAppend(b[..i], [x] + b[i + 1..], f);
      SumByAppend(b[..i], b[i + 1..], f);
      assert SumBy([x] + b[i + 1..], f) == f(x) + SumBy(b[i + 1..], f) by {
        assert ([x] + b[i + 1..])[1..] == b[i + 1..];
      }
    }
  }
}
