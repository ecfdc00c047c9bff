/** Generic sequence operations the components share: the order-preserving
    filter (`Array.prototype.filter`, a Python loop that appends), the first
    match (`Array.prototype.find`) and the prefix cut (`slice(0, n)`). */
module Seqs {
  import opened Wrappers

  /** `a` can be obtained from `b` by deleting elements, keeping the order of the rest. */
  ghost predicate IsSubsequence<T>(a: seq<T>, b: seq<T>)
    decreases |b|
  {
    |a| == 0 ||
    (|b| > 0 && ((a[0] == b[0] && IsSubsequence(a[1..], b[1..])) || IsSubsequence(a, b[1..])))
  }

  /** The elements of `xs` that satisfy `p`, in their original order and with their multiplicity. */
  function Keep<T(!new)>(xs: seq<T>, p: T -> bool): (r: seq<T>)
    ensures |r| <= |xs|
    ensures forall x :: x in r <==> x in xs && p(x)
    ensures forall x :: multiset(r)[x] == if p(x) then multiset(xs)[x] else 0
    ensures IsSubsequence(r, xs)
  {
    if |xs| == 0 then []
    else
      var rest := Keep(xs[1..], p);
      assert xs == [xs[0]] + xs[1..];
      if p(xs[0]) then [xs[0]] + rest else rest
  }

  /** Index of the first element of `xs` that satisfies `p`, if any. */
  function FirstWhere<T>(xs: seq<T>, p: T -> bool): (r: Option<nat>)
    ensures r.Some? ==> r.value < |xs| && p(xs[r.value])
    ensures r.Some? ==> forall j :: 0 <= j < r.value ==> !p(xs[j])
    ensures r.None? <==> forall j :: 0 <= j < |xs| ==> !p(xs[j])
  {
    if |xs| == 0 then None
    else if p(xs[0]) then Some(0)
    else match FirstWhere(xs[1..], p)
      case None => None
      case Some(i) => Some(i + 1)
  }

  /** The first element of `xs` that satisfies `p`, as `Array.prototype.find` returns it. */
  function Find<T>(xs: seq<T>, p: T -> bool): (r: Option<T>)
    ensures r.Some? ==> r.value in xs && p(r.value)
    ensures r.None? <==> forall x :: x in xs ==> !p(x)
  {
    match FirstWhere(xs, p)
    case None => None
    case Some(i) => Some(xs[i])
  }

  /** `xs.slice(0, n)`: the first `n` elements, or all of them when there are fewer. */
  function Take<T>(xs: seq<T>, n: nat): (r: seq<T>)
    ensures |r| == if |xs| <= n then |xs| else n
    ensures r == xs[..|r|]
  {
    if |xs| <= n then xs else xs[..n]
  }

  /** Applies `f` to every element, keeping the order. */
  function Map<T, U>(xs: seq<T>, f: T -> U): (r: seq<U>)
    ensures |r| == |xs|
    ensures forall i :: 0 <= i < |xs| ==> r[i] == f(xs[i])
  {
    seq(|xs|, i requires 0 <= i < |xs| => f(xs[i]))
  }

  /** No element occurs twice. */
  predicate Distinct<T(==)>(xs: seq<T>)
  {
    forall i, j :: 0 <= i < j < |xs| ==> xs[i] != xs[j]
  }

  /** The first match is the head of the filtered list; there is none exactly when the filter is empty. */
  lemma {:induction false} FirstWhereIsHeadOfKeep<T(!new)>(xs: seq<T>, p: T -> bool)
    ensures FirstWhere(xs, p).None? <==> Keep(xs, p) == []
    ensures FirstWhere(xs, p).Some? ==> Keep(xs, p)[0] == xs[FirstWhere(xs, p).value]
  {
    if |xs| > 0 {
      if p(xs[0]) {
        assert FirstWhere(xs, p) == Some(0);
        assert Keep(xs, p) == [xs[0]] + Keep(xs[1..], p);
      } else {
        FirstWhereIsHeadOfKeep(xs[1..], p);
        assert Keep(xs, p) == Keep(xs[1..], p);
        match FirstWhere(xs[1..], p)
        case None =>
        case Some(i) => assert FirstWhere(xs, p) == Some(i + 1);
      }
    }
  }

  /** Filtering distributes over concatenation. */
  lemma {:induction false} KeepAppend<T(!new)>(a: seq<T>, b: seq<T>, p: T -> bool)
    ensures Keep(a + b, p) == Keep(a, p) + Keep(b, p)
  {
    if |a| > 0 {
      assert (a + b)[1..] == a[1..] + b;
      KeepAppend(a[1..], b, p);
    } else {
      assert a + b == b;
    }
  }

  /** The tail of a list without duplicates has none, and does not hold the head. */
  lemma DistinctTail<T>(xs: seq<T>)
    requires Distinct(xs) && |xs| > 0
    ensures Distinct(xs[1..]) && xs[0] !in xs[1..]
  {
    var tail := xs[1..];
    forall i, j | 0 <= i < j < |tail| ensures tail[i] != tail[j] {
      assert tail[i] == xs[i + 1] && tail[j] == xs[j + 1];
    }
    forall k | 0 <= k < |tail| ensures tail[k] != xs[0] {
      assert tail[k] == xs[k + 1];
    }
  }

  /** A new element in front of a list without duplicates keeps it free of duplicates. */
  lemma DistinctCons<T>(x: T, ys: seq<T>)
    requires Distinct(ys) && x !in ys
    ensures Distinct([x] + ys)
  {
    var r := [x] + ys;
    forall i, j | 0 <= i < j < |r| ensures r[i] != r[j] {
      assert r[j] == ys[j - 1];
      if i > 0 {
        assert r[i] == ys[i - 1];
      }
    }
  }

  /** Filtering a list without duplicates yields a list without duplicates. */
  lemma {:induction false} KeepDistinct<T(!new)>(xs: seq<T>, p: T -> bool)
    requires Distinct(xs)
    ensures Distinct(Keep(xs, p))
  {
    if |xs| > 0 {
      var tail := xs[1..];
      DistinctTail(xs);
      KeepDistinct(tail, p);
      if p(xs[0]) {
        assert Keep(xs, p) == [xs[0]] + Keep(tail, p);
        DistinctCons(xs[0], Keep(tail, p));
      } else {
        assert Keep(xs, p) == Keep(tail, p);
      }
    }
  }

  /** Filters with the same verdict on every element keep the same elements. */
  lemma {:induction false} KeepCongruent<T(!new)>(xs: seq<T>, p: T -> bool, q: T -> bool)
    requires forall x :: x in xs ==> p(x) == q(x)
    ensures Keep(xs, p) == Keep(xs, q)
  {
    if |xs| > 0 {
      KeepCongruent(xs[1..], p, q);
    }
  }
}
