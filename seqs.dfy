/**
 * Sequence operations the pages apply to their lists: `Array.prototype.filter`
 * with a predicate, and `Array.prototype.sort` with a comparator.
 */
module Seqs {

  /** The array filter: the elements satisfying `keep`, in their original order. */
  function Filter<T(!new)>(xs: seq<T>, keep: T -> bool): (r: seq<T>)
    ensures |r| <= |xs|
    ensures forall x :: x in r <==> x in xs && keep(x)
  {
    if xs == [] then []
    else
      assert xs == [xs[0]] + xs[1..];
      (if keep(xs[0]) then [xs[0]] else []) + Filter(xs[1..], keep)
  }

  /** Filtering keeps every occurrence of a kept element and none of a dropped one. */
  lemma {:induction false} FilterCount<T(!new)>(xs: seq<T>, keep: T -> bool, x: T)
    ensures multiset(Filter(xs, keep))[x] == if keep(x) then multiset(xs)[x] else 0
  {
    if xs != [] {
      FilterCount(xs[1..], keep, x);
      assert xs == [xs[0]] + xs[1..];
    }
  }

  /** `a` is obtained from `b` by deleting elements, without reordering the rest. */
  ghost predicate IsSubsequence<T>(a: seq<T>, b: seq<T>)
    decreases |b|
  {
    a == [] || (b != [] && ((a[0] == b[0] && IsSubsequence(a[1..], b[1..])) || IsSubsequence(a, b[1..])))
  }

  /** Filtering keeps the surviving elements in their original order. */
  lemma {:induction false} FilterIsSubsequence<T(!new)>(xs: seq<T>, keep: T -> bool)
    ensures IsSubsequence(Filter(xs, keep), xs)
  {
    if xs != [] {
      FilterIsSubsequence(xs[1..], keep);
      var rest := Filter(xs[1..], keep);
      if keep(xs[0]) {
        assert Filter(xs, keep) == [xs[0]] + rest;
        assert ([xs[0]] + rest)[1..] == rest;
      } else {
        assert Filter(xs, keep) == rest;
      }
    }
  }

  /** A filter that rejects nothing returns its input unchanged. */
  lemma {:induction false} FilterKeepsAll<T(!new)>(xs: seq<T>, keep: T -> bool)
    requires forall x :: x in xs ==> keep(x)
    ensures Filter(xs, keep) == xs
  {
    if xs != [] {
      assert xs[0] in xs;
      FilterKeepsAll(xs[1..], keep);
    }
  }

  /** A filter that rejects every element returns nothing. */
  lemma {:induction false} FilterKeepsNone<T(!new)>(xs: seq<T>, keep: T -> bool)
    requires forall x :: x in xs ==> !keep(x)
    ensures Filter(xs, keep) == []
  {
    if xs != [] {
      assert xs[0] in xs;
      FilterKeepsNone(xs[1..], keep);
    }
  }

  /** Filters whose predicates agree on the elements give the same result. */
  lemma {:induction false} FilterCongruent<T(!new)>(xs: seq<T>, f: T -> bool, g: T -> bool)
    requires forall x :: x in xs ==> f(x) == g(x)
    ensures Filter(xs, f) == Filter(xs, g)
  {
    if xs != [] {
      assert xs[0] in xs;
      FilterCongruent(xs[1..], f, g);
    }
  }

  /** Filtering never duplicates an element: the result is a sub-multiset of the input. */
  lemma {:induction false} FilterSubMultiset<T(!new)>(xs: seq<T>, keep: T -> bool)
    ensures multiset(Filter(xs, keep)) <= multiset(xs)
  {
    if xs != [] {
      FilterSubMultiset(xs[1..], keep);
      assert xs == [xs[0]] + xs[1..];
    }
  }

  /** Two filters with disjoint predicates together select what the filter by their disjunction selects. */
  lemma {:induction false} FilterDisjointUnion<T(!new)>(xs: seq<T>, f: T -> bool, g: T -> bool, h: T -> bool)
    requires forall x :: x in xs ==> (h(x) <==> f(x) || g(x)) && !(f(x) && g(x))
    ensures multiset(Filter(xs, f)) + multiset(Filter(xs, g)) == multiset(Filter(xs, h))
  {
    if xs != [] {
      assert xs[0] in xs;
      FilterDisjointUnion(xs[1..], f, g, h);
    }
  }

  /** A comparator as `Array.prototype.sort` expects one: `a` may come before `b` when
      `cmp(a, b) <= 0`, and that relation is total and transitive. */
  ghost predicate Consistent<T(!new)>(cmp: (T, T) -> int) {
    && (forall a, b :: cmp(a, b) <= 0 || cmp(b, a) <= 0)
    && (forall a, b, c :: cmp(a, b) <= 0 && cmp(b, c) <= 0 ==> cmp(a, c) <= 0)
  }

  /** Every element may come before every later one. */
  ghost predicate SortedBy<T>(s: seq<T>, cmp: (T, T) -> int) {
    forall i, j :: 0 <= i < j < |s| ==> cmp(s[i], s[j]) <= 0
  }

  /** Inserts `x` before the first element it may precede. */
  function Insert<T(!new)>(x: T, s: seq<T>, cmp: (T, T) -> int): (r: seq<T>)
    ensures multiset(r) == multiset(s) + multiset{x}
    ensures forall y :: y in r <==> y == x || y in s
  {
    if s == [] then [x]
    else if cmp(x, s[0]) <= 0 then [x] + s
    else
      assert s == [s[0]] + s[1..];
      [s[0]] + Insert(x, s[1..], cmp)
  }

  /** Sorting a copy of `s` with the comparator `cmp`, as an insertion sort: a rearrangement of `s`. */
  function Sort<T(!new)>(s: seq<T>, cmp: (T, T) -> int): (r: seq<T>)
    ensures multiset(r) == multiset(s)
    ensures |r| == |s|
  {
    if s == [] then []
    else
      assert s == [s[0]] + s[1..];
      var r := Insert(s[0], Sort(s[1..], cmp), cmp);
      assert |r| == |multiset(r)| == |multiset(s)| == |s|;
      r
  }

  /** An element that may precede the head of a sorted sequence may precede all of it. */
  lemma ConsSorted<T(!new)>(x: T, s: seq<T>, cmp: (T, T) -> int)
    requires Consistent(cmp) && SortedBy(s, cmp)
    requires s != [] ==> cmp(x, s[0]) <= 0
    ensures SortedBy([x] + s, cmp)
  {
    var r := [x] + s;
    forall i, j | 0 <= i < j < |r| ensures cmp(r[i], r[j]) <= 0 {
      if i == 0 && j > 1 {
        assert cmp(s[0], s[j - 1]) <= 0;
      } else if i > 0 {
        assert r[i] == s[i - 1] && r[j] == s[j - 1];
      }
    }
  }

  /** Inserting into a sorted sequence keeps it sorted. */
  lemma {:induction false} InsertSorted<T(!new)>(x: T, s: seq<T>, cmp: (T, T) -> int)
    requires Consistent(cmp) && SortedBy(s, cmp)
    ensures SortedBy(Insert(x, s, cmp), cmp)
  {
    if s != [] && cmp(x, s[0]) > 0 {
      var t := s[1..];
      assert SortedBy(t, cmp) by {
        forall i, j | 0 <= i < j < |t| ensures cmp(t[i], t[j]) <= 0 {
          assert t[i] == s[i + 1] && t[j] == s[j + 1];
        }
      }
      InsertSorted(x, t, cmp);
      var tail := Insert(x, t, cmp);
      assert cmp(s[0], x) <= 0;
      assert tail[0] == x || (t != [] && tail[0] == t[0]);
      assert t != [] ==> cmp(s[0], t[0]) <= 0;
      ConsSorted(s[0], tail, cmp);
    } else {
      ConsSorted(x, s, cmp);
    }
  }

  /** A comparator that ties every pair of elements leaves the sequence in its order. */
  lemma {:induction false} SortAllTiedKeepsOrder<T(!new)>(s: seq<T>, cmp: (T, T) -> int)
    requires forall i, j :: 0 <= i < |s| && 0 <= j < |s| ==> cmp(s[i], s[j]) == 0
    ensures Sort(s, cmp) == s
  {
    if s != [] {
      var t := s[1..];
      forall i, j | 0 <= i < |t| && 0 <= j < |t| ensures cmp(t[i], t[j]) == 0 {
        assert t[i] == s[i + 1] && t[j] == s[j + 1];
      }
      SortAllTiedKeepsOrder(t, cmp);
      if t != [] {
        assert cmp(s[0], t[0]) == 0 by { assert t[0] == s[1]; }
      }
      assert s == [s[0]] + t;
    }
  }

  /** With a consistent comparator the result is sorted. */
  lemma {:induction false} SortSorted<T(!new)>(s: seq<T>, cmp: (T, T) -> int)
    requires Consistent(cmp)
    ensures SortedBy(Sort(s, cmp), cmp)
  {
    if s != [] {
      SortSorted(s[1..], cmp);
      InsertSorted(s[0], Sort(s[1..], cmp), cmp);
    }
  }
}
