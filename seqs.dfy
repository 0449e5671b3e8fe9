/** The array combinators the source uses (`filter`, `map`, `some`, `find`,
  * `reduce` with `+`), defined once and proved once. Every definition
  * recurses on the LAST element, matching the left-to-right order in which
  * JavaScript visits an array. */
module Seqs {
  import opened Wrappers

  /** `Array.prototype.filter`: the elements that satisfy `p`, in order. */
  function Filter<T>(s: seq<T>, p: T -> bool): (r: seq<T>)
    ensures |r| <= |s|
  {
    if s == [] then [] else
    if p(s[|s| - 1]) then Filter(s[..|s| - 1], p) + [s[|s| - 1]] else Filter(s[..|s| - 1], p)
  }

  /** The filter keeps exactly the elements that satisfy `p`. */
  lemma {:induction false} FilterMembers<T>(s: seq<T>, p: T -> bool)
    ensures forall x :: x in Filter(s, p) ==> x in s && p(x)
    ensures forall x :: x in s && p(x) ==> x in Filter(s, p)
  {
    if s != [] {
      var init := s[..|s| - 1];
      assert s == init + [s[|s| - 1]];
      FilterMembers(init, p);
    }
  }

  /** `Array.prototype.map`. */
  function Map<T, U>(s: seq<T>, f: T -> U): (r: seq<U>)
    ensures |r| == |s|
    ensures forall i :: 0 <= i < |s| ==> r[i] == f(s[i])
  {
    if s == [] then [] else Map(s[..|s| - 1], f) + [f(s[|s| - 1])]
  }

  /** A sequence that agrees with `f` position by position is the map of `f`. */
  lemma MapPointwise<T, U>(s: seq<T>, f: T -> U, t: seq<U>)
    requires |s| == |t|
    requires forall i :: 0 <= i < |s| ==> f(s[i]) == t[i]
    ensures Map(s, f) == t
  {
  }

  /** What holds of every kept element before filtering holds of every
    * element after. */
  lemma FilterCarries<T>(s: seq<T>, p: T -> bool, q: T -> bool)
    requires forall i :: 0 <= i < |s| && p(s[i]) ==> q(s[i])
    ensures forall i :: 0 <= i < |Filter(s, p)| ==> q(Filter(s, p)[i])
  {
    var f := Filter(s, p);
    FilterMembers(s, p);
    forall i | 0 <= i < |f| ensures q(f[i]) {
      assert f[i] in f;
    }
  }

  /** `Array.prototype.some`. */
  function Any<T>(s: seq<T>, p: T -> bool): (r: bool)
    ensures r <==> exists i :: 0 <= i < |s| && p(s[i])
  {
    if s == [] then false
    else
      assert forall i :: 0 <= i < |s| - 1 ==> s[..|s| - 1][i] == s[i];
      Any(s[..|s| - 1], p) || p(s[|s| - 1])
  }

  /** `Array.prototype.find`: the first element satisfying `p`, if any. */
  function Find<T>(s: seq<T>, p: T -> bool): (r: Option<T>)
    ensures r.None? <==> forall i :: 0 <= i < |s| ==> !p(s[i])
    ensures r.Some? ==> exists i :: 0 <= i < |s| && s[i] == r.value && p(s[i]) && FirstMatch(s, p, i)
  {
    if s == [] then None
    else if p(s[0]) then
      assert FirstMatch(s, p, 0);
      Some(s[0])
    else
      var r := Find(s[1..], p);
      assert forall i :: 0 < i < |s| ==> s[1..][i - 1] == s[i];
      assert forall k :: 0 <= k < |s| - 1 && FirstMatch(s[1..], p, k) ==> FirstMatch(s, p, k + 1);
      r
  }

  /** No element before index `i` satisfies `p`. */
  predicate FirstMatch<T>(s: seq<T>, p: T -> bool, i: int)
    requires 0 <= i <= |s|
  {
    forall j :: 0 <= j < i ==> !p(s[j])
  }

  /** The positions whose element satisfies `p`: a declarative reference for counting. */
  ghost function IndicesWhere<T>(s: seq<T>, p: T -> bool): set<int>
  {
    set i | 0 <= i < |s| && p(s[i])
  }

  /** `filter(p).length` is the number of positions whose element satisfies `p`. */
  lemma {:induction false} FilterLengthIsCardinality<T>(s: seq<T>, p: T -> bool)
    ensures |Filter(s, p)| == |IndicesWhere(s, p)|
  {
    if s != [] {
      var n := |s| - 1;
      FilterLengthIsCardinality(s[..n], p);
      var before := IndicesWhere(s[..n], p);
      assert n !in before;
      if p(s[n]) {
        assert IndicesWhere(s, p) == before + {n};
      } else {
        assert IndicesWhere(s, p) == before;
      }
    }
  }

  /** Filtering twice by the same predicate gives what filtering once gives. */
  lemma {:induction false} FilterIdempotent<T>(s: seq<T>, p: T -> bool)
    ensures Filter(Filter(s, p), p) == Filter(s, p)
  {
    if s != [] {
      var n := |s| - 1;
      FilterIdempotent(s[..n], p);
      if p(s[n]) {
        var f := Filter(s[..n], p);
        assert (f + [s[n]])[..|f + [s[n]]| - 1] == f;
      }
    }
  }

  /** `a` is `b` with some elements deleted (order kept). */
  ghost predicate IsSubsequence<T>(a: seq<T>, b: seq<T>)
    decreases |a| + |b|
  {
    a == [] ||
    (b != [] &&
     ((a[|a| - 1] == b[|b| - 1] && IsSubsequence(a[..|a| - 1], b[..|b| - 1])) ||
      IsSubsequence(a, b[..|b| - 1])))
  }

  lemma {:induction false} FilterIsSubsequence<T>(s: seq<T>, p: T -> bool)
    ensures IsSubsequence(Filter(s, p), s)
  {
    if s != [] {
      var n := |s| - 1;
      FilterIsSubsequence(s[..n], p);
      if p(s[n]) {
        var f := Filter(s[..n], p);
        assert (f + [s[n]])[..|f + [s[n]]| - 1] == f;
      }
    }
  }

  /** A subsequence of `s` whose elements all satisfy `p` keeps at most as
    * many elements as the filter does. */
  lemma {:induction false} SubsequenceWithinFilter<T>(r: seq<T>, s: seq<T>, p: T -> bool)
    requires IsSubsequence(r, s)
    requires forall i :: 0 <= i < |r| ==> p(r[i])
    ensures |r| <= |Filter(s, p)|
    decreases |r| + |s|
  {
    if r != [] {
      var m, n := |r| - 1, |s| - 1;
      if r[m] == s[n] && IsSubsequence(r[..m], s[..n]) {
        SubsequenceWithinFilter(r[..m], s[..n], p);
      } else {
        SubsequenceWithinFilter(r, s[..n], p);
      }
    }
  }

  /** The filter is the only subsequence of `s` made of elements satisfying
    * `p` that is as long as the number of positions satisfying `p`: the
    * three facts pin the result down. */
  lemma FilterDetermined<T>(r: seq<T>, s: seq<T>, p: T -> bool)
    requires IsSubsequence(r, s)
    requires forall i :: 0 <= i < |r| ==> p(r[i])
    requires |r| == |IndicesWhere(s, p)|
    ensures r == Filter(s, p)
  {
    FilterLengthIsCardinality(s, p);
    FilterDeterminedByLength(r, s, p);
  }

  lemma {:induction false} FilterDeterminedByLength<T>(r: seq<T>, s: seq<T>, p: T -> bool)
    requires IsSubsequence(r, s)
    requires forall i :: 0 <= i < |r| ==> p(r[i])
    requires |r| == |Filter(s, p)|
    ensures r == Filter(s, p)
    decreases |r| + |s|
  {
    if r != [] {
      var m, n := |r| - 1, |s| - 1;
      if r[m] == s[n] && IsSubsequence(r[..m], s[..n]) {
        assert p(s[n]);
        FilterDeterminedByLength(r[..m], s[..n], p);
        assert r == r[..m] + [r[m]];
      } else {
        SubsequenceWithinFilter(r, s[..n], p);
        if !p(s[n]) {
          FilterDeterminedByLength(r, s[..n], p);
        }
      }
    }
  }

  /** `map` keeps a subsequence a subsequence. */
  lemma {:induction false} MapPreservesSubsequence<T, U>(a: seq<T>, b: seq<T>, f: T -> U)
    requires IsSubsequence(a, b)
    ensures IsSubsequence(Map(a, f), Map(b, f))
    decreases |a| + |b|
  {
    if a != [] {
      var ma, mb := Map(a, f), Map(b, f);
      assert Map(b, f)[..|b| - 1] == Map(b[..|b| - 1], f);
      if a[|a| - 1] == b[|b| - 1] && IsSubsequence(a[..|a| - 1], b[..|b| - 1]) {
        MapPreservesSubsequence(a[..|a| - 1], b[..|b| - 1], f);
        assert ma[..|ma| - 1] == Map(a[..|a| - 1], f);
      } else {
        MapPreservesSubsequence(a, b[..|b| - 1], f);
      }
    }
  }

  /** When, on the elements of `s`, `q` holds exactly when one of three
    * mutually exclusive predicates does, the three filtered lengths add up
    * to the length of the `q`-filter. */
  lemma {:induction false} FilterLengthsPartition<T>(s: seq<T>, p1: T -> bool, p2: T -> bool, p3: T -> bool, q: T -> bool)
    requires forall x :: x in s ==> (q(x) <==> p1(x) || p2(x) || p3(x))
    requires forall x :: x in s ==> !(p1(x) && p2(x)) && !(p1(x) && p3(x)) && !(p2(x) && p3(x))
    ensures |Filter(s, p1)| + |Filter(s, p2)| + |Filter(s, p3)| == |Filter(s, q)|
  {
    if s != [] {
      var n := |s| - 1;
      assert forall x :: x in s[..n] ==> x in s;
      assert s[n] in s;
      FilterLengthsPartition(s[..n], p1, p2, p3, q);
    }
  }

  /** Filtering by a predicate that every element satisfies changes nothing. */
  lemma {:induction false} FilterAll<T>(s: seq<T>, p: T -> bool)
    requires forall i :: 0 <= i < |s| ==> p(s[i])
    ensures Filter(s, p) == s
  {
    if s != [] {
      var n := |s| - 1;
      FilterAll(s[..n], p);
      assert s[..n] + [s[n]] == s;
    }
  }

  /** Filtering by a predicate that no element satisfies leaves nothing. */
  lemma FilterNone<T>(s: seq<T>, p: T -> bool)
    requires forall i :: 0 <= i < |s| ==> !p(s[i])
    ensures Filter(s, p) == []
  {
  }

  /** Filtering distributes over concatenation. */
  lemma {:induction false} FilterConcat<T>(a: seq<T>, b: seq<T>, p: T -> bool)
    ensures Filter(a + b, p) == Filter(a, p) + Filter(b, p)
    decreases |b|
  {
    if b == [] {
      assert a + b == a;
    } else {
      var n := |b| - 1;
      assert (a + b)[..|a + b| - 1] == a + b[..n];
      assert (a + b)[|a + b| - 1] == b[n];
      FilterConcat(a, b[..n], p);
    }
  }

  /** `reduce((total, x) => total + value(x), 0)`. */
  function FoldSum<T>(s: seq<T>, value: T -> real): real
  {
    if s == [] then 0.0 else FoldSum(s[..|s| - 1], value) + value(s[|s| - 1])
  }

  lemma {:induction false} FoldSumConcat<T>(a: seq<T>, b: seq<T>, value: T -> real)
    ensures FoldSum(a + b, value) == FoldSum(a, value) + FoldSum(b, value)
    decreases |b|
  {
    if b != [] {
      var n := |b| - 1;
      assert (a + b)[..|a + b| - 1] == a + b[..n];
      assert (a + b)[|a + b| - 1] == b[n];
      FoldSumConcat(a, b[..n], value);
    } else {
      assert a + b == a;
    }
  }

  /** Removing the element at `k` removes one copy of it from the multiset. */
  lemma MultisetRemoveAt<T>(b: seq<T>, k: int)
    requires 0 <= k < |b|
    ensures multiset(b[..k] + b[k + 1..]) == multiset(b) - multiset{b[k]}
  {
    assert b == b[..k] + [b[k]] + b[k + 1..];
  }

  /** Removing the element at `k` removes its contribution from the sum. */
  lemma FoldSumRemoveAt<T>(b: seq<T>, k: int, value: T -> real)
    requires 0 <= k < |b|
    ensures FoldSum(b, value) == FoldSum(b[..k] + b[k + 1..], value) + value(b[k])
  {
    assert b == b[..k] + [b[k]] + b[k + 1..];
    FoldSumConcat(b[..k] + [b[k]], b[k + 1..], value);
    FoldSumConcat(b[..k], b[k + 1..], value);
    assert (b[..k] + [b[k]])[..k] == b[..k];
  }

  /** The sum does not depend on the order of the elements. */
  lemma {:induction false} FoldSumPermutation<T>(a: seq<T>, b: seq<T>, value: T -> real)
    requires multiset(a) == multiset(b)
    ensures FoldSum(a, value) == FoldSum(b, value)
    decreases |a|
  {
    if a != [] {
      var n := |a| - 1;
      var x := a[n];
      assert x in multiset(b);
      var k :| 0 <= k < |b| && b[k] == x;
      MultisetRemoveAt(a, n);
      MultisetRemoveAt(b, k);
      assert a[..n] + a[n + 1..] == a[..n];
      FoldSumPermutation(a[..n], b[..k] + b[k + 1..], value);
      FoldSumRemoveAt(b, k, value);
    }
  }

  /** Non-negative contributions give a non-negative sum. */
  lemma {:induction false} FoldSumNonNegative<T>(s: seq<T>, value: T -> real)
    requires forall x :: x in s ==> value(x) >= 0.0
    ensures FoldSum(s, value) >= 0.0
  {
    if s != [] {
      var n := |s| - 1;
      assert forall x :: x in s[..n] ==> x in s;
      assert s[n] in s;
      FoldSumNonNegative(s[..n], value);
    }
  }
}
