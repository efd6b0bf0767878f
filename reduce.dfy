/**
 * Reductions over a sequence of reals: sum, arithmetic mean, minimum and
 * maximum, as numpy's `.sum()`, `.mean()`, `.min()` and `.max()` compute them
 * along one axis (exact arithmetic; rounding is not modelled).
 *
 * Every reduction is defined from the back (the last element is peeled off),
 * so a loop that appends one sample at a time keeps it up to date directly.
 */
module Reduce {

  function Last(s: seq<real>): real
    requires |s| > 0
  {
    s[|s| - 1]
  }

  function Init(s: seq<real>): seq<real>
    requires |s| > 0
  {
    s[..|s| - 1]
  }

  function Sum(s: seq<real>): real
  {
    if |s| == 0 then 0.0 else Sum(Init(s)) + Last(s)
  }

  function Mean(s: seq<real>): real
    requires |s| > 0
  {
    Sum(s) / |s| as real
  }

  /** The least element: it occurs in `s` and no element is below it. */
  function Min(s: seq<real>): (m: real)
    requires |s| > 0
    ensures m in s
    ensures forall x :: x in s ==> m <= x
  {
    if |s| == 1 then s[0]
    else
      assert s == Init(s) + [Last(s)];
      var m := Min(Init(s));
      if Last(s) < m then Last(s) else m
  }

  /** The greatest element: it occurs in `s` and no element is above it. */
  function Max(s: seq<real>): (m: real)
    requires |s| > 0
    ensures m in s
    ensures forall x :: x in s ==> x <= m
  {
    if |s| == 1 then s[0]
    else
      assert s == Init(s) + [Last(s)];
      var m := Max(Init(s));
      if Last(s) > m then Last(s) else m
  }

  lemma {:induction false} SumAppend(a: seq<real>, b: seq<real>)
    ensures Sum(a + b) == Sum(a) + Sum(b)
    decreases |b|
  {
    if |b| == 0 {
      assert a + b == a;
    } else {
      assert Init(a + b) == a + Init(b);
      SumAppend(a, Init(b));
    }
  }

  lemma {:induction false} SumBounds(s: seq<real>, lo: real, hi: real)
    requires forall x :: x in s ==> lo <= x <= hi
    ensures |s| as real * lo <= Sum(s) <= |s| as real * hi
  {
    if |s| > 0 {
      assert Last(s) in s;
      assert forall x :: x in Init(s) ==> x in s;
      SumBounds(Init(s), lo, hi);
    }
  }

  /** A mean of values that all lie in [lo, hi] lies in [lo, hi]. */
  lemma MeanBounds(s: seq<real>, lo: real, hi: real)
    requires |s| > 0
    requires forall x :: x in s ==> lo <= x <= hi
    ensures lo <= Mean(s) <= hi
  {
    SumBounds(s, lo, hi);
    DivideBounds(Sum(s), |s| as real, lo, hi);
  }

  /** The mean lies between the minimum and the maximum. */
  lemma MinMeanMax(s: seq<real>)
    requires |s| > 0
    ensures Min(s) <= Mean(s) <= Max(s)
  {
    MeanBounds(s, Min(s), Max(s));
  }

  lemma DivideBounds(x: real, n: real, lo: real, hi: real)
    requires n > 0.0 && n * lo <= x <= n * hi
    ensures lo <= x / n <= hi
  {
    var q := x / n;
    assert q * n == x;
  }

  /** A single sample is its own mean, minimum and maximum. */
  lemma Singleton(x: real)
    ensures Sum([x]) == x && Mean([x]) == x && Min([x]) == x && Max([x]) == x
  {
    assert Init([x]) == [];
  }

  /** The sum does not depend on the order of the elements. */
  lemma {:induction false} SumPermutation(a: seq<real>, b: seq<real>)
    requires multiset(a) == multiset(b)
    ensures Sum(a) == Sum(b)
    decreases |a|
  {
    if |a| > 0 {
      var n := |a| - 1;
      var i := FindIn(b, a[n]);
      SplitAt(a, n);
      SplitAt(b, i);
      SumPermutation(a[..n] + a[n + 1..], b[..i] + b[i + 1..]);
      SumRemove(a, n);
      SumRemove(b, i);
    } else {
      assert |b| == |multiset(b)| == 0;
    }
  }

  /** Mean, minimum and maximum do not depend on the order of the elements. */
  lemma ReductionsPermutation(a: seq<real>, b: seq<real>)
    requires multiset(a) == multiset(b)
    requires |a| > 0
    ensures |b| == |a|
    ensures Mean(a) == Mean(b) && Min(a) == Min(b) && Max(a) == Max(b)
  {
    assert |a| == |multiset(a)| == |multiset(b)| == |b|;
    SumPermutation(a, b);
    assert forall x :: x in a <==> x in b by {
      forall x ensures x in a <==> x in b {
        assert x in a <==> x in multiset(a);
        assert x in b <==> x in multiset(b);
      }
    }
  }

  /** Where an element of the multiset of `b` sits in `b`. */
  lemma FindIn<T>(b: seq<T>, x: T) returns (i: nat)
    requires x in multiset(b)
    ensures i < |b| && b[i] == x
  {
    assert x in b;
    i :| i < |b| && b[i] == x;
  }

  /**
   * A sequence is its part before `i`, its element at `i` and its part after
   * `i`; without the element, its multiset loses exactly that element.
   */
  lemma SplitAt<T>(s: seq<T>, i: nat)
    requires i < |s|
    ensures s == s[..i] + [s[i]] + s[i + 1..]
    ensures multiset(s[..i] + s[i + 1..]) == multiset(s) - multiset{s[i]}
  {
    assert s[..i + 1] == s[..i] + [s[i]];
    assert s == s[..i + 1] + s[i + 1..];
    assert multiset(s) == multiset(s[..i]) + multiset{s[i]} + multiset(s[i + 1..]);
  }

  /** An element in the middle adds itself to the sum of the rest. */
  lemma SumMiddle(a: seq<real>, x: real, b: seq<real>)
    ensures Sum(a + [x] + b) == Sum(a + b) + x
  {
    SumAppend(a + [x], b);
    SumAppend(a, [x]);
    SumAppend(a, b);
    Singleton(x);
  }

  /** Removing the element at `i` takes exactly that element off the sum. */
  lemma SumRemove(s: seq<real>, i: nat)
    requires i < |s|
    ensures Sum(s) == Sum(s[..i] + s[i + 1..]) + s[i]
  {
    SplitAt(s, i);
    SumMiddle(s[..i], s[i], s[i + 1..]);
  }

  /** A mean equal to the minimum means every element equals the minimum. */
  lemma MeanAtMin(s: seq<real>)
    requires |s| > 0 && Mean(s) == Min(s)
    ensures Max(s) == Min(s)
  {
    var i :| 0 <= i < |s| && s[i] == Max(s);
    MeanAtLowerBound(s, Min(s), Max(s), i);
  }

  /** A mean equal to the maximum means every element equals the maximum. */
  lemma MeanAtMax(s: seq<real>)
    requires |s| > 0 && Mean(s) == Max(s)
    ensures Min(s) == Max(s)
  {
    var i :| 0 <= i < |s| && s[i] == Min(s);
    MeanAtUpperBound(s, Min(s), Max(s), i);
  }

  lemma MeanAtLowerBound(s: seq<real>, lo: real, hi: real, i: nat)
    requires i < |s| && s[i] == hi
    requires forall x :: x in s ==> lo <= x <= hi
    requires Sum(s) / |s| as real == lo
    ensures hi <= lo
  {
    var rest := s[..i] + s[i + 1..];
    RestBounds(s, i, rest, lo, hi);
    SumRemove(s, i);
    SumBounds(rest, lo, hi);
    RemovedAtMost(Sum(s), Sum(rest), hi, lo, |s| as real, |rest| as real);
  }

  lemma MeanAtUpperBound(s: seq<real>, lo: real, hi: real, i: nat)
    requires i < |s| && s[i] == lo
    requires forall x :: x in s ==> lo <= x <= hi
    requires Sum(s) / |s| as real == hi
    ensures hi <= lo
  {
    var rest := s[..i] + s[i + 1..];
    RestBounds(s, i, rest, lo, hi);
    SumRemove(s, i);
    SumBounds(rest, lo, hi);
    RemovedAtLeast(Sum(s), Sum(rest), lo, hi, |s| as real, |rest| as real);
  }

  lemma RestBounds(s: seq<real>, i: nat, rest: seq<real>, lo: real, hi: real)
    requires i < |s| && rest == s[..i] + s[i + 1..]
    requires forall x :: x in s ==> lo <= x <= hi
    ensures |rest| == |s| - 1
    ensures forall x :: x in rest ==> lo <= x <= hi
  {
    assert forall x :: x in rest ==> x in s;
  }

  lemma DivideExact(x: real, n: real, q: real)
    requires n > 0.0 && x / n == q
    ensures x == n * q
  {
  }

  /** n values averaging `lo`, of which the other n - 1 are at least `lo`: the remaining one is at most `lo`. */
  lemma RemovedAtMost(total: real, restSum: real, top: real, lo: real, n: real, m: real)
    requires n > 0.0 && m == n - 1.0 && m * lo <= restSum
    requires total == restSum + top && total / n == lo
    ensures top <= lo
  {
    DivideExact(total, n, lo);
    assert n * lo == m * lo + lo;
  }

  /** n values averaging `hi`, of which the other n - 1 are at most `hi`: the remaining one is at least `hi`. */
  lemma RemovedAtLeast(total: real, restSum: real, bottom: real, hi: real, n: real, m: real)
    requires n > 0.0 && m == n - 1.0 && restSum <= m * hi
    requires total == restSum + bottom && total / n == hi
    ensures bottom >= hi
  {
    DivideExact(total, n, hi);
    assert n * hi == m * hi + hi;
  }

  /** Summing element-wise smaller values gives a smaller total. */
  lemma {:induction false} SumMonotone(a: seq<real>, b: seq<real>)
    requires |a| == |b|
    requires forall k :: 0 <= k < |a| ==> a[k] <= b[k]
    ensures Sum(a) <= Sum(b)
  {
    if |a| > 0 {
      SumMonotone(Init(a), Init(b));
    }
  }

  /** So the mean of element-wise smaller values is smaller. */
  lemma MeanMonotone(a: seq<real>, b: seq<real>)
    requires |a| == |b| > 0
    requires forall k :: 0 <= k < |a| ==> a[k] <= b[k]
    ensures Mean(a) <= Mean(b)
  {
    SumMonotone(a, b);
    var n := |a| as real;
    var qa, qb := Sum(a) / n, Sum(b) / n;
    assert qa * n == Sum(a) && qb * n == Sum(b);
    if qa > qb {
      assert qa * n > qb * n;
    }
  }

  /** A sequence of zeros sums to zero. */
  lemma {:induction false} SumZero(s: seq<real>)
    requires forall k :: 0 <= k < |s| ==> s[k] == 0.0
    ensures Sum(s) == 0.0
  {
    if |s| > 0 {
      SumZero(Init(s));
    }
  }
}
