/** Column statistics with pandas' skip-missing convention: a statistic is
    taken over the present values only, and is missing (NaN) when there are
    none. Reals are exact, where the source uses 64-bit floats. */
module Stats {
  import opened Wrappers
  import Sorting

  /** The present values of a column, in order (what `dropna` keeps). */
  function Present(col: seq<Option<real>>): (xs: seq<real>)
    ensures |xs| <= |col|
  {
    if col == [] then []
    else (if col[0].Some? then [col[0].value] else []) + Present(col[1..])
  }

  /** A column with a `Some` cell has a present value. */
  lemma {:induction false} PresentNonEmpty(col: seq<Option<real>>, j: int)
    requires 0 <= j < |col| && col[j].Some?
    ensures Present(col) != []
  {
    if j > 0 && col[0].None? {
      PresentNonEmpty(col[1..], j - 1);
    }
  }

  /** The present values are exactly the values of the `Some` cells. */
  lemma {:induction false} PresentMembers(col: seq<Option<real>>)
    ensures forall x :: x in Present(col) <==> Some(x) in col
  {
    if col != [] {
      PresentMembers(col[1..]);
      assert col == [col[0]] + col[1..];
    }
  }

  function Sum(xs: seq<real>): real {
    if xs == [] then 0.0 else xs[0] + Sum(xs[1..])
  }

  function MinOf(xs: seq<real>): (m: real)
    requires xs != []
    ensures m in xs && forall x :: x in xs ==> m <= x
  {
    if |xs| == 1 then xs[0]
    else
      var rest := MinOf(xs[1..]);
      assert forall x :: x in xs ==> x == xs[0] || x in xs[1..];
      if xs[0] <= rest then xs[0] else rest
  }

  function MaxOf(xs: seq<real>): (m: real)
    requires xs != []
    ensures m in xs && forall x :: x in xs ==> x <= m
  {
    if |xs| == 1 then xs[0]
    else
      var rest := MaxOf(xs[1..]);
      assert forall x :: x in xs ==> x == xs[0] || x in xs[1..];
      if xs[0] >= rest then xs[0] else rest
  }

  /** `Series.mean()`: the arithmetic mean of the present values. */
  function Mean(col: seq<Option<real>>): (m: Option<real>)
    ensures m.None? <==> Present(col) == []
  {
    var xs := Present(col);
    if xs == [] then None else Some(Sum(xs) / (|xs| as real))
  }

  /** `Series.max()` and `Series.min()` over the present values. */
  function Max(col: seq<Option<real>>): (m: Option<real>)
    ensures m.None? <==> Present(col) == []
    ensures m.Some? ==> Some(m.value) in col && forall x :: Some(x) in col ==> x <= m.value
  {
    var xs := Present(col);
    PresentMembers(col);
    if xs == [] then None else Some(MaxOf(xs))
  }

  function Min(col: seq<Option<real>>): (m: Option<real>)
    ensures m.None? <==> Present(col) == []
    ensures m.Some? ==> Some(m.value) in col && forall x :: Some(x) in col ==> m.value <= x
  {
    var xs := Present(col);
    PresentMembers(col);
    if xs == [] then None else Some(MinOf(xs))
  }

  /** `Series.sum()`: the sum of the present values, 0 when there are none. */
  function Total(col: seq<Option<real>>): real {
    Sum(Present(col))
  }

  /** Skipping NaN in a sum is the same as counting it as 0: the total is the
      first cell (0 when missing) plus the total of the rest. */
  lemma TotalCountsMissingAsZero(col: seq<Option<real>>)
    requires col != []
    ensures Total(col) == col[0].GetOr(0.0) + Total(col[1..])
  {
    if col[0].Some? {
      assert Present(col) == [col[0].value] + Present(col[1..]);
      SumCons(col[0].value, Present(col[1..]));
    } else {
      assert Present(col) == [] + Present(col[1..]);
      assert [] + Present(col[1..]) == Present(col[1..]);
    }
  }

  /** `Series.median()`: the middle of the sorted present values, or the
      average of the two middle ones when their count is even. */
  function Median(col: seq<Option<real>>): (m: Option<real>)
    ensures m.None? <==> Present(col) == []
  {
    var xs := Present(col);
    if xs == [] then None
    else
      Sorting.SortPermutes(xs, RealLe);
      Some(Middle(Sorting.Sort(xs, RealLe)))
  }

  predicate RealLe(a: real, b: real) { a <= b }

  /** The middle element of a sorted sequence, or the average of the two
      middle elements when the length is even. */
  function Middle(s: seq<real>): real
    requires s != []
  {
    var n := |s|;
    if n % 2 == 1 then s[n / 2] else (s[n / 2 - 1] + s[n / 2]) / 2.0
  }

  // ---- properties ----

  lemma SumCons(x: real, xs: seq<real>)
    ensures Sum([x] + xs) == x + Sum(xs)
  {
    assert ([x] + xs)[1..] == xs;
  }

  lemma {:induction false} SumBounds(xs: seq<real>, lo: real, hi: real)
    requires forall x :: x in xs ==> lo <= x <= hi
    ensures (|xs| as real) * lo <= Sum(xs) <= (|xs| as real) * hi
  {
    if xs != [] {
      assert forall x :: x in xs[1..] ==> x in xs;
      assert xs[0] in xs;
      SumBounds(xs[1..], lo, hi);
      assert Sum(xs) == xs[0] + Sum(xs[1..]);
      assert (|xs| as real) * lo == lo + (|xs[1..]| as real) * lo;
      assert (|xs| as real) * hi == hi + (|xs[1..]| as real) * hi;
    }
  }

  /** The mean lies between the minimum and the maximum of the present values. */
  lemma MeanBetweenMinAndMax(col: seq<Option<real>>)
    requires Present(col) != []
    ensures Min(col).value <= Mean(col).value <= Max(col).value
  {
    var xs := Present(col);
    AverageWithin(xs, MinOf(xs), MaxOf(xs));
  }

  /** Values that all lie in [lo, hi] have their average in [lo, hi]. */
  lemma AverageWithin(xs: seq<real>, lo: real, hi: real)
    requires xs != []
    requires forall x :: x in xs ==> lo <= x <= hi
    ensures lo <= Sum(xs) / (|xs| as real) <= hi
  {
    SumBounds(xs, lo, hi);
    QuotientBounds(Sum(xs), |xs| as real, lo, hi);
  }

  lemma QuotientBounds(total: real, n: real, lo: real, hi: real)
    requires n > 0.0 && n * lo <= total <= n * hi
    ensures lo <= total / n <= hi
  {
    assert total / n - lo == (total - n * lo) / n;
    assert hi - total / n == (n * hi - total) / n;
  }

  /** The median lies between the minimum and the maximum of the present values. */
  lemma MedianBetweenMinAndMax(col: seq<Option<real>>)
    requires Present(col) != []
    ensures Min(col).value <= Median(col).value <= Max(col).value
  {
    var xs := Present(col);
    SortedMiddleWithin(xs, MinOf(xs), MaxOf(xs));
  }

  lemma SortedMiddleWithin(xs: seq<real>, lo: real, hi: real)
    requires xs != []
    requires forall x :: x in xs ==> lo <= x <= hi
    ensures |Sorting.Sort(xs, RealLe)| == |xs|
    ensures lo <= Middle(Sorting.Sort(xs, RealLe)) <= hi
  {
    var s := Sorting.Sort(xs, RealLe);
    Sorting.SortPermutes(xs, RealLe);
    forall x | x in s ensures lo <= x <= hi {
      assert x in multiset(s);
      assert x in multiset(xs);
      assert x in xs;
    }
    MiddleWithin(s, lo, hi);
  }

  lemma MiddleWithin(s: seq<real>, lo: real, hi: real)
    requires s != []
    requires forall x :: x in s ==> lo <= x <= hi
    ensures lo <= Middle(s) <= hi
  {
    var n := |s|;
    assert s[n / 2] in s;
    if n % 2 == 0 {
      assert s[n / 2 - 1] in s;
    }
  }

  /** A column with a single present value has that value as its mean and median. */
  lemma SingleValueStatistics(col: seq<Option<real>>, v: real)
    requires Present(col) == [v]
    ensures Mean(col) == Some(v) && Median(col) == Some(v)
  {
    assert Sum([v]) == v;
  }
}
