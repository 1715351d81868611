/**
  The numeric helpers the file backend adds to its math library before it
  aggregates timers: a running `sum`, the arithmetic `mean`, and the
  dispersion measure the backend calls `stdev`. As written, `stdev` divides
  the sum of squared deviations by the sample count and takes no square
  root, so it is the population variance; `Stdev` below keeps that meaning
  under the source's name. `Min` and `Max` stand for the library's own
  extrema over a non-empty list.
*/
module StatsMath {
  import opened Seqs

  /** Running total, accumulated left to right from zero: nothing totals
      0, and a single sample totals itself. */
  function Sum(s: seq<real>): (r: real)
    ensures |s| == 0 ==> r == 0.0
    ensures |s| == 1 ==> r == s[0]
  {
    if |s| == 0 then 0.0 else Sum(s[..|s| - 1]) + s[|s| - 1]
  }

  /** The total of a concatenation is the total of its parts. */
  lemma {:induction false} SumAppend(a: seq<real>, b: seq<real>)
    ensures Sum(a + b) == Sum(a) + Sum(b)
    decreases |b|
  {
    if |b| == 0 {
      assert a + b == a;
    } else {
      var b' := b[..|b| - 1];
      assert (a + b)[..|a + b| - 1] == a + b';
      SumAppend(a, b');
    }
  }

  /** Reordering the samples does not change their total. */
  lemma {:induction false} SumPermutation(a: seq<real>, b: seq<real>)
    requires multiset(a) == multiset(b)
    ensures Sum(a) == Sum(b)
    decreases |a|
  {
    if |a| > 0 {
      var x := a[|a| - 1];
      var a' := a[..|a| - 1];
      var left, right := SplitAtLast(a, b);
      SumPermutation(a', left + right);
      assert a == a' + [x];
      SumAppend(a', [x]);
      SumAppend(left + [x], right);
      SumAppend(left, [x]);
      SumAppend(left, right);
    }
  }

  /** Smallest sample. */
  function Min(s: seq<real>): (m: real)
    requires |s| > 0
    ensures m in s
    ensures forall i :: 0 <= i < |s| ==> m <= s[i]
  {
    if |s| == 1 then s[0]
    else
      var m := Min(s[..|s| - 1]);
      if s[|s| - 1] < m then s[|s| - 1] else m
  }

  /** Largest sample. */
  function Max(s: seq<real>): (m: real)
    requires |s| > 0
    ensures m in s
    ensures forall i :: 0 <= i < |s| ==> s[i] <= m
  {
    if |s| == 1 then s[0]
    else
      var m := Max(s[..|s| - 1]);
      if s[|s| - 1] > m then s[|s| - 1] else m
  }

  /** Arithmetic mean; the source only calls it on non-empty lists. */
  function Mean(s: seq<real>): (m: real)
    requires |s| > 0
    ensures m * (|s| as real) == Sum(s)
    ensures |s| == 1 ==> m == s[0]
  {
    Sum(s) / (|s| as real)
  }

  /** Product of two reals. Squares are written `Product(d, d)` so that the
      facts about them below are stated once and reused as plain terms. */
  function Product(a: real, b: real): real
  {
    a * b
  }

  lemma ProductPositive(a: real, b: real)
    requires a > 0.0 && b > 0.0
    ensures Product(a, b) > 0.0
  {
  }

  lemma ProductNegated(a: real, b: real)
    ensures Product(-a, -b) == Product(a, b)
  {
  }

  /** A non-zero real has a positive square. */
  lemma SquarePositive(d: real)
    requires d != 0.0
    ensures Product(d, d) > 0.0
  {
    if d > 0.0 {
      ProductPositive(d, d);
    } else {
      ProductPositive(-d, -d);
      ProductNegated(d, d);
    }
  }

  /** Squares are never negative, and vanish only at zero. */
  lemma SquareNonNegative(d: real)
    ensures Product(d, d) >= 0.0
    ensures Product(d, d) == 0.0 <==> d == 0.0
  {
    if d != 0.0 {
      SquarePositive(d);
    }
  }

  /** Sum of the squared deviations of the samples from `center`. */
  function SquaredDeviations(s: seq<real>, center: real): (r: real)
    ensures r >= 0.0
  {
    if |s| == 0 then 0.0
    else
      var d := s[|s| - 1] - center;
      SquareNonNegative(d);
      SquaredDeviations(s[..|s| - 1], center) + Product(d, d)
  }

  /** The source's `stdev`: squared deviations from the mean, divided by the
      count, with no square root taken. */
  function Stdev(s: seq<real>): (v: real)
    requires |s| > 0
    ensures v >= 0.0
  {
    SquaredDeviations(s, Mean(s)) / (|s| as real)
  }

  /** Samples bounded by `lo` and `hi` total between `n * lo` and `n * hi`. */
  lemma {:induction false} SumBounds(s: seq<real>, lo: real, hi: real)
    requires forall i :: 0 <= i < |s| ==> lo <= s[i] <= hi
    ensures (|s| as real) * lo <= Sum(s) <= (|s| as real) * hi
  {
    if |s| > 0 {
      var s' := s[..|s| - 1];
      SumBounds(s', lo, hi);
      assert (|s| as real) * lo == (|s'| as real) * lo + lo;
      assert (|s| as real) * hi == (|s'| as real) * hi + hi;
    }
  }

  /** The mean lies between the smallest and the largest sample. */
  lemma MeanBetweenExtrema(s: seq<real>)
    requires |s| > 0
    ensures Min(s) <= Mean(s) <= Max(s)
  {
    MeanWithinBounds(s, Min(s), Max(s));
  }

  /** Samples bounded by `lo` and `hi` have their mean between the two. */
  lemma MeanWithinBounds(s: seq<real>, lo: real, hi: real)
    requires |s| > 0
    requires forall i :: 0 <= i < |s| ==> lo <= s[i] <= hi
    ensures lo <= Mean(s) <= hi
  {
    SumBounds(s, lo, hi);
    QuotientBounds(Sum(s), |s| as real, lo, hi);
  }

  /** Dividing `n * lo <= total <= n * hi` by a positive `n`. */
  lemma QuotientBounds(total: real, n: real, lo: real, hi: real)
    requires n > 0.0
    requires n * lo <= total <= n * hi
    ensures lo <= total / n <= hi
  {
    assert total / n * n == total;
  }

  /** Squared deviations vanish exactly when every sample equals `center`. */
  lemma {:induction false} SquaredDeviationsZero(s: seq<real>, center: real)
    ensures SquaredDeviations(s, center) == 0.0 <==> forall i :: 0 <= i < |s| ==> s[i] == center
  {
    if |s| > 0 {
      var s' := s[..|s| - 1];
      var d := s[|s| - 1] - center;
      SquaredDeviationsZero(s', center);
      SquareNonNegative(d);
      if SquaredDeviations(s, center) == 0.0 {
        forall i | 0 <= i < |s|
          ensures s[i] == center
        {
          if i < |s| - 1 {
            assert s[i] == s'[i];
          }
        }
      }
    }
  }

  /** The source's `stdev` is zero exactly when all samples are equal. */
  lemma StdevZeroIffConstant(s: seq<real>)
    requires |s| > 0
    ensures Stdev(s) == 0.0 <==> forall i, j :: 0 <= i < |s| && 0 <= j < |s| ==> s[i] == s[j]
  {
    var n := |s| as real;
    SquaredDeviationsZero(s, Mean(s));
    assert Stdev(s) * n == SquaredDeviations(s, Mean(s));
    if forall i, j :: 0 <= i < |s| && 0 <= j < |s| ==> s[i] == s[j] {
      SumBounds(s, s[0], s[0]);
      assert Mean(s) == s[0];
    }
  }
}
