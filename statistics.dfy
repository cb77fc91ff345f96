/** The LINQ aggregates the engine applies to its results: Sum, Average and Max over a
    sequence of integers. Averages are exact rationals here; the double rounding of the
    C# code is not modelled. */
module Statistics {

  function Sum(xs: seq<int>): int
  {
    if xs == [] then 0 else Sum(xs[..|xs| - 1]) + xs[|xs| - 1]
  }

  /** Enumerable.Max: the largest element of a non-empty sequence. */
  function Max(xs: seq<int>): (m: int)
    requires xs != []
    ensures m in xs
    ensures forall i :: 0 <= i < |xs| ==> xs[i] <= m
  {
    if |xs| == 1 then xs[0]
    else
      var rest := Max(xs[..|xs| - 1]);
      assert forall i :: 0 <= i < |xs| - 1 ==> xs[..|xs| - 1][i] == xs[i];
      if xs[|xs| - 1] > rest then xs[|xs| - 1] else rest
  }

  /** The smallest element of a non-empty sequence. */
  function Min(xs: seq<int>): (m: int)
    requires xs != []
    ensures m in xs
    ensures forall i :: 0 <= i < |xs| ==> m <= xs[i]
  {
    if |xs| == 1 then xs[0]
    else
      var rest := Min(xs[..|xs| - 1]);
      assert forall i :: 0 <= i < |xs| - 1 ==> xs[..|xs| - 1][i] == xs[i];
      if xs[|xs| - 1] < rest then xs[|xs| - 1] else rest
  }

  /** A sum of n values that all lie between lo and hi lies between n * lo and n * hi. */
  lemma {:induction false} SumBounds(xs: seq<int>, lo: int, hi: int)
    requires forall i :: 0 <= i < |xs| ==> lo <= xs[i] <= hi
    ensures |xs| * lo <= Sum(xs) <= |xs| * hi
  {
    if xs != [] {
      var init := xs[..|xs| - 1];
      assert forall i :: 0 <= i < |init| ==> init[i] == xs[i];
      SumBounds(init, lo, hi);
    }
  }

  /** Enumerable.Average of a non-empty sequence; it lies between the smallest and the
      largest element. */
  function Mean(xs: seq<int>): (m: real)
    requires xs != []
    ensures Min(xs) as real <= m <= Max(xs) as real
  {
    SumBounds(xs, Min(xs), Max(xs));
    MeanBetween(Sum(xs), |xs|, Min(xs), Max(xs));
    Sum(xs) as real / |xs| as real
  }

  lemma MeanBetween(sum: int, n: nat, lo: int, hi: int)
    requires n > 0 && n * lo <= sum <= n * hi
    ensures lo as real <= sum as real / n as real <= hi as real
  {
    var q := sum as real / n as real;
    assert q * n as real == sum as real;
    assert (n * lo) as real == n as real * lo as real;
    assert (n * hi) as real == n as real * hi as real;
  }

  /** The mean of equal values is that value. */
  lemma MeanOfConstant(xs: seq<int>, v: int)
    requires xs != [] && forall i :: 0 <= i < |xs| ==> xs[i] == v
    ensures Mean(xs) == v as real
  {
    assert Min(xs) == v && Max(xs) == v;
  }
}
