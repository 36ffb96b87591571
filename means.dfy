/**
 * Exact sums and arithmetic means over sequences of reals: the `mean()`
 * that pandas applies to a rolling window or to a group, without rounding.
 */
module Means {

  function Sum(s: seq<real>): real
  {
    if s == [] then 0.0 else Sum(s[..|s| - 1]) + s[|s| - 1]
  }

  function Mean(s: seq<real>): real
    requires |s| > 0
  {
    Sum(s) / (|s| as real)
  }

  /** The sequence of relative distances `(x - a) / a` of each element from `a`. */
  function RelativeDeviations(s: seq<real>, a: real): (d: seq<real>)
    requires a != 0.0
    ensures |d| == |s|
    ensures forall k :: 0 <= k < |s| ==> d[k] * a == s[k] - a
  {
    seq(|s|, k requires 0 <= k < |s| => (s[k] - a) / a)
  }

  lemma {:induction false} SumBounds(s: seq<real>, lo: real, hi: real)
    requires forall k :: 0 <= k < |s| ==> lo <= s[k] <= hi
    ensures (|s| as real) * lo <= Sum(s) <= (|s| as real) * hi
  {
    if s != [] {
      SumBounds(s[..|s| - 1], lo, hi);
    }
  }

  /** A mean lies within any bounds that hold of every element. */
  lemma MeanBounds(s: seq<real>, lo: real, hi: real)
    requires |s| > 0
    requires forall k :: 0 <= k < |s| ==> lo <= s[k] <= hi
    ensures lo <= Mean(s) <= hi
  {
    SumBounds(s, lo, hi);
    var n := |s| as real;
    assert Mean(s) * n == Sum(s);
  }

  /** Index of a smallest element. */
  function MinIndex(s: seq<real>): (m: nat)
    requires |s| > 0
    ensures m < |s|
    ensures forall k :: 0 <= k < |s| ==> s[m] <= s[k]
  {
    if |s| == 1 then 0
    else
      var m := MinIndex(s[..|s| - 1]);
      if s[m] <= s[|s| - 1] then m else |s| - 1
  }

  /** Index of a largest element. */
  function MaxIndex(s: seq<real>): (m: nat)
    requires |s| > 0
    ensures m < |s|
    ensures forall k :: 0 <= k < |s| ==> s[k] <= s[m]
  {
    if |s| == 1 then 0
    else
      var m := MaxIndex(s[..|s| - 1]);
      if s[|s| - 1] <= s[m] then m else |s| - 1
  }

  /** A mean lies between the smallest and the largest element. */
  lemma MeanBetweenExtremes(s: seq<real>)
    requires |s| > 0
    ensures s[MinIndex(s)] <= Mean(s) <= s[MaxIndex(s)]
  {
    MeanBounds(s, s[MinIndex(s)], s[MaxIndex(s)]);
  }

  /** Relative deviations from `a` add up to `(Sum(s) - |s| * a) / a`. */
  lemma {:induction false} SumRelativeDeviations(s: seq<real>, a: real)
    requires a != 0.0
    ensures Sum(RelativeDeviations(s, a)) * a == Sum(s) - (|s| as real) * a
  {
    if s != [] {
      var n := |s|;
      var d := RelativeDeviations(s, a);
      assert d[..n - 1] == RelativeDeviations(s[..n - 1], a);
      SumRelativeDeviations(s[..n - 1], a);
      assert Sum(d) * a == Sum(d[..n - 1]) * a + d[n - 1] * a;
    }
  }

  /** Relative deviations from the mean cancel out. */
  lemma RelativeDeviationsFromMeanSumToZero(s: seq<real>)
    requires |s| > 0 && Mean(s) != 0.0
    ensures Sum(RelativeDeviations(s, Mean(s))) == 0.0
  {
    var a := Mean(s);
    SumRelativeDeviations(s, a);
    assert a * (|s| as real) == Sum(s);
  }
}
