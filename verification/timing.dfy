/** Evenly spaced interpolation times `[i / (n - 1) for i in range(n)]`,
    used by the planner, the RIFE/FILM services and the multi-keyframe script. */
module Timing {

  function Ratio(i: int, n: int): real
    requires n >= 2
  {
    (i as real) / ((n - 1) as real)
  }

  /** `n` times from 0 to 1 in equal steps: first 0, last 1, strictly increasing. */
  function EvenTimes(n: int): (r: seq<real>)
    requires n >= 2
    ensures |r| == n
    ensures r[0] == 0.0 && r[n - 1] == 1.0
    ensures forall i :: 0 <= i < n ==> 0.0 <= r[i] <= 1.0
    ensures forall i, j :: 0 <= i < j < n ==> r[i] < r[j]
    ensures forall i :: 0 <= i < n - 1 ==> r[i + 1] - r[i] == 1.0 / ((n - 1) as real)
  {
    var r := seq(n, i requires 0 <= i < n => Ratio(i, n));
    forall i, j | 0 <= i < j < n
      ensures r[i] < r[j]
    {
      RatioIncreasing(i, j, n);
    }
    forall i | 0 <= i < n
      ensures 0.0 <= r[i] <= 1.0
    {
      RatioIncreasing(i, n - 1, n);
    }
    RatioSteps(n);
    RatioIncreasing(0, n - 1, n);
    r
  }

  /** Every pair of consecutive ratios is one step apart. */
  lemma RatioSteps(n: int)
    requires n >= 2
    ensures forall i :: 0 <= i < n - 1 ==> Ratio(i + 1, n) - Ratio(i, n) == 1.0 / ((n - 1) as real)
  {
    forall i | 0 <= i < n - 1 {
      RatioStep(i, n);
    }
  }

  /** Consecutive ratios differ by exactly one step, `1 / (n - 1)`. */
  lemma RatioStep(i: int, n: int)
    requires n >= 2
    ensures Ratio(i + 1, n) - Ratio(i, n) == 1.0 / ((n - 1) as real)
  {
    var d := (n - 1) as real;
    assert (Ratio(i + 1, n) - Ratio(i, n)) * d == 1.0;
  }

  lemma RatioIncreasing(i: int, j: int, n: int)
    requires n >= 2 && i <= j
    ensures Ratio(i, n) <= Ratio(j, n)
    ensures i < j ==> Ratio(i, n) < Ratio(j, n)
    ensures Ratio(n - 1, n) == 1.0
  {
    var d := (n - 1) as real;
    assert Ratio(i, n) * d == i as real;
    assert Ratio(j, n) * d == j as real;
  }
}
