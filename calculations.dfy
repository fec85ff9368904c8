/**
 * Flow-rate arithmetic of the measurement grid: the conversion of a collected volume
 * (mL) over a collection time (s) into litres per hour, and the plain arithmetic mean.
 *
 * Numbers are exact reals. `parseFloat` is modelled by an `Option<real>` whose `None`
 * stands for NaN, and `Number.prototype.toFixed(2)` by `Round2`, half-up rounding to
 * hundredths of the exact value.
 */
module Calculations {
  import opened Wrappers

  /** mL/s to L/h: 3600 s per hour over 1000 mL per litre. */
  const LitresPerHourPerMlPerSecond: real := 3.6

  /** The exact rate, in L/h, of `volume` mL collected over `tempo` s. */
  function Rate(volume: real, tempo: real): real
    requires tempo > 0.0
  {
    (volume / tempo) * LitresPerHourPerMlPerSecond
  }

  /** True when `x` has at most two decimal places. */
  predicate IsHundredths(x: real) {
    (x * 100.0).Floor as real == x * 100.0
  }

  /**
   * `x.toFixed(2)` read back as a number: the multiple of 0.01 nearest to `x`, the
   * larger one on a tie.
   */
  function Round2(x: real): (r: real)
    requires x >= 0.0
    ensures r >= 0.0 && IsHundredths(r)
    ensures x - 0.005 < r <= x + 0.005
  {
    var y := x * 100.0 + 0.5;
    var k := y.Floor;
    assert k as real <= y < k as real + 1.0;
    assert k >= 0;
    var r := k as real / 100.0;
    assert r * 100.0 == k as real;
    assert (r * 100.0).Floor == k;
    r
  }

  /** Rounding to hundredths has exactly one candidate: a two-decimal value in the half-open window around `x`. */
  lemma Round2Unique(x: real, r: real)
    requires x >= 0.0 && IsHundredths(r)
    requires x - 0.005 < r <= x + 0.005
    ensures r == Round2(x)
  {
    var k := (r * 100.0).Floor;
    var m := (x * 100.0 + 0.5).Floor;
    assert k as real == r * 100.0;
    assert x * 100.0 - 0.5 < k as real <= x * 100.0 + 0.5;
    assert m as real <= x * 100.0 + 0.5 < m as real + 1.0;
    assert k <= m && m < k + 1;
  }

  /** `calculateVazao(volume, tempo)`: the rounded rate when both parse to positive numbers, else 0.00. */
  function CalculateVazao(volume: Option<real>, tempo: Option<real>): (r: real)
    ensures r >= 0.0 && IsHundredths(r)
    ensures !(volume.Some? && volume.value > 0.0 && tempo.Some? && tempo.value > 0.0) ==> r == 0.0
    ensures volume.Some? && volume.value > 0.0 && tempo.Some? && tempo.value > 0.0 ==>
              Rate(volume.value, tempo.value) - 0.005 < r <= Rate(volume.value, tempo.value) + 0.005
  {
    if volume.Some? && tempo.Some? && volume.value > 0.0 && tempo.value > 0.0 then
      Round2(Rate(volume.value, tempo.value))
    else
      0.0
  }

  /** 100 mL over 10 s is 36.00 L/h; 360 mL over 360 s is 3.60 L/h. */
  lemma CalculateVazaoExamples()
    ensures CalculateVazao(Some(100.0), Some(10.0)) == 36.0
    ensures CalculateVazao(Some(360.0), Some(360.0)) == 3.6
    ensures CalculateVazao(None, Some(10.0)) == 0.0
    ensures CalculateVazao(Some(100.0), Some(0.0)) == 0.0
  {
    Round2Unique(36.0, 36.0);
    Round2Unique(3.6, 3.6);
  }

  /** The sum of `xs` folded from the left, starting at 0, as `reduce((a, b) => a + b, 0)` does. */
  function Sum(xs: seq<real>): real {
    if xs == [] then 0.0 else Sum(xs[..|xs| - 1]) + xs[|xs| - 1]
  }

  /** The arithmetic mean of a non-empty list. */
  function Mean(xs: seq<real>): real
    requires xs != []
  {
    Sum(xs) / (|xs| as real)
  }

  /** `calculateMediaVazao`: the mean of the rates, or 0 for an empty list. */
  function CalculateMediaVazao(vazoes: seq<real>): (m: real)
    ensures vazoes == [] ==> m == 0.0
    ensures vazoes != [] ==> m * (|vazoes| as real) == Sum(vazoes)
  {
    if vazoes == [] then 0.0 else Mean(vazoes)
  }

  /** A sum of `n` values each at least `lo` is at least `n * lo`, and one of values at most `hi` is at most `n * hi`. */
  lemma {:induction false} SumBounds(xs: seq<real>, lo: real, hi: real)
    requires forall i :: 0 <= i < |xs| ==> lo <= xs[i] <= hi
    ensures (|xs| as real) * lo <= Sum(xs) <= (|xs| as real) * hi
  {
    if xs != [] {
      var init := xs[..|xs| - 1];
      SumBounds(init, lo, hi);
      var n := |init| as real;
      assert (n + 1.0) * lo == n * lo + lo;
      assert (n + 1.0) * hi == n * hi + hi;
    }
  }

  /** The mean of a non-empty list lies between any lower and upper bound of its entries. */
  lemma MeanBounds(xs: seq<real>, lo: real, hi: real)
    requires xs != []
    requires forall i :: 0 <= i < |xs| ==> lo <= xs[i] <= hi
    ensures lo <= Mean(xs) <= hi
  {
    SumBounds(xs, lo, hi);
    var n := |xs| as real;
    assert Mean(xs) * n == Sum(xs);
  }

  /** The mean lies between the smallest and the largest entry of the list. */
  lemma MeanBetweenMinAndMax(xs: seq<real>)
    requires xs != []
    ensures exists i :: 0 <= i < |xs| && xs[i] <= CalculateMediaVazao(xs)
    ensures exists j :: 0 <= j < |xs| && CalculateMediaVazao(xs) <= xs[j]
  {
    var lo := MinIndex(xs);
    var hi := MaxIndex(xs);
    MeanBounds(xs, xs[lo], xs[hi]);
  }

  /** The mean of a list whose entries all equal `v` is `v`. */
  lemma MeanOfConstant(xs: seq<real>, v: real)
    requires xs != []
    requires forall i :: 0 <= i < |xs| ==> xs[i] == v
    ensures CalculateMediaVazao(xs) == v
  {
    MeanBounds(xs, v, v);
  }

  /** The position of a smallest entry. */
  function MinIndex(xs: seq<real>): (k: nat)
    requires xs != []
    ensures k < |xs| && forall i :: 0 <= i < |xs| ==> xs[k] <= xs[i]
  {
    if |xs| == 1 then 0
    else
      var k := MinIndex(xs[..|xs| - 1]);
      assert forall i :: 0 <= i < |xs| - 1 ==> xs[..|xs| - 1][i] == xs[i];
      if xs[|xs| - 1] < xs[k] then |xs| - 1 else k
  }

  /** The position of a largest entry. */
  function MaxIndex(xs: seq<real>): (k: nat)
    requires xs != []
    ensures k < |xs| && forall i :: 0 <= i < |xs| ==> xs[i] <= xs[k]
  {
    if |xs| == 1 then 0
    else
      var k := MaxIndex(xs[..|xs| - 1]);
      assert forall i :: 0 <= i < |xs| - 1 ==> xs[..|xs| - 1][i] == xs[i];
      if xs[|xs| - 1] > xs[k] then |xs| - 1 else k
  }
}
