/** Arithmetic over sequences of numbers shared by the feature columns
    (rolling means and variances) and the error metrics of the baseline. */
module Stats {

  /** The total of a sequence of numbers, first element first. */
  function Sum(xs: seq<real>): real
  {
    if xs == [] then 0.0 else xs[0] + Sum(xs[1..])
  }

  /** The arithmetic mean: the value that, taken once per element, adds up
      to the total. */
  function Mean(xs: seq<real>): (m: real)
    requires |xs| >= 1
    ensures m * |xs| as real == Sum(xs)
  {
    Sum(xs) / |xs| as real
  }

  /** The total squared distance of the values from `m`. */
  function SumSquaredDeviation(xs: seq<real>, m: real): real
  {
    if xs == [] then 0.0 else (xs[0] - m) * (xs[0] - m) + SumSquaredDeviation(xs[1..], m)
  }

  /** A sum of non-negative values is non-negative. */
  lemma {:induction false} SumNonnegative(xs: seq<real>)
    requires forall k :: 0 <= k < |xs| ==> xs[k] >= 0.0
    ensures Sum(xs) >= 0.0
  {
    if xs != [] {
      SumNonnegative(xs[1..]);
    }
  }

  /** A square is never negative. */
  lemma SquareNonnegative(d: real)
    ensures d * d >= 0.0
  {
    if d < 0.0 {
      assert d * d == (-d) * (-d);
    }
  }

  /** A sum of squares is never negative. */
  lemma {:induction false} SumSquaredDeviationNonnegative(xs: seq<real>, m: real)
    ensures SumSquaredDeviation(xs, m) >= 0.0
  {
    if xs != [] {
      SumSquaredDeviationNonnegative(xs[1..], m);
      SquareNonnegative(xs[0] - m);
    }
  }

  /** A mean of non-negative values is non-negative. */
  lemma MeanNonnegative(xs: seq<real>)
    requires |xs| >= 1
    requires forall k :: 0 <= k < |xs| ==> xs[k] >= 0.0
    ensures Mean(xs) >= 0.0
  {
    SumNonnegative(xs);
  }

  /** A sum of non-negative terms is zero exactly when every term is. */
  lemma {:induction false} SumZeroIffAllZero(xs: seq<real>)
    requires forall k :: 0 <= k < |xs| ==> xs[k] >= 0.0
    ensures Sum(xs) == 0.0 <==> forall k :: 0 <= k < |xs| ==> xs[k] == 0.0
  {
    if xs != [] {
      SumZeroIffAllZero(xs[1..]);
      SumNonnegative(xs[1..]);
      assert forall k :: 1 <= k < |xs| ==> xs[k] == xs[1..][k - 1];
    }
  }
}
