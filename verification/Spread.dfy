/** The spread of a group's metric, exactly: its variance is positive just when two values differ. */
module Spread {
  function Sum(vals: seq<real>): real {
    if vals == [] then 0.0 else vals[0] + Sum(vals[1..])
  }

  function SquaredDeviations(vals: seq<real>, mean: real): real {
    if vals == [] then 0.0 else (vals[0] - mean) * (vals[0] - mean) + SquaredDeviations(vals[1..], mean)
  }

  function Variance(vals: seq<real>): real
    requires vals != []
  {
    SquaredDeviations(vals, Sum(vals) / |vals| as real) / |vals| as real
  }

  /** A factor that is not zero can be cancelled. */
  lemma ZeroProduct(x: real)
    requires x * x == 0.0
    ensures x == 0.0
  {
    if x != 0.0 {
      var q := x * x / x;
      assert q == 0.0;
      CancelFactor(x, x);
    }
  }

  lemma CancelFactor(a: real, b: real)
    requires b != 0.0
    ensures a * b / b == a
  {
  }

  lemma SquareSign(x: real)
    ensures x * x >= 0.0 && (x * x == 0.0 <==> x == 0.0)
  {
    SquareIsNotNegative(x);
    if x * x == 0.0 { ZeroProduct(x); }
  }

  lemma SquareIsNotNegative(x: real)
    ensures x * x >= 0.0
  {
  }

  lemma {:induction false} DeviationsVanish(vals: seq<real>, mean: real)
    ensures SquaredDeviations(vals, mean) >= 0.0
    ensures SquaredDeviations(vals, mean) == 0.0 <==> forall i :: 0 <= i < |vals| ==> vals[i] == mean
  {
    if vals != [] {
      SquareSign(vals[0] - mean);
      DeviationsVanish(vals[1..], mean);
      assert forall i :: 1 <= i < |vals| ==> vals[i] == vals[1..][i - 1];
    }
  }

  lemma {:induction false} SumOfEqual(vals: seq<real>, c: real)
    requires forall i :: 0 <= i < |vals| ==> vals[i] == c
    ensures Sum(vals) == c * |vals| as real
  {
    if vals != [] { SumOfEqual(vals[1..], c); }
  }

  lemma Quotient(c: real, n: real)
    requires n > 0.0
    ensures c * n / n == c && (c / n > 0.0 <==> c > 0.0)
  {
  }

  lemma VarianceSign(vals: seq<real>)
    requires vals != []
    ensures var mean := Sum(vals) / |vals| as real;
      Variance(vals) > 0.0 <==> exists i :: 0 <= i < |vals| && vals[i] != mean
  {
    var n := |vals| as real;
    var mean := Sum(vals) / n;
    DeviationsVanish(vals, mean);
    Quotient(SquaredDeviations(vals, mean), n);
  }

  lemma MeanOfEqual(vals: seq<real>, c: real)
    requires vals != [] && forall i :: 0 <= i < |vals| ==> vals[i] == c
    ensures Sum(vals) / |vals| as real == c
  {
    SumOfEqual(vals, c);
    Quotient(c, |vals| as real);
  }

  /** Some trajectory of the group did better than another. */
  lemma SpreadIsPositive(vals: seq<real>)
    requires vals != []
    ensures Variance(vals) > 0.0 <==> exists i, j :: 0 <= i < |vals| && 0 <= j < |vals| && vals[i] != vals[j]
  {
    VarianceSign(vals);
    if forall i :: 0 <= i < |vals| ==> vals[i] == vals[0] {
      MeanOfEqual(vals, vals[0]);
    } else {
      var i :| 0 <= i < |vals| && vals[i] != vals[0];
      assert vals[i] != Sum(vals) / |vals| as real || vals[0] != Sum(vals) / |vals| as real;
    }
  }
}
