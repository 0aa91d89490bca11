/** The mean-squared-error loss (Mse::compute). */
module Mse {
  import opened Reals

  /** Sum of the squares of the errors. */
  function SumSquares(e: seq<real>): real
  {
    if e == [] then 0.0 else Square(e[0]) + SumSquares(e[1..])
  }

  /** (1 / n) * sum of e_i^2; the source divides by zero when n is 0. */
  function MeanSquaredError(e: seq<real>): real
    requires |e| > 0
  {
    (1.0 / |e| as real) * SumSquares(e)
  }

  lemma {:induction false} SumSquaresAppend(e: seq<real>, x: real)
    ensures SumSquares(e + [x]) == SumSquares(e) + x * x
  {
    if e == [] {
      assert e + [x] == [x];
    } else {
      assert (e + [x])[1..] == e[1..] + [x];
      SumSquaresAppend(e[1..], x);
    }
  }

  /** Mse::compute: accumulates the squared errors in order, then scales by 1/n. */
  method Compute(outputErrors: seq<real>) returns (r: real)
    requires |outputErrors| > 0
    ensures r == MeanSquaredError(outputErrors)
  {
    var sumSe := 0.0;
    var outputCount := |outputErrors|;
    var i := 0;
    while i < outputCount
      invariant 0 <= i <= outputCount
      invariant sumSe == SumSquares(outputErrors[..i])
    {
      var error := outputErrors[i];
      assert outputErrors[..i + 1] == outputErrors[..i] + [error];
      SumSquaresAppend(outputErrors[..i], error);
      sumSe := sumSe + error * error;
      i := i + 1;
    }
    assert outputErrors[..i] == outputErrors;
    r := (1.0 / outputCount as real) * sumSe;
  }

  lemma {:induction false} SumSquaresNonNegative(e: seq<real>)
    ensures SumSquares(e) >= 0.0
  {
    if e != [] {
      SumSquaresNonNegative(e[1..]);
      SquareNonNegative(e[0]);
    }
  }

  lemma {:induction false} SumSquaresZeroIff(e: seq<real>)
    ensures SumSquares(e) == 0.0 <==> forall i :: 0 <= i < |e| ==> e[i] == 0.0
  {
    if e != [] {
      SumSquaresZeroIff(e[1..]);
      SumSquaresNonNegative(e[1..]);
      SquareNonNegative(e[0]);
      if forall i :: 0 <= i < |e| ==> e[i] == 0.0 {
        assert forall i :: 0 <= i < |e[1..]| ==> e[1..][i] == 0.0 by {
          forall i | 0 <= i < |e[1..]| ensures e[1..][i] == 0.0 {
            assert e[1..][i] == e[i + 1];
          }
        }
      }
      if SumSquares(e) == 0.0 {
        assert e[0] == 0.0;
        forall i | 0 <= i < |e| ensures e[i] == 0.0 {
          if i > 0 { assert e[i] == e[1..][i - 1]; }
        }
      }
    }
  }

  /** The loss is never negative. */
  lemma MseNonNegative(e: seq<real>)
    requires |e| > 0
    ensures MeanSquaredError(e) >= 0.0
  {
    SumSquaresNonNegative(e);
    assert 1.0 / |e| as real > 0.0;
  }

  /** The loss is zero exactly when every error is zero. */
  lemma MseZeroIff(e: seq<real>)
    requires |e| > 0
    ensures MeanSquaredError(e) == 0.0 <==> forall i :: 0 <= i < |e| ==> e[i] == 0.0
  {
    SumSquaresZeroIff(e);
    assert 1.0 / |e| as real > 0.0;
  }

  lemma {:induction false} SumSquaresNegateOne(e: seq<real>, k: nat)
    requires k < |e|
    ensures SumSquares(e[k := -e[k]]) == SumSquares(e)
  {
    var e' := e[k := -e[k]];
    if k == 0 {
      assert e'[1..] == e[1..];
      assert Square(e'[0]) == Square(e[0]);
    } else {
      assert e'[1..] == e[1..][k - 1 := -e[1..][k - 1]];
      SumSquaresNegateOne(e[1..], k - 1);
    }
  }

  /** Negating one error (swapping output and expected value) leaves the loss unchanged. */
  lemma MseNegateOne(e: seq<real>, k: nat)
    requires k < |e|
    ensures MeanSquaredError(e[k := -e[k]]) == MeanSquaredError(e)
  {
    SumSquaresNegateOne(e, k);
  }
}
