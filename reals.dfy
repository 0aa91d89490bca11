/** Squares of reals. */
module Reals {

  /** The identity on reals. */
  function Id(x: real): real
  {
    x
  }

  /**
   * x squared. The second factor is written Id(x) so that the product is
   * kept as a product of two terms by the solver's arithmetic.
   */
  function Square(x: real): real
  {
    x * Id(x)
  }

  lemma SquareNonNegative(x: real)
    ensures Square(x) >= 0.0
    ensures x != 0.0 ==> Square(x) > 0.0
  {
    if x < 0.0 {
      assert (-x) * (-x) > 0.0;
    }
  }
}
