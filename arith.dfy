/** Facts about integer multiplication that the solver does not find on
    its own. */
module Arith {

  /** Multiplying by a non-negative factor keeps the order. */
  lemma MulMonotone(k: int, x: int, y: int)
    requires k >= 0 && x <= y
    ensures k * x <= k * y
  {
    assert k * y - k * x == k * (y - x);
  }
}
