/** Types and small facts shared by the engine's components. */
module Prelude {
  datatype Option<+T> = None | Some(value: T)

  datatype Side = Buy | Sell

  datatype OrderType = Market | Limit

  function Abs(x: real): real {
    if x < 0.0 then -x else x
  }

  /** `base` multiplied n times by `factor`. */
  function Compound(base: real, factor: real, n: nat): real {
    if n == 0 then base else Compound(base, factor, n - 1) * factor
  }

  lemma MulLeft(k: real, x: real, y: real)
    requires k >= 0.0 && x <= y
    ensures k * x <= k * y
  {}

  lemma MulLeftStrict(k: real, x: real, y: real)
    requires k > 0.0 && x < y
    ensures k * x < k * y
  {}

  lemma RatioAtLeast(x: real, y: real, r: real)
    requires y > 0.0
    ensures x / y >= r <==> x >= r * y
  {
    assert x / y * y == x;
    ProductOrder(x / y, r, y);
  }

  lemma ProductOrder(q: real, r: real, y: real)
    requires y > 0.0
    ensures q >= r <==> q * y >= r * y
  {
    if q >= r { MulLeft(y, r, q); } else { MulLeftStrict(y, q, r); }
  }
}
