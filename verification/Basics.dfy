/** Small shared vocabulary: optional values, absolute value, integer powers of reals. */
module Basics {

  datatype Option<+T> = None | Some(value: T)

  function Abs(x: real): (a: real)
    ensures a >= 0.0
  {
    if x < 0.0 then -x else x
  }

  function Max(x: real, y: real): real {
    if x < y then y else x
  }

  function Min(x: real, y: real): real {
    if x < y then x else y
  }

  /** base to the power of exponent. */
  function Power(base: real, exponent: nat): real {
    if exponent == 0 then 1.0 else Power(base, exponent - 1) * base
  }

  lemma {:induction false} PowerNonNegative(base: real, exponent: nat)
    requires base >= 0.0
    ensures Power(base, exponent) >= 0.0
  {
    if exponent > 0 {
      PowerNonNegative(base, exponent - 1);
    }
  }
}
