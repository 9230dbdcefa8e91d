// Small numeric vocabulary shared by the pitch tracker: an Option type for
// JavaScript's `null`, absolute value, min/max, and integral powers of two
// (the only use of Math.pow in the tracker).
module Numeric {

  datatype Option<T> = None | Some(value: T)

  function Abs(x: real): real {
    if x < 0.0 then -x else x
  }

  function Min(x: real, y: real): real {
    if x <= y then x else y
  }

  function Max(x: real, y: real): real {
    if x >= y then x else y
  }

  /** Multiplying by a non-negative factor keeps a non-strict order. */
  lemma MulLe(z: real, x: real, y: real)
    requires z >= 0.0 && x <= y
    ensures z * x <= z * y
  {
    assert z * y - z * x == z * (y - x);
  }

  /** Multiplying by a positive factor keeps a strict order. */
  lemma MulLt(z: real, x: real, y: real)
    requires z > 0.0 && x < y
    ensures x * z < y * z
  {
    assert y * z - x * z == z * (y - x);
  }

  /** Math.pow(2, e) for an integer exponent e, exactly. */
  function Pow2(e: int): (r: real)
    ensures r > 0.0
    decreases if e < 0 then -e else e
  {
    if e == 0 then 1.0
    else if e > 0 then 2.0 * Pow2(e - 1)
    else Pow2(e + 1) / 2.0
  }

  /** Raising the exponent by one doubles the power, for negative exponents too. */
  lemma Pow2Step(e: int)
    ensures Pow2(e + 1) == 2.0 * Pow2(e)
  {
    if e < 0 {
      assert Pow2(e) == Pow2(e + 1) / 2.0;
    }
  }
}
