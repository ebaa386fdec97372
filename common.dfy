/** Small shared vocabulary: bytes, C integer division and an Option type. */
module Common {

  /** An unsigned 8-bit value (`uint8_t`). */
  newtype byte = b: int | 0 <= b < 256

  datatype Option<+T> = None | Some(value: T)

  function Min(a: int, b: int): (m: int)
    ensures m <= a && m <= b
    ensures m == a || m == b
  {
    if a < b then a else b
  }

  /**
   * C's `/` on `int` by a positive divisor: the quotient is truncated toward
   * zero, whereas Dafny's `/` rounds toward negative infinity for a negative
   * dividend. Every divisor in the modelled code is a positive constant.
   */
  function CDiv(a: int, b: int): (q: int)
    requires b > 0
    ensures a >= 0 ==> q == a / b
    ensures a >= 0 ==> q * b <= a < (q + 1) * b
    ensures a < 0 ==> (q - 1) * b < a <= q * b
  {
    if a >= 0 then a / b else -((-a) / b)
  }
}
