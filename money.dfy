/**
 * Money and quantities. The source keeps QTY, RATE and AMOUNT as floats and
 * rounds AMOUNT to two decimals; here every such value is an integer count of
 * hundredths, so 12.5 is 1250.
 */
module Money {

  /** Number of hundredths in one unit. */
  const Scale: int := 100

  /**
   * AMOUNT for a quantity and a rate, both in hundredths: their product is in
   * ten-thousandths and is rounded to the nearest hundredth, halves upwards.
   */
  function Amount(qty: int, rate: int): (r: int)
    ensures Scale * r - Scale / 2 <= qty * rate < Scale * r + Scale / 2
  {
    (qty * rate + Scale / 2) / Scale
  }

  lemma AmountOfZero(qty: int, rate: int)
    requires qty == 0 || rate == 0
    ensures Amount(qty, rate) == 0
  {
  }

  /**
   * A RATE or AMOUNT value, or a QTY or RATE cell as numeric coercion sees
   * it: a number (in hundredths), or not a number. A blank RATE cell of the
   * price list is read as NaN, and NaN is what `NotNumeric` stands for.
   */
  datatype Cell = Number(hundredths: int) | NotNumeric

  /** Numeric coercion with missing and unparsable values replaced by 0. */
  function Coerce(c: Cell): (n: int)
    ensures c.Number? ==> n == c.hundredths
    ensures c.NotNumeric? ==> n == 0
  {
    match c
    case Number(n) => n
    case NotNumeric => 0
  }

  /**
   * The AMOUNT the cart stores for a quantity at a rate: the rounded
   * product, or NaN when the rate is NaN (NaN times a number stays NaN, and
   * so does NaN rounded). Coercing it to 0 gives what recomputing the AMOUNT
   * from the coerced rate gives.
   */
  function Price(qty: int, rate: Cell): (r: Cell)
    ensures r.NotNumeric? <==> rate.NotNumeric?
    ensures Coerce(r) == Amount(qty, Coerce(rate))
  {
    match rate
    case Number(n) => Number(Amount(qty, n))
    case NotNumeric => NotNumeric
  }
}
