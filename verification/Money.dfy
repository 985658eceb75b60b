/** Exact decimals and their rounding.  Every amount is counted in units of one
    ten-thousandth of the currency, the quantum of a stored money column, so a stored
    amount is an integer and an unrounded one is a real number. */
module Money {

  /** The least integer that is not below x. */
  function Ceiling(x: real): int {
    -((-x).Floor)
  }

  /** Round away from zero to a whole number of quanta. */
  function Round(x: real): int {
    if x >= 0.0 then Ceiling(x) else -Ceiling(-x)
  }

  /** Round is the integer furthest from zero at distance less than one from x, on x's side. */
  lemma RoundMeaning(x: real, n: int)
    ensures Round(x) == n <==>
              if x >= 0.0 then n as real - 1.0 < x <= n as real
              else n as real <= x < n as real + 1.0
  {
  }

  lemma RoundMonotone(x: real, y: real)
    requires x <= y
    ensures Round(x) <= Round(y)
  {
    RoundMeaning(x, Round(x));
    RoundMeaning(y, Round(y));
  }

  /** Rounding two nonnegative parts separately never charges less than rounding their sum. */
  lemma RoundSubadditive(x: real, y: real)
    requires x >= 0.0 && y >= 0.0
    ensures Round(x + y) <= Round(x) + Round(y)
  {
    RoundMeaning(x, Round(x));
    RoundMeaning(y, Round(y));
    RoundMeaning(x + y, Round(x + y));
  }
}
