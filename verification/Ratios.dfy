/** Counts over time and shares of a whole. */
module Ratios {

  function PerSecond(n: int, elapsed: real): real
    requires elapsed > 0.0
  {
    n as real / elapsed
  }

  function Times(rate: real, elapsed: real): real {
    rate * elapsed
  }

  /** A rate, multiplied out, is the count it came from. */
  lemma RateUndone(n: int, elapsed: real)
    requires elapsed > 0.0
    ensures Times(PerSecond(n, elapsed), elapsed) == n as real
  {
  }

  lemma TimesDistributes(a: real, b: real, elapsed: real)
    ensures Times(a + b, elapsed) == Times(a, elapsed) + Times(b, elapsed)
  {
  }

  lemma FractionInside(a: real, b: real)
    requires 0.0 <= a <= b && 0.0 < b
    ensures 0.0 <= a / b <= 1.0
    ensures 0.0 < a ==> 0.0 < a / b
  {
  }

  lemma FractionAboveOne(a: real, b: real)
    requires 0.0 < b < a
    ensures a / b > 1.0
  {
  }

  /** Over this time the rate comes to so many. */
  ghost predicate IsRate(rate: real, elapsed: real, n: int) {
    rate * elapsed == n as real
  }

  lemma PerSecondIsRate(n: int, elapsed: real)
    requires elapsed > 0.0
    ensures IsRate(PerSecond(n, elapsed), elapsed, n)
  {
  }

  /** In per cent: `whole` hundredths of it are `part`, and it is between none and all. */
  ghost predicate IsPercentage(pct: real, part: nat, whole: nat) {
    pct * whole as real == 100.0 * part as real && 0.0 <= pct <= 100.0
  }

  lemma ShareIsPercentage(part: nat, whole: nat)
    requires part <= whole && whole > 0
    ensures IsPercentage(part as real / whole as real * 100.0, part, whole)
  {
    FractionInside(part as real, whole as real);
    assert part as real / whole as real * whole as real == part as real;
  }
}
