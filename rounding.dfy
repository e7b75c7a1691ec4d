/** Money arithmetic. Amounts are .NET `decimal` values in the source; here they are
    exact reals, and `Round2` is `Math.Round(value, 2)`, whose default mode is
    MidpointRounding.ToEven (a tie goes to the even neighbour). */
module Rounding {

  /** The nearest integer to `y`; when `y` lies exactly half-way between two integers,
      the even one. */
  function RoundHalfEven(y: real): (n: int)
    ensures -0.5 <= n as real - y <= 0.5
    ensures (n as real - y == 0.5 || y - n as real == 0.5) ==> n % 2 == 0
  {
    var f := y.Floor;
    var frac := y - f as real;
    if frac < 0.5 then f
    else if frac > 0.5 then f + 1
    else if f % 2 == 0 then f else f + 1
  }

  /** The two properties in the contract of RoundHalfEven determine its result. */
  lemma RoundHalfEvenUnique(y: real, n: int)
    requires -0.5 <= n as real - y <= 0.5
    requires (n as real - y == 0.5 || y - n as real == 0.5) ==> n % 2 == 0
    ensures n == RoundHalfEven(y)
  {
  }

  /** A value with at most two decimal places (a whole number of cents). */
  predicate IsCents(x: real) {
    (x * 100.0).Floor as real == x * 100.0
  }

  /** `n` cents is a whole number of cents. */
  lemma CentsOf(n: int)
    ensures IsCents(n as real / 100.0)
  {
    var c := n as real / 100.0;
    assert c * 100.0 == n as real;
    assert (n as real).Floor == n;
  }

  /** `Math.Round(x, 2)` for a decimal `x`. */
  function Round2(x: real): (r: real)
    ensures IsCents(r)
    ensures -0.005 <= r - x <= 0.005
    ensures (r - x == 0.005 || x - r == 0.005) ==> (r * 100.0).Floor % 2 == 0
  {
    var n := RoundHalfEven(x * 100.0);
    CentsOf(n);
    assert (n as real / 100.0) * 100.0 == n as real;
    n as real / 100.0
  }

  /** The contract of Round2 determines it: a whole number of cents within half a cent
      of `x`, the even cent at a tie, can only be `Round2(x)`. */
  lemma Round2Unique(x: real, r: real)
    requires IsCents(r) && -0.005 <= r - x <= 0.005
    requires (r - x == 0.005 || x - r == 0.005) ==> (r * 100.0).Floor % 2 == 0
    ensures r == Round2(x)
  {
    var n := (r * 100.0).Floor;
    assert n as real == r * 100.0;
    RoundHalfEvenUnique(x * 100.0, n);
  }

  /** Rounding leaves a value that already has at most two decimals unchanged. */
  lemma Round2OfCents(x: real)
    requires IsCents(x)
    ensures Round2(x) == x
  {
    var k := (x * 100.0).Floor;
    RoundHalfEvenUnique(x * 100.0, k);
  }

  /** Rounding is idempotent. */
  lemma Round2Idempotent(x: real)
    ensures Round2(Round2(x)) == Round2(x)
  {
    Round2OfCents(Round2(x));
  }

  /** A value is left unchanged by rounding exactly when it has at most two decimals. */
  lemma Round2FixedIffCents(x: real)
    ensures Round2(x) == x <==> IsCents(x)
  {
    if IsCents(x) {
      Round2OfCents(x);
    }
  }

  /** Rounding half to even never reverses the order of two values. */
  lemma RoundHalfEvenMonotone(a: real, b: real)
    requires a <= b
    ensures RoundHalfEven(a) <= RoundHalfEven(b)
  {
  }

  /** Rounding to cents never reverses the order of two amounts. */
  lemma Round2Monotone(a: real, b: real)
    requires a <= b
    ensures Round2(a) <= Round2(b)
  {
    RoundHalfEvenMonotone(a * 100.0, b * 100.0);
  }

  /** An amount at or above a whole number of cents still is after rounding. */
  lemma Round2AtLeast(x: real, floor: real)
    requires IsCents(floor)
    requires floor <= x
    ensures floor <= Round2(x)
  {
    Round2Monotone(floor, x);
    Round2OfCents(floor);
  }

  /** Ties go to the even cent: 0.125 rounds down to 0.12 and 0.375 up to 0.38
      (rounding half away from zero would give 0.13 for the first). */
  lemma Round2TiesToEven()
    ensures Round2(0.125) == 0.12
    ensures Round2(0.375) == 0.38
    ensures Round2(-0.125) == -0.12
  {
    RoundHalfEvenUnique(12.5, 12);
    RoundHalfEvenUnique(37.5, 38);
    RoundHalfEvenUnique(-12.5, -12);
  }
}
