/** The 18-digit fixed-point numbers of the governance tally: a number x is held as x times 10^18. Sums, differences
    and products with a whole number are exact; Mul and Quo round half to even. */
module Decimals {

  const ONE: int := 1_000_000_000_000_000_000
  const HALF: int := 500_000_000_000_000_000

  type Dec = int

  /** Division towards zero. */
  function Truncated(a: int, b: int): int
    requires b != 0
  {
    if (a < 0) == (b < 0) then Magnitude(a) / Magnitude(b) else -(Magnitude(a) / Magnitude(b))
  }

  function Magnitude(a: int): nat {
    if a < 0 then -a else a
  }

  /** Drops the last 18 digits of a non-negative number, rounding half to even. */
  function Chopped(x: nat): nat {
    var quo, rem := x / ONE, x % ONE;
    if rem < HALF || (rem == HALF && quo % 2 == 0) then quo else quo + 1
  }

  function Rounded(x: int): int {
    if x < 0 then 0 - Chopped(-x) else Chopped(x)
  }

  function Mul(a: Dec, b: Dec): Dec {
    Rounded(a * b)
  }

  function Quo(a: Dec, b: Dec): Dec
    requires b != 0
  {
    Rounded(Truncated(a * ONE * ONE, b))
  }

  function TruncateInt(a: Dec): int {
    Truncated(a, ONE)
  }

  /** The result is nearest, and even when two are equally near. */
  lemma RoundedNearest(x: int)
    ensures -ONE <= 2 * (Rounded(x) * ONE - x) <= ONE
    ensures 2 * Magnitude(Rounded(x) * ONE - x) == ONE ==> Rounded(x) % 2 == 0
    ensures x >= 0 ==> Rounded(x) >= 0
  {
  }

  lemma RoundedMonotone(x: int, y: int)
    requires x <= y
    ensures Rounded(x) <= Rounded(y)
  {
    RoundedNearest(x);
    RoundedNearest(y);
  }

  lemma RoundedWhole(x: int)
    ensures Rounded(x * ONE) == x
  {
    RoundedNearest(x * ONE);
  }

  lemma MulNearest(a: Dec, b: Dec)
    ensures -ONE <= 2 * (Mul(a, b) * ONE - a * b) <= ONE
  {
    RoundedNearest(a * b);
  }

  /** A weight of at most one never makes a power larger, not even by rounding. */
  lemma MulWeight(a: Dec, w: Dec)
    requires 0 <= a && 0 <= w <= ONE
    ensures 0 <= Mul(a, w) <= a
  {
    assert 0 <= a * w <= a * ONE;
    RoundedWhole(a);
    RoundedWhole(0);
    RoundedMonotone(a * w, a * ONE);
    RoundedMonotone(0 * ONE, a * w);
  }

  /** A quotient is at most half a unit too large. It is too small by at most half a unit and what the first of
      its two roundings loses. */
  lemma QuoNear(a: Dec, b: Dec)
    requires 0 <= a && 0 < b
    ensures 0 <= Quo(a, b)
    ensures 2 * Quo(a, b) * b <= 2 * (a * ONE) + b
    ensures 2 * (a * ONE * ONE) < (2 * Quo(a, b) * ONE + ONE + 2) * b
  {
    hide Rounded;
    var x := a * ONE;
    QuoRounds(x, b);
    RoundedNearest(x * ONE / b);
    DivisionBounds(x * ONE, b);
    NearBounds(x, b, x * ONE / b, Quo(a, b));
  }

  lemma QuoRounds(x: int, b: Dec)
    requires 0 <= x && 0 < b
    ensures Truncated(x * ONE, b) == x * ONE / b >= 0
  {
  }

  lemma NearBounds(x: int, b: int, m: int, q: int)
    requires 0 < b && m * b <= x * ONE < m * b + b
    requires -ONE <= 2 * (q * ONE - m) <= ONE
    ensures 2 * q * b <= 2 * x + b
    ensures 2 * (x * ONE) < (2 * q * ONE + ONE + 2) * b
  {
    Scale(2 * q * ONE, 2 * m + ONE, b);
    assert 2 * q * ONE * b == (2 * q * b) * ONE;
    assert (2 * m + ONE) * b == 2 * (m * b) + ONE * b;
    Scale(2 * m, 2 * q * ONE + ONE, b);
    assert (2 * q * ONE + ONE + 2) * b == (2 * q * ONE + ONE) * b + 2 * b;
  }

  lemma DivisionBounds(x: int, b: int)
    requires 0 < b
    ensures x / b * b <= x < x / b * b + b
  {
  }

  lemma Scale(x: int, y: int, k: int)
    requires x <= y && 0 <= k
    ensures x * k <= y * k
  {
  }

  /** Rounding does not carry a ratio over a bound: a quotient above t is a true ratio above t. */
  lemma QuoAbove(a: Dec, b: Dec, t: Dec)
    requires 0 <= a && 0 < b && t < Quo(a, b)
    ensures t * b < a * ONE
  {
    hide Quo;
    QuoNear(a, b);
    Scale(t + 1, Quo(a, b), b);
    assert (t + 1) * b == t * b + b && 2 * Quo(a, b) * b == 2 * (Quo(a, b) * b);
  }

  /** A true ratio of at least t has a quotient of at least t. */
  lemma QuoAtLeast(a: Dec, b: Dec, t: Dec)
    requires 0 <= a && 0 < b && t * b <= a * ONE
    ensures t <= Quo(a, b)
  {
    hide Quo;
    QuoNear(a, b);
    assert 2 * t * ONE * b == 2 * (t * b) * ONE;
    if Quo(a, b) < t {
      Scale(2 * Quo(a, b) * ONE + ONE + 2, 2 * t * ONE, b);
      assert false;
    }
  }

  /** Division towards zero: the magnitude is the whole part of the true one and the sign is that of the quotient. */
  lemma TruncatedTowardsZero(a: int, b: int)
    requires b != 0
    ensures var t := Truncated(a, b);
            && Magnitude(t) * Magnitude(b) <= Magnitude(a) < (Magnitude(t) + 1) * Magnitude(b)
            && (0 < t ==> (a < 0) == (b < 0)) && (t < 0 ==> (a < 0) != (b < 0))
  {
    var q := Magnitude(a) / Magnitude(b);
    DivisionBounds(Magnitude(a), Magnitude(b));
    assert Magnitude(Truncated(a, b)) == q && (q + 1) * Magnitude(b) == q * Magnitude(b) + Magnitude(b);
  }

  /** Exactly when a quotient exceeds a bound: the truncated quotient, to 36 digits, is nearer to what comes after the
      bound, or as near and the bound is odd. */
  lemma QuoAboveIff(a: Dec, b: Dec, t: Dec)
    requires 0 <= a && 0 < b
    ensures var m := a * ONE * ONE / b;
            t < Quo(a, b) <==> (2 * t + 1) * ONE < 2 * m || ((2 * t + 1) * ONE == 2 * m && t % 2 == 1)
  {
    hide Rounded, Truncated;
    QuoRounds(a * ONE, b);
    RoundedAboveIff(a * ONE * ONE / b, t);
  }

  lemma RoundedAboveIff(m: nat, t: int)
    ensures t < Rounded(m) <==> (2 * t + 1) * ONE < 2 * m || ((2 * t + 1) * ONE == 2 * m && t % 2 == 1)
  {
    RoundedNearest(m);
  }
}
