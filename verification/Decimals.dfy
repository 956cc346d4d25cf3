/**
 Decimal arithmetic as the server does it: sums and products are exact, a
 quotient is rounded to sixteen places, and a money figure is rounded to two.
 Every rounding is half away from zero. The functions carry no contracts, so a
 proof that does not depend on a rounding is not slowed down by it; the lemmas
 below state what each one means.
 */
module Decimals {

  /** Sixteen decimal places: the grid every quotient lands on. */
  const SIXTEEN_PLACES := 10000000000000000.0
  /** The most a quotient can differ from the exact one. */
  const QUOTIENT_ERROR := 0.00000000000000005
  /** The most a money figure can differ from the exact one. */
  const HALF_CENT := 0.005

  /** n is the nearest integer to x, halves going away from zero. */
  predicate IsNearest(n: int, x: real) {
    && n as real - 0.5 <= x <= n as real + 0.5
    && (x == n as real + 0.5 ==> x < 0.0)
    && (x == n as real - 0.5 ==> x > 0.0)
  }

  lemma NearestExists(x: real)
    ensures exists n :: IsNearest(n, x)
  {
    var n := if x >= 0.0 then (x + 0.5).Floor else -((-x + 0.5).Floor);
    assert IsNearest(n, x);
  }

  function Nearest(x: real): int {
    NearestExists(x);
    var n :| IsNearest(n, x);
    n
  }

  /** A whole number of cents, as an amount. */
  function Cents(n: int): real {
    n as real / 100.0
  }

  /** An amount with no fraction of a cent. */
  ghost predicate WholeCents(x: real) {
    exists n :: x == Cents(n)
  }

  /** Rounds to the cent. */
  function Round2(x: real): real {
    Cents(Nearest(x * 100.0))
  }

  /** A quotient, rounded to sixteen places. */
  function Div16(a: real, b: real): real
    requires b != 0.0
  {
    Nearest(a / b * SIXTEEN_PLACES) as real / SIXTEEN_PLACES
  }

  /** Rounds up to the next whole cent. */
  function CeilCents(x: real): real {
    Cents(-((-x * 100.0).Floor))
  }

  function Pow(b: real, n: nat): real {
    if n == 0 then 1.0 else b * Pow(b, n - 1)
  }

  // ----------------------------------------------------------- what they mean

  lemma NearestIs(x: real)
    ensures IsNearest(Nearest(x), x)
  {
    NearestExists(x);
  }

  lemma NearestMonotone(x: real, y: real)
    requires x <= y
    ensures Nearest(x) <= Nearest(y)
  {
    NearestIs(x);
    NearestIs(y);
  }

  lemma NearestOfInt(n: int)
    ensures Nearest(n as real) == n
  {
    NearestIs(n as real);
  }

  lemma Round2Near(x: real)
    ensures WholeCents(Round2(x))
    ensures x - HALF_CENT <= Round2(x) <= x + HALF_CENT
  {
    NearestIs(x * 100.0);
  }

  /** Rounding an amount that is already whole cents changes nothing. */
  lemma Round2Fixed(x: real)
    requires WholeCents(x)
    ensures Round2(x) == x
  {
    var n: int :| x == Cents(n);
    assert x * 100.0 == n as real;
    NearestOfInt(n);
  }

  lemma Round2Monotone(x: real, y: real)
    requires x <= y
    ensures Round2(x) <= Round2(y)
  {
    NearestMonotone(x * 100.0, y * 100.0);
  }

  lemma Round2Zero()
    ensures WholeCents(0.0) && Round2(0.0) == 0.0
  {
    assert 0.0 == Cents(0);
    Round2Fixed(0.0);
  }

  lemma Round2Sign(x: real)
    ensures x >= 0.0 ==> Round2(x) >= 0.0
    ensures x <= 0.0 ==> Round2(x) <= 0.0
  {
    Round2Zero();
    if x >= 0.0 { Round2Monotone(0.0, x); }
    if x <= 0.0 { Round2Monotone(x, 0.0); }
  }

  lemma Div16Near(a: real, b: real)
    requires b != 0.0
    ensures a / b - QUOTIENT_ERROR <= Div16(a, b) <= a / b + QUOTIENT_ERROR
  {
    NearestIs(a / b * SIXTEEN_PLACES);
  }

  lemma Div16AtLeast(a: real, b: real, n: int)
    requires b != 0.0 && a / b >= n as real
    ensures Div16(a, b) >= n as real
  {
    var m := n * 10000000000000000;
    assert m as real == n as real * SIXTEEN_PLACES;
    NearestOfInt(m);
    NearestMonotone(m as real, a / b * SIXTEEN_PLACES);
  }

  lemma CeilCentsIs(x: real)
    ensures WholeCents(CeilCents(x))
    ensures x <= CeilCents(x) < x + 0.01
  {
  }

  lemma WholeCentsSum(x: real, y: real)
    requires WholeCents(x) && WholeCents(y)
    ensures WholeCents(x + y) && WholeCents(x - y)
  {
    var i: int :| x == Cents(i);
    var j: int :| y == Cents(j);
    assert x + y == Cents(i + j) && x - y == Cents(i - j);
  }

  lemma {:induction false} PowNonNegative(b: real, n: nat)
    requires b >= 0.0
    ensures Pow(b, n) >= 0.0
  {
    if n > 0 { PowNonNegative(b, n - 1); }
  }

  lemma {:induction false} PowPositive(b: real, n: nat)
    requires b > 0.0
    ensures Pow(b, n) > 0.0
  {
    if n > 0 { PowPositive(b, n - 1); }
  }
}
