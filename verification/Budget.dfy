/** Rounding a spending average up to a memorable budget target. */
module Budget {
  import opened Decimals

  /** How coarse a target of this size should be. */
  function BudgetStep(d: real): real {
    if d < 200.0 then 10.0 else if d < 500.0 then 25.0 else if d < 1000.0 then 50.0 else 100.0
  }

  function Ceil(x: real): int {
    -((-x).Floor)
  }

  /** How many steps cover an amount. */
  function Steps(avg: real, step: real): int
    requires step > 0.0
  {
    Ceil(Div16(avg, step))
  }

  function RoundBudgetTarget(avg: real): real {
    Steps(avg, BudgetStep(avg)) as real * BudgetStep(avg)
  }

  predicate IsMultiple(t: real, step: real)
    requires step > 0.0
  {
    t == (t / step).Floor as real * step
  }

  /** A proposed target: positive, within the band around the average, and round for its own size. */
  predicate AcceptableTarget(target: real, avg: real) {
    && target > 0.0
    && !(target < avg * 0.8 || target > avg * 1.3)
    && IsMultiple(target, BudgetStep(target))
  }

  // ------------------------------------------------------- where it is exact

  lemma CeilIs(x: real)
    ensures Ceil(x) as real - 1.0 < x <= Ceil(x) as real
  {
  }

  lemma MultipleOf(n: int, step: real)
    requires step > 0.0
    ensures IsMultiple(n as real * step, step)
  {
    assert n as real * step / step == n as real;
  }

  /** A whole number of cents divides by every step without rounding. */
  lemma QuotientIsExact(avg: real)
    requires WholeCents(avg)
    ensures Div16(avg, BudgetStep(avg)) == avg / BudgetStep(avg)
  {
    var k: int :| avg == Cents(k);
    var scaled := if avg < 200.0 then k * 10000000000000 else if avg < 500.0 then k * 4000000000000
                  else if avg < 1000.0 then k * 2000000000000 else k * 1000000000000;
    assert avg / BudgetStep(avg) * SIXTEEN_PLACES == scaled as real;
    NearestOfInt(scaled);
  }

  /** The target is the least multiple of the average's step that is not below it. */
  lemma LeastMultiple(avg: real) returns (n: int)
    requires WholeCents(avg)
    ensures RoundBudgetTarget(avg) == n as real * BudgetStep(avg)
    ensures avg <= RoundBudgetTarget(avg) < avg + BudgetStep(avg)
    ensures avg < 200.0 ==> RoundBudgetTarget(avg) == n as real * 10.0 < avg + 10.0
    ensures 200.0 <= avg < 500.0 ==> RoundBudgetTarget(avg) == n as real * 25.0 < avg + 25.0
    ensures 500.0 <= avg < 1000.0 ==> RoundBudgetTarget(avg) == n as real * 50.0 < avg + 50.0
    ensures avg >= 1000.0 ==> RoundBudgetTarget(avg) == n as real * 100.0 < avg + 100.0
  {
    var step := BudgetStep(avg);
    QuotientIsExact(avg);
    n := Ceil(avg / step);
    CeilIs(avg / step);
    if step == 10.0 {
      assert avg / 10.0 <= n as real < avg / 10.0 + 1.0;
    } else if step == 25.0 {
      assert avg / 25.0 <= n as real < avg / 25.0 + 1.0;
    } else if step == 50.0 {
      assert avg / 50.0 <= n as real < avg / 50.0 + 1.0;
    } else {
      assert avg / 100.0 <= n as real < avg / 100.0 + 1.0;
    }
  }

  /**
   A budget is set below the average only by the rounding of the quotient:
   exactly when the average is above a multiple of its step by less than the
   sixteen digits can show.
   */
  lemma NeverBelowAverage(avg: real)
    requires avg >= 0.0
    ensures var q := avg / BudgetStep(avg);
            RoundBudgetTarget(avg) >= avg <==> !(0.0 < q - q.Floor as real < QUOTIENT_ERROR)
  {
    var step := BudgetStep(avg);
    var q := avg / step;
    assert q * step == avg && q >= 0.0;
    CeilOfQuotient(q);
    ScaleOrder(Ceil(Div16(avg, step)) as real, q, step);
  }

  lemma CeilOfQuotient(q: real)
    requires q >= 0.0
    ensures Ceil(Nearest(q * SIXTEEN_PLACES) as real / SIXTEEN_PLACES) as real >= q
        <==> !(0.0 < q - q.Floor as real < QUOTIENT_ERROR)
  {
    var f := q.Floor;
    var n := Nearest(q * SIXTEEN_PLACES);
    NearestIs(q * SIXTEEN_PLACES);
    NearestOnGrid(q, f, n);
    CeilAbove(n as real / SIXTEEN_PLACES, q, f);
  }

  lemma CeilAbove(d: real, q: real, f: int)
    requires f as real <= q < f as real + 1.0
    requires q == f as real ==> d == q
    requires 0.0 < q - f as real < QUOTIENT_ERROR ==> d == f as real
    requires q - f as real >= QUOTIENT_ERROR ==> d > f as real
    ensures Ceil(d) as real >= q <==> !(0.0 < q - f as real < QUOTIENT_ERROR)
  {
    var c := Ceil(d);
    CeilIs(d);
    if q - f as real >= QUOTIENT_ERROR {
      assert c >= f + 1;
    } else if q != f as real {
      assert c == f;
    }
  }

  lemma NearestOnGrid(q: real, f: int, n: int)
    requires f as real <= q < f as real + 1.0 && IsNearest(n, q * SIXTEEN_PLACES) && q >= 0.0
    ensures q == f as real ==> n as real / SIXTEEN_PLACES == q
    ensures 0.0 < q - f as real < QUOTIENT_ERROR ==> n as real / SIXTEEN_PLACES == f as real
    ensures q - f as real >= QUOTIENT_ERROR ==> n as real / SIXTEEN_PLACES > f as real
  {
    var m := f * 10000000000000000;
    assert m as real == f as real * SIXTEEN_PLACES;
    if q - f as real < QUOTIENT_ERROR {
      assert n == m;
    } else {
      assert n > m;
    }
  }

  lemma ScaleOrder(a: real, b: real, step: real)
    requires step > 0.0
    ensures a >= b <==> a * step >= b * step
  {
    assert (a - b) * step == a * step - b * step;
  }

  /** An average above a step by less than sixteen digits show does get a target below it. */
  lemma BelowBySeventeenDigits()
    ensures RoundBudgetTarget(10.00000000000000001) < 10.00000000000000001
  {
    var q := 10.00000000000000001 / BudgetStep(10.00000000000000001);
    assert q == 1.000000000000000001 && q.Floor == 1;
    NeverBelowAverage(10.00000000000000001);
  }

  // --------------------------------------------------------- for every average

  lemma QuotientOrder(a: real, b: real, step: real)
    requires step > 0.0 && a <= b
    ensures a / step <= b / step
  {
    var p, q := a / step, b / step;
    assert p * step == a && q * step == b;
    ScaleOrder(q, p, step);
  }

  lemma StepsMonotone(a: real, b: real, step: real)
    requires step > 0.0 && a <= b
    ensures Steps(a, step) <= Steps(b, step)
  {
    QuotientOrder(a, b, step);
    NearestMonotone(a / step * SIXTEEN_PLACES, b / step * SIXTEEN_PLACES);
    CeilMonotone(Div16(a, step), Div16(b, step));
  }

  lemma CeilMonotone(x: real, y: real)
    requires x <= y
    ensures Ceil(x) <= Ceil(y)
  {
  }

  lemma StepsOfMultiple(n: int, x: real, step: real)
    requires step > 0.0 && x == n as real * step
    ensures Steps(x, step) == n
  {
    var m := n * 10000000000000000;
    assert x / step == n as real;
    assert x / step * SIXTEEN_PLACES == m as real;
    NearestOfInt(m);
    CeilOfInt(n, Div16(x, step));
  }

  lemma CeilOfInt(n: int, x: real)
    requires x == n as real
    ensures Ceil(x) == n
  {
  }

  /** A whole number of steps at or above an amount is never passed by rounding it up, nor one below it fallen short of. */
  lemma StepsBetween(avg: real, low: int, high: int, step: real)
    requires step > 0.0
    ensures avg <= high as real * step ==> Steps(avg, step) <= high
    ensures avg >= low as real * step ==> Steps(avg, step) >= low
  {
    StepsOfMultiple(high, high as real * step, step);
    StepsOfMultiple(low, low as real * step, step);
    if avg <= high as real * step { StepsMonotone(avg, high as real * step, step); }
    if avg >= low as real * step { StepsMonotone(low as real * step, avg, step); }
  }

  /** The amounts an average's target can come to: those between the changes of step around it. */
  predicate WithinItsBand(avg: real, target: real) {
    if avg < 200.0 then target <= 200.0
    else if avg < 500.0 then 200.0 <= target <= 500.0
    else if avg < 1000.0 then 500.0 <= target <= 1000.0
    else 1000.0 <= target
  }

  lemma TargetWithinItsBand(avg: real)
    ensures WithinItsBand(avg, RoundBudgetTarget(avg))
  {
    if avg < 200.0 {
      StepsBetween(avg, 0, 20, 10.0);
    } else if avg < 500.0 {
      StepsBetween(avg, 8, 20, 25.0);
    } else if avg < 1000.0 {
      StepsBetween(avg, 10, 20, 50.0);
    } else {
      StepsBetween(avg, 10, 0, 100.0);
    }
  }

  lemma RoundAtTheChange()
    ensures IsMultiple(200.0, BudgetStep(200.0)) && IsMultiple(500.0, BudgetStep(500.0)) && IsMultiple(1000.0, BudgetStep(1000.0))
  {
    MultipleOf(8, 25.0);
    MultipleOf(10, 50.0);
    MultipleOf(10, 100.0);
  }

  lemma StepWithinBand(avg: real, target: real)
    requires WithinItsBand(avg, target)
    ensures BudgetStep(target) == BudgetStep(avg) || target == 200.0 || target == 500.0 || target == 1000.0
  {
  }

  /** Across every change of step the target stays round for its own size. */
  lemma RoundForItsMagnitude(avg: real)
    ensures IsMultiple(RoundBudgetTarget(avg), BudgetStep(RoundBudgetTarget(avg)))
  {
    var target := RoundBudgetTarget(avg);
    TargetWithinItsBand(avg);
    StepWithinBand(avg, target);
    RoundAtTheChange();
    MultipleOf(Steps(avg, BudgetStep(avg)), BudgetStep(avg));
  }

  /** An amount already round for its size rounds to itself. */
  lemma RoundIsFixed(r: real)
    requires IsMultiple(r, BudgetStep(r))
    ensures RoundBudgetTarget(r) == r
  {
    StepsOfMultiple((r / BudgetStep(r)).Floor, r, BudgetStep(r));
  }

  /** A target rounds to itself. */
  lemma RoundingIdempotent(avg: real)
    ensures RoundBudgetTarget(RoundBudgetTarget(avg)) == RoundBudgetTarget(avg)
  {
    RoundForItsMagnitude(avg);
    RoundIsFixed(RoundBudgetTarget(avg));
  }

  lemma BandsInOrder(a: real, b: real, s: real, t: real)
    requires a <= b && BudgetStep(a) != BudgetStep(b) && WithinItsBand(a, s) && WithinItsBand(b, t)
    ensures s <= t
  {
  }

  /** A larger average never gets a smaller target. */
  lemma RoundingMonotone(a: real, b: real)
    requires a <= b
    ensures RoundBudgetTarget(a) <= RoundBudgetTarget(b)
  {
    if BudgetStep(a) == BudgetStep(b) {
      StepsMonotone(a, b, BudgetStep(a));
      ScaleOrder(Steps(b, BudgetStep(b)) as real, Steps(a, BudgetStep(a)) as real, BudgetStep(a));
    } else {
      TargetWithinItsBand(a);
      TargetWithinItsBand(b);
      BandsInOrder(a, b, RoundBudgetTarget(a), RoundBudgetTarget(b));
    }
  }

  // ------------------------------------------------- what the guardrail accepts

  /**
   Which averages the deterministic target would itself pass the guardrail
   for: below 30.77 rounding up can overshoot the band.
   */
  lemma TargetIsAcceptable(avg: real)
    requires WholeCents(avg)
    ensures AcceptableTarget(RoundBudgetTarget(avg), avg)
        <==> 7.70 <= avg <= 10.0 || 15.39 <= avg <= 20.0 || 23.08 <= avg <= 30.0 || avg >= 30.77
  {
    RoundForItsMagnitude(avg);
    if avg <= 0.0 {
      TargetNotPositive(avg);
    } else if avg <= 40.0 {
      SmallTargets(avg);
    } else {
      LargeTargetInBand(avg);
    }
  }

  lemma TargetNotPositive(avg: real)
    requires avg <= 0.0
    ensures RoundBudgetTarget(avg) <= 0.0
  {
    StepsBetween(avg, 0, 0, 10.0);
  }

  lemma LargeTargetInBand(avg: real)
    requires WholeCents(avg) && avg > 40.0
    ensures avg <= RoundBudgetTarget(avg) <= avg * 1.3
  {
    var n := LeastMultiple(avg);
  }

  lemma SmallTargets(avg: real)
    requires WholeCents(avg) && 0.0 < avg <= 40.0
    ensures RoundBudgetTarget(avg)
         == if avg <= 10.0 then 10.0 else if avg <= 20.0 then 20.0 else if avg <= 30.0 then 30.0 else 40.0
    ensures avg > 30.76 ==> avg >= 30.77
    ensures avg > 23.07 ==> avg >= 23.08
    ensures avg > 15.38 ==> avg >= 15.39
    ensures avg > 7.69 ==> avg >= 7.70
  {
    SmallTarget(avg);
    if avg > 30.76 { NextCent(avg, 3076); }
    if avg > 23.07 { NextCent(avg, 2307); }
    if avg > 15.38 { NextCent(avg, 1538); }
    if avg > 7.69 { NextCent(avg, 769); }
  }

  lemma SmallTarget(avg: real)
    requires WholeCents(avg) && 0.0 < avg <= 40.0
    ensures RoundBudgetTarget(avg)
         == if avg <= 10.0 then 10.0 else if avg <= 20.0 then 20.0 else if avg <= 30.0 then 30.0 else 40.0
  {
    var n := LeastMultiple(avg);
    assert n == 1 || n == 2 || n == 3 || n == 4;
  }

  lemma NextCent(x: real, n: int)
    requires WholeCents(x) && x > n as real / 100.0
    ensures x >= (n + 1) as real / 100.0
  {
    var k: int :| x == Cents(k);
    assert k >= n + 1;
  }
}
