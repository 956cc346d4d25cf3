/**
 Savings goals: the pace a target date requires, how far behind it the
 household is, and how many months a spare monthly amount takes off.
 */
module GoalPace {
  import opened Decimals

  /** What is still to save, floored at zero, and the whole months to the target date; 0 months is no date. */
  datatype Goal = Goal(id: string, name: string, remaining: real, monthsLeft: nat)

  /** What must be set aside each month to make the date, to the cent. */
  function RequiredMonthly(g: Goal): real {
    if g.monthsLeft == 0 || !(g.remaining > 0.0) then 0.0
    else Round2(Div16(g.remaining, g.monthsLeft as real))
  }

  /** How much more a month than the household's surplus that is. */
  function Shortfall(surplus: real, g: Goal): real {
    if g.monthsLeft == 0 || !(g.remaining > 0.0) then 0.0
    else
      var short := RequiredMonthly(g) - surplus;
      Round2(if short < 0.0 then 0.0 else short)
  }

  function Ceil(x: real): int {
    -((-x).Floor)
  }

  /** Whole months of saving to reach an amount, rounded up. */
  function MonthsToSave(remaining: real, monthly: real): int {
    if !(monthly > 0.0) then 0 else Ceil(Div16(remaining, monthly))
  }

  /** How many months sooner the slack completes a goal that has a monthly schedule; none without one. */
  function MonthsEarlier(slack: real, g: Goal): int {
    var pace := RequiredMonthly(g);
    if !(pace > 0.0) then 0
    else MonthsToSave(g.remaining, pace) - MonthsToSave(g.remaining, pace + slack)
  }

  // ------------------------------------------------------------- being behind

  lemma RequiredNonNegative(g: Goal)
    ensures RequiredMonthly(g) >= 0.0
  {
    if g.monthsLeft > 0 && g.remaining > 0.0 {
      assert g.remaining / g.monthsLeft as real >= 0.0;
      Div16AtLeast(g.remaining, g.monthsLeft as real, 0);
      Round2Sign(Div16(g.remaining, g.monthsLeft as real));
    }
  }

  /** What a month's rounding of the pace can be worth. */
  const PACE_ERROR := HALF_CENT + QUOTIENT_ERROR

  /** Paid in every month there is, the pace comes to what remains, within half a cent a month; it is whole cents. */
  lemma PaceMakesTheDate(g: Goal, paid: real, rounding: real)
    requires g.monthsLeft > 0 && g.remaining > 0.0
    requires paid == RequiredMonthly(g) * g.monthsLeft as real && rounding == PACE_ERROR * g.monthsLeft as real
    ensures WholeCents(RequiredMonthly(g))
    ensures g.remaining - rounding <= paid <= g.remaining + rounding
  {
    var n := g.monthsLeft as real;
    Div16Near(g.remaining, n);
    Round2Near(Div16(g.remaining, n));
    ManyMonths(RequiredMonthly(g), g.remaining / n, PACE_ERROR, n, paid, g.remaining, rounding);
  }

  lemma ManyMonths(pace: real, exact: real, error: real, n: real, paid: real, total: real, rounding: real)
    requires n > 0.0 && exact - error <= pace <= exact + error
    requires paid == pace * n && total == exact * n && rounding == error * n
    ensures total - rounding <= paid <= total + rounding
  {
    assert (pace - (exact - error)) * n >= 0.0 && (pace - (exact - error)) * n == paid - total + rounding;
    assert ((exact + error) - pace) * n >= 0.0 && ((exact + error) - pace) * n == total + rounding - paid;
  }

  /** The shortfall is what the surplus leaves of the pace, to the cent, and nothing where it leaves none. */
  lemma ShortfallIsWhatIsMissing(surplus: real, g: Goal)
    ensures WholeCents(Shortfall(surplus, g)) && Shortfall(surplus, g) >= 0.0
    ensures g.monthsLeft > 0 && g.remaining > 0.0 && RequiredMonthly(g) > surplus ==>
              var missing := RequiredMonthly(g) - surplus;
              missing - HALF_CENT <= Shortfall(surplus, g) <= missing + HALF_CENT
    ensures RequiredMonthly(g) <= surplus ==> Shortfall(surplus, g) == 0.0
  {
    Round2Zero();
    var short := RequiredMonthly(g) - surplus;
    Round2Near(if short < 0.0 then 0.0 else short);
    Round2Sign(if short < 0.0 then 0.0 else short);
  }

  /** In one household the goal further behind needs the larger pace; strictly, when the other has a date. */
  lemma FurtherBehindNeedsMore(surplus: real, g: Goal, h: Goal)
    requires g.remaining > 0.0 && h.remaining > 0.0 && Shortfall(surplus, g) > Shortfall(surplus, h)
    ensures g.monthsLeft > 0 && RequiredMonthly(g) >= RequiredMonthly(h)
    ensures h.monthsLeft > 0 ==> RequiredMonthly(g) > RequiredMonthly(h)
  {
    RequiredNonNegative(g);
    if h.monthsLeft == 0 {
    } else if g.monthsLeft == 0 {
      var short := RequiredMonthly(h) - surplus;
      Round2Sign(if short < 0.0 then 0.0 else short);
    } else {
      ShortfallMonotone(surplus, g, h);
    }
  }

  lemma ShortfallMonotone(surplus: real, g: Goal, h: Goal)
    requires g.remaining > 0.0 && h.remaining > 0.0 && g.monthsLeft > 0 && h.monthsLeft > 0
    ensures RequiredMonthly(g) <= RequiredMonthly(h) ==> Shortfall(surplus, g) <= Shortfall(surplus, h)
  {
    if RequiredMonthly(g) <= RequiredMonthly(h) {
      var a, b := RequiredMonthly(g) - surplus, RequiredMonthly(h) - surplus;
      Round2Monotone(if a < 0.0 then 0.0 else a, if b < 0.0 then 0.0 else b);
    }
  }

  // ------------------------------------------------------ what the slack takes off

  /** After k months at this pace there is still something to save, enough for sixteen digits to show. */
  predicate Outlasts(remaining: real, pace: real, k: nat) {
    remaining >= (k as real + QUOTIENT_ERROR) * pace
  }

  lemma NearestAbove(x: real, m: int)
    requires x >= 0.0
    ensures Nearest(x) > m <==> x >= m as real + 0.5
  {
    NearestIs(x);
  }

  lemma QuotientAbove(q: real, k: nat)
    requires q >= 0.0
    ensures Nearest(q * SIXTEEN_PLACES) as real / SIXTEEN_PLACES > k as real <==> q >= k as real + QUOTIENT_ERROR
  {
    var m := k * 10000000000000000;
    assert m as real == k as real * SIXTEEN_PLACES;
    NearestAbove(q * SIXTEEN_PLACES, m);
  }

  lemma CeilAbove(x: real, k: int)
    ensures Ceil(x) > k <==> x > k as real
  {
  }

  lemma ProductOrder(x: real, y: real, k: real)
    requires k > 0.0
    ensures x >= y <==> x * k >= y * k
  {
    assert (x - y) * k == x * k - y * k;
  }

  /** Saving takes more than k months exactly when the goal outlasts k of them. */
  lemma MonthsExceed(remaining: real, pace: real, k: nat)
    requires remaining > 0.0 && pace > 0.0
    ensures MonthsToSave(remaining, pace) > k <==> Outlasts(remaining, pace, k)
  {
    var q := remaining / pace;
    assert q * pace == remaining;
    assert q >= 0.0 by { ProductOrder(q, 0.0, pace); }
    QuotientAbove(q, k);
    CeilAbove(Div16(remaining, pace), k);
    ProductOrder(q, k as real + QUOTIENT_ERROR, pace);
  }

  lemma MonthsNonNegative(remaining: real, pace: real)
    requires remaining > 0.0
    ensures MonthsToSave(remaining, pace) >= 0
  {
    if pace > 0.0 {
      var q := remaining / pace;
      assert q * pace == remaining;
      assert q >= 0.0 by { ProductOrder(q, 0.0, pace); }
      Div16AtLeast(remaining, pace, 0);
    }
  }

  /** k months with the slack are enough, and k + j - 1 without it are not. */
  predicate SparesFrom(remaining: real, pace: real, slack: real, j: nat, k: nat)
    requires j >= 1
  {
    Outlasts(remaining, pace, k + j - 1) && !Outlasts(remaining, pace + slack, k)
  }

  /** The slack takes at least j months off. */
  ghost predicate TakesOff(remaining: real, pace: real, slack: real, j: nat)
    requires j >= 1
  {
    exists k: nat :: SparesFrom(remaining, pace, slack, j, k)
  }

  lemma TakenOffFrom(remaining: real, pace: real, slack: real, j: nat, k: nat)
    requires remaining > 0.0 && pace > 0.0 && slack > 0.0 && j >= 1
    ensures SparesFrom(remaining, pace, slack, j, k)
       <==> MonthsToSave(remaining, pace) >= k + j && MonthsToSave(remaining, pace + slack) <= k
  {
    MonthsExceed(remaining, pace, k + j - 1);
    MonthsExceed(remaining, pace + slack, k);
  }

  lemma MonthsTakenOff(remaining: real, pace: real, slack: real, j: nat)
    requires remaining > 0.0 && pace > 0.0 && slack > 0.0 && j >= 1
    ensures MonthsToSave(remaining, pace) - MonthsToSave(remaining, pace + slack) >= j
       <==> TakesOff(remaining, pace, slack, j)
  {
    MonthsNonNegative(remaining, pace + slack);
    TakenOffFrom(remaining, pace, slack, j, MonthsToSave(remaining, pace + slack));
    if k: nat :| SparesFrom(remaining, pace, slack, j, k) {
      TakenOffFrom(remaining, pace, slack, j, k);
    }
  }

  lemma FasterIsSooner(remaining: real, pace: real, slack: real)
    requires remaining > 0.0 && pace > 0.0 && slack > 0.0
    ensures MonthsToSave(remaining, pace + slack) <= MonthsToSave(remaining, pace)
  {
    var before := MonthsToSave(remaining, pace);
    MonthsNonNegative(remaining, pace);
    MonthsExceed(remaining, pace, before);
    MonthsExceed(remaining, pace + slack, before);
    ProductOrder(pace + slack, pace, before as real + QUOTIENT_ERROR);
  }

  /** The slack brings the goal's schedule at least j months forward. */
  ghost predicate BringsForward(slack: real, g: Goal, j: nat)
    requires j >= 1
  {
    RequiredMonthly(g) > 0.0 && TakesOff(g.remaining, RequiredMonthly(g), slack, j)
  }

  lemma MonthsEarlierAtLeast(slack: real, g: Goal, j: nat)
    requires g.remaining > 0.0 && slack > 0.0 && j >= 1
    ensures MonthsEarlier(slack, g) >= 0
    ensures MonthsEarlier(slack, g) >= j <==> BringsForward(slack, g, j)
  {
    if RequiredMonthly(g) > 0.0 {
      FasterIsSooner(g.remaining, RequiredMonthly(g), slack);
      MonthsTakenOff(g.remaining, RequiredMonthly(g), slack, j);
    }
  }

  /** Which of two goals the slack brings further forward, from their amounts, paces and the slack. */
  lemma BroughtFurtherExactlyWhen(slack: real, g: Goal, h: Goal)
    requires g.remaining > 0.0 && h.remaining > 0.0 && slack > 0.0
    ensures MonthsEarlier(slack, g) > MonthsEarlier(slack, h)
       <==> exists j: nat :: j >= 1 && BringsForward(slack, g, j) && !BringsForward(slack, h, j)
  {
    var a, b := MonthsEarlier(slack, g), MonthsEarlier(slack, h);
    MonthsEarlierAtLeast(slack, h, 1);
    if a > b {
      MonthsEarlierAtLeast(slack, g, b + 1);
      MonthsEarlierAtLeast(slack, h, b + 1);
    }
    if j: nat :| j >= 1 && BringsForward(slack, g, j) && !BringsForward(slack, h, j) {
      MonthsEarlierAtLeast(slack, g, j);
      MonthsEarlierAtLeast(slack, h, j);
    }
  }

  // ---------------------------------------------------------- exact schedules

  /** The required pace, kept up to the date, saves exactly what remains. */
  predicate OnSchedule(g: Goal) {
    RequiredMonthly(g) > 0.0 && g.remaining == g.monthsLeft as real * RequiredMonthly(g)
  }

  /** The share of n months that the slack makes up. */
  function Share(n: real, pace: real, slack: real): real
    requires pace > 0.0 && slack > 0.0
  {
    n * slack / (pace + slack)
  }

  function WholePart(x: real): int {
    Ceil(x + QUOTIENT_ERROR) - 1
  }

  /** That share in whole months. */
  function MonthsGained(n: nat, pace: real, slack: real): int
    requires pace > 0.0 && slack > 0.0
  {
    WholePart(Share(n as real, pace, slack))
  }

  lemma SameFactor(x: real, y: real, k: real)
    requires k > 0.0 && x * k == y * k
    ensures x == y
  {
    ProductOrder(x, y, k);
    ProductOrder(y, x, k);
  }

  lemma ShareIsTheRest(n: real, pace: real, slack: real, q: real)
    requires pace > 0.0 && slack > 0.0 && q * (pace + slack) == n * pace
    ensures Share(n, pace, slack) == n - q
  {
    var share, whole := n * slack / (pace + slack), pace + slack;
    assert share * whole == n * slack;
    assert (n - q) * whole == n * whole - q * whole;
    assert n * whole == n * pace + n * slack;
    SameFactor(share, n - q, whole);
  }

  lemma CeilBetween(x: real, n: int)
    requires n as real - 1.0 < x <= n as real
    ensures Ceil(x) == n
  {
  }

  lemma WholeMonths(remaining: real, pace: real, n: nat)
    requires remaining > 0.0 && pace > 0.0 && remaining == n as real * pace
    ensures MonthsToSave(remaining, pace) == n
  {
    var m := n * 10000000000000000;
    assert remaining / pace == n as real;
    assert remaining / pace * SIXTEEN_PLACES == m as real;
    NearestOfInt(m);
    assert Div16(remaining, pace) == n as real;
    CeilBetween(n as real, n);
  }

  /** How far a quotient is from the months it is rounded up to. */
  lemma MonthsAround(remaining: real, pace: real) returns (m: nat, q: real)
    requires remaining > 0.0 && pace > 0.0
    ensures m == MonthsToSave(remaining, pace) && q == remaining / pace && q > 0.0
    ensures q < m as real + QUOTIENT_ERROR
    ensures m > 0 ==> q >= m as real - 1.0 + QUOTIENT_ERROR
  {
    MonthsNonNegative(remaining, pace);
    m, q := MonthsToSave(remaining, pace), remaining / pace;
    assert q * pace == remaining;
    ProductOrder(0.0, q, pace);
    MonthsExceed(remaining, pace, m);
    ProductOrder(q, m as real + QUOTIENT_ERROR, pace);
    if m > 0 {
      MonthsExceed(remaining, pace, m - 1);
      ProductOrder(q, (m - 1) as real + QUOTIENT_ERROR, pace);
    }
  }

  lemma GainedFrom(n: nat, m: nat, q: real, share: real)
    requires share == n as real - q && 0.0 < q < m as real + QUOTIENT_ERROR
    requires m > 0 ==> q >= m as real - 1.0 + QUOTIENT_ERROR
    ensures WholePart(share) == n - m
  {
    CeilBetween(share + QUOTIENT_ERROR, n - m + 1);
  }

  /** An exact schedule is brought forward by the whole months of it the slack makes up. */
  lemma GainedOnSchedule(slack: real, g: Goal)
    requires g.remaining > 0.0 && slack > 0.0 && OnSchedule(g)
    ensures MonthsEarlier(slack, g) == MonthsGained(g.monthsLeft, RequiredMonthly(g), slack)
  {
    GainedAtPace(g.remaining, g.monthsLeft, RequiredMonthly(g), slack);
  }

  lemma RestAtPace(remaining: real, n: nat, pace: real, slack: real) returns (m: nat, q: real)
    requires remaining > 0.0 && pace > 0.0 && slack > 0.0 && remaining == n as real * pace
    ensures m == MonthsToSave(remaining, pace + slack) && Share(n as real, pace, slack) == n as real - q
    ensures 0.0 < q < m as real + QUOTIENT_ERROR && (m > 0 ==> q >= m as real - 1.0 + QUOTIENT_ERROR)
  {
    m, q := MonthsAround(remaining, pace + slack);
    assert q * (pace + slack) == remaining;
    ShareIsTheRest(n as real, pace, slack, q);
  }

  lemma GainedAtPace(remaining: real, n: nat, pace: real, slack: real)
    requires remaining > 0.0 && pace > 0.0 && slack > 0.0 && remaining == n as real * pace
    ensures MonthsToSave(remaining, pace) - MonthsToSave(remaining, pace + slack) == MonthsGained(n, pace, slack)
  {
    WholeMonths(remaining, pace, n);
    var m, q := RestAtPace(remaining, n, pace, slack);
    GainedFrom(n, m, q, Share(n as real, pace, slack));
  }

  lemma SmallerFactor(a: real, b: real, large: real, small: real)
    requires a >= 0.0 && large >= small > 0.0 && a * large <= b * small
    ensures a <= b
  {
    assert a * (large - small) >= 0.0;
    assert a * (large - small) == a * large - a * small;
    ProductOrder(b, a, small);
  }

  lemma ShareOrder(n: real, m: real, fast: real, slow: real, slack: real)
    requires 0.0 <= n <= m && fast >= slow > 0.0 && slack > 0.0
    ensures Share(n, fast, slack) <= Share(m, slow, slack)
  {
    var a, b := n * slack / (fast + slack), m * slack / (slow + slack);
    assert a * (fast + slack) == n * slack && b * (slow + slack) == m * slack;
    ProductOrder(m, n, slack);
    assert n * slack >= 0.0;
    ProductOrder(a, 0.0, fast + slack);
    SmallerFactor(a, b, fast + slack, slow + slack);
  }

  lemma WholePartMonotone(x: real, y: real)
    requires x <= y
    ensures WholePart(x) <= WholePart(y)
  {
  }

  /** A larger pace over no more months is brought forward by no more. */
  lemma GainedAntitone(n: nat, m: nat, fast: real, slow: real, slack: real)
    requires n <= m && fast >= slow > 0.0 && slack > 0.0
    ensures MonthsGained(n, fast, slack) <= MonthsGained(m, slow, slack)
  {
    ShareOrder(n as real, m as real, fast, slow, slack);
    WholePartMonotone(Share(n as real, fast, slack), Share(m as real, slow, slack));
  }

  /**
   The goal further behind is never brought further forward than one due no
   sooner, when both are on an exact schedule.
   */
  lemma FurtherBehindGainsNoMore(surplus: real, slack: real, g: Goal, h: Goal)
    requires g.remaining > 0.0 && h.remaining > 0.0 && slack > 0.0 && OnSchedule(g) && OnSchedule(h)
    requires Shortfall(surplus, g) > Shortfall(surplus, h) && g.monthsLeft <= h.monthsLeft
    ensures MonthsEarlier(slack, g) <= MonthsEarlier(slack, h)
  {
    FurtherBehindNeedsMore(surplus, g, h);
    GainedOnSchedule(slack, g);
    GainedOnSchedule(slack, h);
    GainedAntitone(g.monthsLeft, h.monthsLeft, RequiredMonthly(g), RequiredMonthly(h), slack);
  }

  lemma WholePace(remaining: real, n: nat, pace: int)
    requires n > 0 && remaining == n as real * pace as real
    ensures Round2(Div16(remaining, n as real)) == pace as real
  {
    var m := pace * 10000000000000000;
    var q := remaining / n as real;
    assert q * n as real == remaining;
    SameFactor(q, pace as real, n as real);
    assert q * SIXTEEN_PLACES == m as real;
    NearestOfInt(m);
    assert Div16(remaining, n as real) == pace as real;
    assert pace as real == Cents(pace * 100);
    Round2Fixed(pace as real);
  }
}
