/**
 A college goal: four years of spending drawn from a bucket that keeps
 compounding, and the monthly contribution that would fund all of them.
 */
module College {
  import opened Wrappers
  import opened Decimals

  datatype CollegeGoal = CollegeGoal(annualCost: real, years: int, yearsToEnrollment: nat)

  /** One reported year; year counts from 1 and every amount but the cost has been rounded to the cent. */
  datatype CollegeYear = CollegeYear(
    year: nat, cost: real, covered: real, shortfall: real, balanceAfter: real)

  datatype DrawdownResult = DrawdownResult(
    years: seq<CollegeYear>, totalCost: real, totalCovered: real, totalShortfall: real,
    firstShortfallYear: nat)

  /** Per account, the projected balance at the end of one month. */
  type Point = map<string, real>

  // ---------------------------------------------------------------- the walk

  /** The rate by which college outruns general inflation; one is a percentage, the other a fraction. */
  function RealCollegeRate(collegePct: real, inflationRate: real): real {
    var college := 1.0 + Div16(collegePct, 100.0);
    var general := 1.0 + inflationRate;
    if general <= 0.0 then Div16(collegePct, 100.0) else Div16(college, general) - 1.0
  }

  /** What a year of study would cost if the cent did not matter, n years from today. */
  function Inflated(annual: real, rate: real, n: nat): real {
    annual * Pow(1.0 + rate, n)
  }

  function CostOf(g: CollegeGoal, realInflation: real, y: nat): real
    requires y >= 1
  {
    Round2(Inflated(g.annualCost, realInflation, g.yearsToEnrollment + y - 1))
  }

  /** What each year of study costs, in order. */
  function Costs(g: CollegeGoal, realInflation: real): (costs: seq<real>)
    ensures |costs| == if g.years <= 0 then 0 else g.years
  {
    if g.years <= 0 then [] else seq(g.years, (i: nat) => CostOf(g, realInflation, i + 1))
  }

  /** Costs never go below zero unless the goal or a rate below -100% says so. */
  lemma CostsNonNegative(g: CollegeGoal, collegePct: real, inflationRate: real)
    requires g.annualCost >= 0.0 && collegePct >= -100.0
    ensures NonNegative(Costs(g, RealCollegeRate(collegePct, inflationRate)))
    ensures AllWholeCents(Costs(g, RealCollegeRate(collegePct, inflationRate)))
  {
    var rate := RealCollegeRate(collegePct, inflationRate);
    assert 1.0 + rate >= 0.0 by {
      Div16AtLeast(collegePct, 100.0, -1);
      if 1.0 + inflationRate > 0.0 {
        Div16AtLeast(1.0 + Div16(collegePct, 100.0), 1.0 + inflationRate, 0);
      }
    }
    forall i | 0 <= i < |Costs(g, rate)|
      ensures Costs(g, rate)[i] >= 0.0 && WholeCents(Costs(g, rate)[i])
    {
      CostNonNegative(g, rate, i + 1);
    }
  }

  lemma CostNonNegative(g: CollegeGoal, realInflation: real, y: nat)
    requires y >= 1 && g.annualCost >= 0.0 && 1.0 + realInflation >= 0.0
    ensures CostOf(g, realInflation, y) >= 0.0 && WholeCents(CostOf(g, realInflation, y))
  {
    var n := g.yearsToEnrollment + y - 1;
    PowNonNegative(1.0 + realInflation, n);
    ProductSign(g.annualCost, Pow(1.0 + realInflation, n));
    Round2Sign(Inflated(g.annualCost, realInflation, n));
    Round2Near(Inflated(g.annualCost, realInflation, n));
  }

  function Covered(balance: real, cost: real): real {
    if balance >= cost then cost else if balance < 0.0 then 0.0 else balance
  }

  /** What is left after a year is paid and the remainder has compounded. */
  function Next(balance: real, cost: real, growth: real): real {
    (if balance < cost then 0.0 else balance - cost) * growth
  }

  /** The bucket and the running totals; short is the first short year, 0 while there is none. */
  datatype Walk = Walk(balance: real, cost: real, covered: real, shortfall: real, short: nat)

  function Step(w: Walk, y: nat, cost: real, growth: real): Walk {
    var covered := Covered(w.balance, cost);
    Walk(Next(w.balance, cost, growth), w.cost + cost, w.covered + covered, w.shortfall + (cost - covered),
         if w.short == 0 && w.balance < cost then y else w.short)
  }

  /** Where the bucket stands after the first n years. */
  function WalkYears(balance: real, costs: seq<real>, growth: real, n: nat): Walk
    requires n <= |costs|
  {
    if n == 0 then Walk(balance, 0.0, 0.0, 0.0, 0)
    else Step(WalkYears(balance, costs, growth, n - 1), n, costs[n - 1], growth)
  }

  /** The report of one year, entered with the given balance. */
  function ReportYear(y: nat, balance: real, cost: real, growth: real): CollegeYear {
    var covered := Covered(balance, cost);
    CollegeYear(y, cost, Round2(covered), Round2(cost - covered), Round2(Next(balance, cost, growth)))
  }

  function ReportYears(balance: real, costs: seq<real>, growth: real, n: nat): (years: seq<CollegeYear>)
    requires n <= |costs|
    ensures |years| == n
  {
    if n == 0 then [] else
    var entering := WalkYears(balance, costs, growth, n - 1).balance;
    ReportYears(balance, costs, growth, n - 1) + [ReportYear(n, entering, costs[n - 1], growth)]
  }

  function Report(balance: real, costs: seq<real>, growth: real, n: nat): DrawdownResult
    requires n <= |costs|
  {
    var w := WalkYears(balance, costs, growth, n);
    DrawdownResult(ReportYears(balance, costs, growth, n), w.cost, w.covered, w.shortfall, w.short)
  }

  lemma PaidYear(w: Walk, y: nat, cost: real, growth: real,
                 covered: real, shortfall: real, kept: real, first: nat)
    requires covered == if w.balance < cost then (if w.balance < 0.0 then 0.0 else w.balance) else cost
    requires shortfall == if w.balance < cost then cost - covered else 0.0
    requires kept == if w.balance - covered < 0.0 then 0.0 else w.balance - covered
    requires first == if w.balance < cost && w.short == 0 then y else w.short
    ensures Step(w, y, cost, growth)
         == Walk(kept * growth, w.cost + cost, w.covered + covered, w.shortfall + shortfall, first)
    ensures CollegeYear(y, cost, Round2(covered), Round2(shortfall), Round2(kept * growth))
         == ReportYear(y, w.balance, cost, growth)
  {
    assert kept == if w.balance < cost then 0.0 else w.balance - cost;
  }

  method Drawdown(start: real, g: CollegeGoal, realInflation: real, realReturn: real)
    returns (out: DrawdownResult)
    ensures var costs := Costs(g, realInflation);
            out == Report(start, costs, 1.0 + realReturn, |costs|)
    ensures PricedYearByYear(out.years, g, realInflation)
  {
    out := DrawdownResult([], 0.0, 0.0, 0.0, 0);
    ReportIsPriced(start, g, realInflation, 1.0 + realReturn);
    if g.years <= 0 {
      return;
    }
    var growth := 1.0 + realReturn;
    ghost var costs := Costs(g, realInflation);
    var balance := start;
    ghost var walk := Walk(start, 0.0, 0.0, 0.0, 0);
    var y := 1;
    while y <= g.years
      invariant 1 <= y <= g.years + 1
      invariant walk == WalkYears(start, costs, growth, y - 1)
      invariant balance == walk.balance && out.totalCost == walk.cost && out.totalCovered == walk.covered
      invariant out.totalShortfall == walk.shortfall && out.firstShortfallYear == walk.short
      invariant out.years == ReportYears(start, costs, growth, y - 1)
    {
      var cost := CostOf(g, realInflation, y);
      var covered, shortfall, first := cost, 0.0, out.firstShortfallYear;
      if balance < cost {
        covered := balance;
        if covered < 0.0 {
          covered := 0.0;
        }
        shortfall := cost - covered;
        if first == 0 {
          first := y;
        }
      }
      balance := balance - covered;
      if balance < 0.0 {
        balance := 0.0;
      }
      PaidYear(walk, y, cost, growth, covered, shortfall, balance, first);
      balance := balance * growth;
      var paid := CollegeYear(y, cost, Round2(covered), Round2(shortfall), Round2(balance));
      out := DrawdownResult(out.years + [paid], out.totalCost + cost, out.totalCovered + covered,
                            out.totalShortfall + shortfall, first);
      walk := Step(walk, y, cost, growth);
      y := y + 1;
    }
  }

  // ----------------------------------------------------- shape of the report

  predicate NonNegative(costs: seq<real>) {
    forall i :: 0 <= i < |costs| ==> costs[i] >= 0.0
  }

  ghost predicate AllWholeCents(costs: seq<real>) {
    forall i :: 0 <= i < |costs| ==> WholeCents(costs[i])
  }

  predicate AllZero(costs: seq<real>, from: nat, to: nat)
    requires to <= |costs|
  {
    forall i :: from <= i < to ==> costs[i] == 0.0
  }

  /** A year the bucket paid in full. */
  predicate PaidInFull(y: CollegeYear) {
    y.covered == y.cost && y.shortfall == 0.0
  }

  /** A year the bucket was already empty for. */
  predicate PaidNothing(y: CollegeYear) {
    y.covered == 0.0 && y.shortfall == y.cost && y.balanceAfter == 0.0
  }

  /** The report splits at the first shortfall: full years before it, empty ones after. */
  ghost predicate Shape(o: DrawdownResult) {
    && o.firstShortfallYear <= |o.years|
    && (forall i :: 0 <= i < |o.years| ==> o.years[i].year == i + 1)
    && (o.firstShortfallYear == 0 ==> forall i :: 0 <= i < |o.years| ==> PaidInFull(o.years[i]))
    && (o.firstShortfallYear > 0 ==>
          && (forall i :: 0 <= i < o.firstShortfallYear - 1 ==> PaidInFull(o.years[i]))
          && (forall i :: o.firstShortfallYear <= i < |o.years| ==> PaidNothing(o.years[i])))
  }

  lemma {:induction false} WalkBalances(balance: real, costs: seq<real>, growth: real, n: nat)
    requires n <= |costs| && NonNegative(costs)
    ensures var w := WalkYears(balance, costs, growth, n);
            && w.cost == w.covered + w.shortfall && w.covered >= 0.0 && w.shortfall >= 0.0
            && w.short <= n
            && (w.short == 0 ==> w.shortfall == 0.0)
            && (w.short > 0 ==> w.balance == 0.0)
  {
    if n > 0 { WalkBalances(balance, costs, growth, n - 1); }
  }

  lemma {:induction false} TotalCostCents(balance: real, costs: seq<real>, growth: real, n: nat)
    requires n <= |costs| && AllWholeCents(costs)
    ensures WholeCents(WalkYears(balance, costs, growth, n).cost)
  {
    if n == 0 {
      Round2Zero();
    } else {
      TotalCostCents(balance, costs, growth, n - 1);
      WholeCentsSum(WalkYears(balance, costs, growth, n - 1).cost, costs[n - 1]);
    }
  }

  /** Every dollar of cost is either covered or short. */
  lemma ReportBalances(balance: real, costs: seq<real>, growth: real, n: nat)
    requires n <= |costs| && NonNegative(costs) && AllWholeCents(costs)
    ensures var o := Report(balance, costs, growth, n);
            && o.totalCost == o.totalCovered + o.totalShortfall
            && o.totalCovered >= 0.0 && o.totalShortfall >= 0.0
            && WholeCents(o.totalCost)
  {
    WalkBalances(balance, costs, growth, n);
    TotalCostCents(balance, costs, growth, n);
  }

  lemma {:induction false} ReportShape(balance: real, costs: seq<real>, growth: real, n: nat)
    requires n <= |costs| && NonNegative(costs) && AllWholeCents(costs)
    ensures Shape(Report(balance, costs, growth, n))
  {
    if n > 0 {
      ReportShape(balance, costs, growth, n - 1);
      WalkBalances(balance, costs, growth, n - 1);
      var w := WalkYears(balance, costs, growth, n - 1);
      assert w.short <= n - 1;
      LastYear(n, w.balance, costs[n - 1], growth);
    }
  }

  lemma {:induction false} ReportCosts(balance: real, costs: seq<real>, growth: real, n: nat)
    requires n <= |costs|
    ensures forall i :: 0 <= i < n ==> ReportYears(balance, costs, growth, n)[i].cost == costs[i]
  {
    if n > 0 { ReportCosts(balance, costs, growth, n - 1); }
  }

  lemma LastYear(y: nat, balance: real, cost: real, growth: real)
    requires cost >= 0.0 && WholeCents(cost)
    ensures var r := ReportYear(y, balance, cost, growth);
            (balance >= cost ==> PaidInFull(r)) && (balance == 0.0 ==> PaidNothing(r))
  {
    Round2Zero();
    Round2Fixed(cost);
  }

  /**
   The inputs on which a shortfall year is named although nothing is short: an
   overdrawn bucket facing only free years, or a return below -100% that turns
   money left over after year one negative before only free years follow.
   */
  predicate NamesAFreeYear(balance: real, costs: seq<real>, growth: real, n: nat)
    requires n <= |costs|
  {
    || (n >= 1 && balance < 0.0 && AllZero(costs, 0, n))
    || (n >= 2 && growth < 0.0 && balance >= 0.0 && balance > costs[0] && AllZero(costs, 1, n))
  }

  lemma ProductSign(x: real, growth: real)
    requires x >= 0.0
    ensures growth >= 0.0 ==> x * growth >= 0.0
    ensures growth < 0.0 && x > 0.0 ==> x * growth < 0.0
    ensures x * growth == 0.0 <==> x == 0.0 || growth == 0.0
  {
  }

  /** Where the bucket stands as long as no year has fallen short. */
  lemma {:induction false} UnbrokenBalance(balance: real, costs: seq<real>, growth: real, n: nat)
    requires n <= |costs| && NonNegative(costs)
    requires WalkYears(balance, costs, growth, n).short == 0
    ensures var w := WalkYears(balance, costs, growth, n);
            && (n >= 1 ==> balance >= costs[0] >= 0.0)
            && (n >= 1 && growth >= 0.0 ==> w.balance >= 0.0)
            && (n == 1 ==> w.balance == (balance - costs[0]) * growth)
            && (n >= 2 && growth < 0.0 ==> balance == costs[0] && w.balance == 0.0)
  {
    if n >= 1 {
      var w := WalkYears(balance, costs, growth, n - 1);
      assert w.short == 0 && w.balance >= costs[n - 1];
      UnbrokenBalance(balance, costs, growth, n - 1);
      ProductSign(w.balance - costs[n - 1], growth);
      if n == 2 { ProductSign(balance - costs[0], growth); }
    }
  }

  /** A year is named exactly when something is short. */
  predicate NamesWhatIsShort(balance: real, costs: seq<real>, growth: real, n: nat)
    requires n <= |costs|
  {
    var o := Report(balance, costs, growth, n);
    o.firstShortfallYear == 0 <==> o.totalShortfall == 0.0
  }

  lemma NamedAfterShort(balance: real, costs: seq<real>, growth: real, n: nat)
    requires n < |costs| && NonNegative(costs) && WalkYears(balance, costs, growth, n).short > 0
    requires NamesWhatIsShort(balance, costs, growth, n) <==> !NamesAFreeYear(balance, costs, growth, n)
    ensures NamesWhatIsShort(balance, costs, growth, n + 1) <==> !NamesAFreeYear(balance, costs, growth, n + 1)
  {
    WalkBalances(balance, costs, growth, n);
    WalkBalances(balance, costs, growth, n + 1);
  }

  lemma NamedWhileUnbroken(balance: real, costs: seq<real>, growth: real, n: nat)
    requires n < |costs| && NonNegative(costs) && WalkYears(balance, costs, growth, n).short == 0
    ensures NamesWhatIsShort(balance, costs, growth, n + 1) <==> !NamesAFreeYear(balance, costs, growth, n + 1)
  {
    WalkBalances(balance, costs, growth, n);
    WalkBalances(balance, costs, growth, n + 1);
    UnbrokenBalance(balance, costs, growth, n);
    if n == 1 { ProductSign(balance - costs[0], growth); }
  }

  /** A year is named exactly when something is short, except on the inputs above. */
  lemma {:induction false} NamedYearMeansShort(balance: real, costs: seq<real>, growth: real, n: nat)
    requires n <= |costs| && NonNegative(costs)
    ensures var o := Report(balance, costs, growth, n);
            (o.firstShortfallYear == 0 <==> o.totalShortfall == 0.0)
              <==> !NamesAFreeYear(balance, costs, growth, n)
  {
    if n > 0 {
      NamedYearMeansShort(balance, costs, growth, n - 1);
      if WalkYears(balance, costs, growth, n - 1).short == 0 {
        NamedWhileUnbroken(balance, costs, growth, n - 1);
      } else {
        NamedAfterShort(balance, costs, growth, n - 1);
      }
    }
  }

  /** An overdrawn bucket facing one free year: the year is named, and nothing is short. */
  lemma FreeYearNamed()
    ensures var o := Report(-1.0, [0.0], 1.0, 1); o.firstShortfallYear == 1 && o.totalShortfall == 0.0
  {
    assert WalkYears(-1.0, [0.0], 1.0, 0).balance == -1.0;
  }

  // ------------------------------------------------------ rounded figures

  lemma NearestShift(x: real, k: int)
    requires 0.0 <= x <= k as real
    ensures Nearest(x) + Nearest(k as real - x) == if IsHalf(x) then k + 1 else k
  {
    var n := Nearest(x);
    NearestIs(x);
    NearestIs(k as real - x);
    if IsHalf(x) {
      var h := x.Floor;
      assert n == h + 1 by { assert IsNearest(h + 1, x); NearestUnique(n, h + 1, x); }
      NearestUnique(Nearest(k as real - x), k - h, k as real - x);
    } else {
      assert x != n as real - 0.5 by { assert (n as real - 0.5).Floor == n - 1; }
      NearestUnique(Nearest(k as real - x), k - n, k as real - x);
    }
  }

  lemma NearestUnique(m: int, n: int, x: real)
    requires IsNearest(m, x) && IsNearest(n, x)
    ensures m == n
  {
  }

  predicate IsHalf(x: real) {
    x == x.Floor as real + 0.5
  }

  /**
   The rounded parts of a whole-cent total add up to it, except that a part
   ending on exactly half a cent rounds up on both sides and adds one cent.
   */
  lemma RoundedPartsReconcile(total: real, part: real)
    requires WholeCents(total) && 0.0 <= part <= total
    ensures Round2(part) + Round2(total - part)
         == total + (if IsHalf(part * 100.0) then 0.01 else 0.0)
  {
    var k: int :| total == Cents(k);
    assert (total - part) * 100.0 == k as real - part * 100.0;
    NearestShift(part * 100.0, k);
  }

  lemma HalfCentRoundsUp()
    ensures Round2(100.005) == 100.01
  {
    assert 100.005 * 100.0 == 10000.5;
    NearestIs(10000.5);
  }

  /** A year costing 200.01 met by 100.005: the rounded parts are reported a cent above the cost. */
  lemma PartsCanBeACentOver()
    ensures var o := Report(100.005, [200.01], 1.0, 1);
            Round2(o.totalCovered) + Round2(o.totalShortfall) == Round2(o.totalCost) + 0.01
  {
    HalfCentRoundsUp();
    assert WalkYears(100.005, [200.01], 1.0, 0).balance == 100.005;
    assert 200.01 == Cents(20001);
    Round2Fixed(200.01);
  }

  // ----------------------------------------------- the present-value formula

  /** What the first n years cost on enrollment day, each discounted by the years it waits. */
  function PresentValue(costs: seq<real>, growth: real, n: nat): real
    requires n <= |costs| && growth > 0.0
  {
    if n == 0 then 0.0
    else
      PowPositive(growth, n - 1);
      PresentValue(costs, growth, n - 1) + costs[n - 1] / Pow(growth, n - 1)
  }

  lemma {:induction false} PresentValueNonNegative(costs: seq<real>, growth: real, n: nat)
    requires n <= |costs| && growth > 0.0 && NonNegative(costs)
    ensures PresentValue(costs, growth, n) >= 0.0
    ensures PresentValue(costs, growth, n) == 0.0 <==> AllZero(costs, 0, n)
  {
    if n > 0 {
      PresentValueNonNegative(costs, growth, n - 1);
      PowPositive(growth, n - 1);
      QuotientSign(costs[n - 1], Pow(growth, n - 1));
    }
  }

  lemma QuotientSign(x: real, p: real)
    requires x >= 0.0 && p > 0.0
    ensures x / p >= 0.0
    ensures x / p == 0.0 <==> x == 0.0
  {
    assert x / p * p == x;
  }

  lemma UnbrokenStep(balance: real, costs: seq<real>, growth: real, n: nat)
    requires n < |costs| && WalkYears(balance, costs, growth, n + 1).short == 0
    ensures WalkYears(balance, costs, growth, n).short == 0
    ensures WalkYears(balance, costs, growth, n).balance >= costs[n]
    ensures WalkYears(balance, costs, growth, n + 1).balance == (WalkYears(balance, costs, growth, n).balance - costs[n]) * growth
  {
  }

  /** What an opening excess has grown to. */
  function Excess(balance: real, costs: seq<real>, growth: real, n: nat): real
    requires n <= |costs| && growth > 0.0
  {
    (balance - PresentValue(costs, growth, n)) * Pow(growth, n)
  }

  lemma ExcessStep(balance: real, costs: seq<real>, growth: real, n: nat)
    requires n < |costs| && growth > 0.0
    ensures Excess(balance, costs, growth, n + 1) == (Excess(balance, costs, growth, n) - costs[n]) * growth
  {
    PowPositive(growth, n);
    OneYearOn(balance, PresentValue(costs, growth, n), costs[n], growth, Pow(growth, n),
              Excess(balance, costs, growth, n), PresentValue(costs, growth, n + 1), Pow(growth, n + 1));
  }

  /** While every year has been paid, the bucket holds what its opening excess has grown to. */
  lemma {:induction false} UnbrokenIsDiscounted(balance: real, costs: seq<real>, growth: real, n: nat)
    requires n <= |costs| && growth > 0.0
    requires WalkYears(balance, costs, growth, n).short == 0
    ensures WalkYears(balance, costs, growth, n).balance == Excess(balance, costs, growth, n)
  {
    if n > 0 {
      UnbrokenStep(balance, costs, growth, n - 1);
      UnbrokenIsDiscounted(balance, costs, growth, n - 1);
      ExcessStep(balance, costs, growth, n - 1);
    }
  }

  lemma OneYearOn(balance: real, pv: real, cost: real, growth: real, p: real, held: real, nextPv: real, nextP: real)
    requires p > 0.0 && held == (balance - pv) * p
    requires nextPv == pv + cost / p && nextP == growth * p
    ensures (held - cost) * growth == (balance - nextPv) * nextP
  {
    var q := cost / p;
    assert q * p == cost;
    assert held - cost == (balance - nextPv) * p;
  }

  lemma Discount(excess: real, held: real, cost: real, p: real)
    requires p > 0.0 && held == excess * p
    ensures held >= cost <==> excess >= cost / p
  {
    var q := cost / p;
    assert q * p == cost;
    assert held - cost == (excess - q) * p;
  }

  /** What the excess has grown to pays the next year exactly when the opening balance reached that far. */
  lemma ExcessPays(balance: real, costs: seq<real>, growth: real, n: nat)
    requires n < |costs| && growth > 0.0 && NonNegative(costs)
    ensures Excess(balance, costs, growth, n) >= costs[n] <==> balance >= PresentValue(costs, growth, n + 1)
    ensures PresentValue(costs, growth, n + 1) >= PresentValue(costs, growth, n)
  {
    var p := Pow(growth, n);
    PowPositive(growth, n);
    QuotientSign(costs[n], p);
    Discount(balance - PresentValue(costs, growth, n), Excess(balance, costs, growth, n), costs[n], p);
  }

  lemma ShortStep(balance: real, costs: seq<real>, growth: real, n: nat)
    requires n < |costs|
    ensures WalkYears(balance, costs, growth, n + 1).short == 0
       <==> WalkYears(balance, costs, growth, n).short == 0 && WalkYears(balance, costs, growth, n).balance >= costs[n]
  {
  }

  lemma {:induction false} NeverShortIffPresentValue(balance: real, costs: seq<real>, growth: real, n: nat)
    requires n <= |costs| && growth > 0.0 && NonNegative(costs) && balance >= 0.0
    ensures WalkYears(balance, costs, growth, n).short == 0 <==> balance >= PresentValue(costs, growth, n)
  {
    if n > 0 {
      NeverShortIffPresentValue(balance, costs, growth, n - 1);
      ShortStep(balance, costs, growth, n - 1);
      ExcessPays(balance, costs, growth, n - 1);
      if WalkYears(balance, costs, growth, n - 1).short == 0 {
        UnbrokenIsDiscounted(balance, costs, growth, n - 1);
      }
    }
  }

  /**
   The year-by-year walk agrees with the closed formula: nothing is short
   exactly when the opening balance reaches the present value of every year.
   */
  lemma FundedIffPresentValue(balance: real, costs: seq<real>, growth: real, n: nat)
    requires n <= |costs| && growth > 0.0 && NonNegative(costs)
    ensures WalkYears(balance, costs, growth, n).shortfall == 0.0
        <==> (if balance < 0.0 then 0.0 else balance) >= PresentValue(costs, growth, n)
  {
    PresentValueNonNegative(costs, growth, n);
    if balance < 0.0 {
      OverdrawnPaysNothing(balance, costs, growth, n);
    } else {
      NamedYearMeansShort(balance, costs, growth, n);
      NeverShortIffPresentValue(balance, costs, growth, n);
    }
  }

  lemma {:induction false} OverdrawnPaysNothing(balance: real, costs: seq<real>, growth: real, n: nat)
    requires n <= |costs| && balance < 0.0 && NonNegative(costs)
    ensures var w := WalkYears(balance, costs, growth, n);
            && w.balance <= 0.0 && w.covered == 0.0 && w.shortfall >= 0.0
            && (w.shortfall == 0.0 <==> AllZero(costs, 0, n))
            && (n >= 1 ==> w.balance == 0.0)
  {
    if n > 0 { OverdrawnPaysNothing(balance, costs, growth, n - 1); }
  }

  // ------------------------------------------------------------ monotonicity

  lemma ProductMonotone(x: real, y: real, k: real)
    requires x <= y && k >= 0.0
    ensures x * k <= y * k
  {
    ProductSign(y - x, k);
    assert (y - x) * k == y * k - x * k;
  }

  /** A larger bucket is never poorer later and never more short. */
  lemma {:induction false} MoreMoneyNeverHurts(less: real, more: real, costs: seq<real>, growth: real, n: nat)
    requires n <= |costs| && less <= more && growth >= 0.0 && NonNegative(costs)
    ensures WalkYears(less, costs, growth, n).balance <= WalkYears(more, costs, growth, n).balance
    ensures WalkYears(less, costs, growth, n).shortfall >= WalkYears(more, costs, growth, n).shortfall
  {
    if n > 0 {
      MoreMoneyNeverHurts(less, more, costs, growth, n - 1);
      var a := WalkYears(less, costs, growth, n - 1).balance;
      var b := WalkYears(more, costs, growth, n - 1).balance;
      StepMonotone(a, b, costs[n - 1], growth);
    }
  }

  lemma StepMonotone(less: real, more: real, cost: real, growth: real)
    requires less <= more && growth >= 0.0 && cost >= 0.0
    ensures Next(less, cost, growth) <= Next(more, cost, growth)
    ensures Covered(less, cost) <= Covered(more, cost)
  {
    ProductMonotone(if less < cost then 0.0 else less - cost, if more < cost then 0.0 else more - cost, growth);
  }

  /** What a monthly contribution has grown to: growth first, then the deposit. */
  function Accrued(monthlyRate: real, extra: real, months: nat): real {
    if months == 0 then 0.0
    else
      var before := Accrued(monthlyRate, extra, months - 1);
      before + before * monthlyRate + extra
  }

  lemma {:induction false} AccruedMonotone(monthlyRate: real, less: real, more: real, months: nat)
    requires less <= more && monthlyRate >= 0.0
    ensures Accrued(monthlyRate, less, months) <= Accrued(monthlyRate, more, months)
  {
    if months > 0 {
      AccruedMonotone(monthlyRate, less, more, months - 1);
      ProductMonotone(Accrued(monthlyRate, less, months - 1), Accrued(monthlyRate, more, months - 1), monthlyRate);
    }
  }

  // ------------------------------------------------------ what a year costs

  /** One year dearer than the year before, within the half cent each of the two was rounded by. */
  predicate OneYearDearer(before: real, after: real, rate: real) {
    var inflated, rounding := before * (1.0 + rate), HALF_CENT + HALF_CENT * (1.0 + rate);
    inflated - rounding <= after <= inflated + rounding
  }

  /**
   The years of a report cost what they should, seen from the report alone: a
   goal enrolling today pays the annual cost in its first year, every later year
   is the year before it inflated once more, and no year is cheaper than the
   year before while college outruns inflation.
   */
  predicate PricedYearByYear(years: seq<CollegeYear>, g: CollegeGoal, rate: real) {
    && |years| == (if g.years <= 0 then 0 else g.years)
    && (g.yearsToEnrollment == 0 && |years| > 0 ==> years[0].cost == Round2(g.annualCost))
    && (rate >= -1.0 ==> forall i :: 0 < i < |years| ==> OneYearDearer(years[i - 1].cost, years[i].cost, rate))
    && (rate >= 0.0 && g.annualCost >= 0.0 ==> forall i :: 0 < i < |years| ==> years[i - 1].cost <= years[i].cost)
  }

  /** A product moves by no more than its factor's error times the other factor. */
  lemma ProductNear(x: real, y: real, error: real, k: real)
    requires x - error <= y <= x + error && k >= 0.0
    ensures x * k - error * k <= y * k <= x * k + error * k
  {
    ProductMonotone(x - y, error, k);
    ProductMonotone(y - x, error, k);
    assert (x - y) * k == x * k - y * k && (y - x) * k == y * k - x * k;
  }

  lemma InflatedOnce(exact: real, factor: real, error: real, before: real, after: real)
    requires factor >= 0.0 && exact - error <= before <= exact + error
    requires exact * factor - error <= after <= exact * factor + error
    ensures before * factor - (error + error * factor) <= after <= before * factor + (error + error * factor)
  {
    ProductNear(exact, before, error, factor);
  }

  lemma RoundedRise(exact: real, next: real, rate: real)
    requires rate >= -1.0 && next == exact * (1.0 + rate)
    ensures OneYearDearer(Round2(exact), Round2(next), rate)
  {
    Round2Near(exact);
    Round2Near(next);
    InflatedOnce(exact, 1.0 + rate, HALF_CENT, Round2(exact), Round2(next));
  }

  lemma Regrouped(x: real, y: real, z: real)
    ensures x * (y * z) == x * z * y && x * (y * z) == x * y * z
  {
  }

  lemma InflatedNext(annual: real, rate: real, n: nat)
    ensures Inflated(annual, rate, n + 1) == Inflated(annual, rate, n) * (1.0 + rate)
    ensures Inflated(annual, rate, n + 1) == Inflated(annual * (1.0 + rate), rate, n)
  {
    Regrouped(annual, 1.0 + rate, Pow(1.0 + rate, n));
  }

  lemma NotCheaper(annual: real, rate: real, n: nat)
    requires annual >= 0.0 && rate >= 0.0
    ensures 0.0 <= Inflated(annual, rate, n) <= Inflated(annual, rate, n + 1)
  {
    PowNonNegative(1.0 + rate, n);
    ProductSign(annual, Pow(1.0 + rate, n));
    InflatedNext(annual, rate, n);
    Grown(Inflated(annual, rate, n), rate);
  }

  lemma Grown(x: real, rate: real)
    requires x >= 0.0 && rate >= 0.0
    ensures x <= x * (1.0 + rate)
  {
    ProductSign(x, rate);
    assert x * (1.0 + rate) == x + x * rate;
  }

  lemma NextYearCost(g: CollegeGoal, rate: real, y: nat)
    requires y >= 1
    ensures rate >= -1.0 ==> OneYearDearer(CostOf(g, rate, y), CostOf(g, rate, y + 1), rate)
    ensures rate >= 0.0 && g.annualCost >= 0.0 ==> CostOf(g, rate, y) <= CostOf(g, rate, y + 1)
  {
    var n := g.yearsToEnrollment + y - 1;
    var exact, next := Inflated(g.annualCost, rate, n), Inflated(g.annualCost, rate, n + 1);
    InflatedNext(g.annualCost, rate, n);
    if rate >= -1.0 {
      RoundedRise(exact, next, rate);
    }
    if rate >= 0.0 && g.annualCost >= 0.0 {
      NotCheaper(g.annualCost, rate, n);
      Round2Monotone(exact, next);
    }
  }

  lemma FirstYearCost(g: CollegeGoal, rate: real)
    requires g.yearsToEnrollment == 0
    ensures CostOf(g, rate, 1) == Round2(g.annualCost)
  {
    assert g.annualCost * 1.0 == g.annualCost;
  }

  /** Whatever the bucket held, the years reported are priced year by year. */
  lemma ReportIsPriced(start: real, g: CollegeGoal, rate: real, growth: real)
    ensures var costs := Costs(g, rate); PricedYearByYear(ReportYears(start, costs, growth, |costs|), g, rate)
  {
    var costs := Costs(g, rate);
    ReportCosts(start, costs, growth, |costs|);
    if g.yearsToEnrollment == 0 { FirstYearCost(g, rate); }
    forall i | 0 < i < |costs|
      ensures rate >= -1.0 ==> OneYearDearer(costs[i - 1], costs[i], rate)
      ensures rate >= 0.0 && g.annualCost >= 0.0 ==> costs[i - 1] <= costs[i]
    {
      NextYearCost(g, rate, i);
    }
  }

  /**
   A goal that enrolls a year later pays, year for year, what the same goal, one
   year longer, pays from its second year on.
   */
  lemma LaterEnrollmentShifts(g: CollegeGoal, later: CollegeGoal, longer: CollegeGoal, rate: real,
                              start: real, start': real, growth: real, growth': real)
    requires g.years >= 0
    requires later == g.(yearsToEnrollment := g.yearsToEnrollment + 1) && longer == g.(years := g.years + 1)
    ensures |Costs(later, rate)| == g.years && |Costs(longer, rate)| == g.years + 1
    ensures var a := Report(start, Costs(later, rate), growth, g.years);
            var b := Report(start', Costs(longer, rate), growth', g.years + 1);
            forall i :: 0 <= i < g.years ==> a.years[i].cost == b.years[i + 1].cost
  {
    ReportCosts(start, Costs(later, rate), growth, g.years);
    ReportCosts(start', Costs(longer, rate), growth', g.years + 1);
    forall i | 0 <= i < g.years ensures Costs(later, rate)[i] == Costs(longer, rate)[i + 1] {
      assert later.yearsToEnrollment + (i + 1) - 1 == longer.yearsToEnrollment + (i + 2) - 1;
    }
  }

  lemma InflatedLater(g: CollegeGoal, later: CollegeGoal, dearer: CollegeGoal, rate: real, y: nat)
    requires y >= 1 && later.annualCost == g.annualCost && later.yearsToEnrollment == g.yearsToEnrollment + 1
    requires dearer.annualCost == g.annualCost * (1.0 + rate) && dearer.yearsToEnrollment == g.yearsToEnrollment
    ensures CostOf(later, rate, y) == CostOf(dearer, rate, y)
  {
    InflatedNext(g.annualCost, rate, g.yearsToEnrollment + y - 1);
    assert later.yearsToEnrollment + y - 1 == g.yearsToEnrollment + y - 1 + 1;
  }

  /** Waiting a year costs, year for year, exactly what enrolling now at next year's prices does. */
  lemma LaterEnrollmentInflates(g: CollegeGoal, later: CollegeGoal, dearer: CollegeGoal, rate: real,
                                start: real, start': real, growth: real, growth': real)
    requires later == g.(yearsToEnrollment := g.yearsToEnrollment + 1)
    requires dearer == g.(annualCost := g.annualCost * (1.0 + rate))
    ensures |Costs(later, rate)| == |Costs(dearer, rate)|
    ensures var n := |Costs(later, rate)|;
            var a := Report(start, Costs(later, rate), growth, n);
            var b := Report(start', Costs(dearer, rate), growth', n);
            forall i :: 0 <= i < n ==> a.years[i].cost == b.years[i].cost
  {
    var n := |Costs(later, rate)|;
    ReportCosts(start, Costs(later, rate), growth, n);
    ReportCosts(start', Costs(dearer, rate), growth', n);
    forall i | 0 <= i < n ensures Costs(later, rate)[i] == Costs(dearer, rate)[i] {
      InflatedLater(g, later, dearer, rate, i + 1);
    }
  }

  /** The rate is the part of college inflation that general inflation does not explain, but for two quotients' rounding. */
  lemma RateIsTheExcess(collegePct: real, inflationRate: real)
    ensures var rate, general := RealCollegeRate(collegePct, inflationRate), 1.0 + inflationRate;
            && (general > 0.0 ==>
                  Within((1.0 + rate) * general, 1.0 + collegePct / 100.0, QUOTIENT_ERROR * general + QUOTIENT_ERROR))
            && (general <= 0.0 ==> Within(rate, collegePct / 100.0, QUOTIENT_ERROR))
  {
    Div16Near(collegePct, 100.0);
    if 1.0 + inflationRate > 0.0 {
      ExcessOver(1.0 + Div16(collegePct, 100.0), 1.0 + collegePct / 100.0, 1.0 + inflationRate);
      SameRate(collegePct, inflationRate);
    }
  }

  lemma SameRate(collegePct: real, inflationRate: real)
    requires 1.0 + inflationRate > 0.0
    ensures 1.0 + RealCollegeRate(collegePct, inflationRate)
         == Div16(1.0 + Div16(collegePct, 100.0), 1.0 + inflationRate)
  {
  }

  lemma ExcessOver(college: real, exact: real, general: real)
    requires general > 0.0 && Within(college, exact, QUOTIENT_ERROR)
    ensures Within(Div16(college, general) * general, exact, QUOTIENT_ERROR * general + QUOTIENT_ERROR)
  {
    Div16Near(college, general);
    QuotientBack(college, general, college / general, Div16(college, general), QUOTIENT_ERROR);
  }

  predicate Within(x: real, y: real, error: real) {
    y - error <= x <= y + error
  }

  lemma QuotientBack(x: real, y: real, quotient: real, q: real, error: real)
    requires y > 0.0 && quotient == x / y && Within(q, quotient, error)
    ensures Within(q * y, x, error * y)
  {
    assert quotient * y == x;
    ProductNear(quotient, q, error, y);
  }

  // ------------------------------------------------------------- the solver

  const SOLVE_ITERATIONS := 40
  const SOLVE_MAX := 100000.0

  /** The width of the search interval after n exact halvings. */
  function Halved(n: nat): (w: real)
    ensures 0.0 < w <= SOLVE_MAX
  {
    if n == 0 then SOLVE_MAX else Halved(n - 1) / 2.0
  }

  /** How far below the solved amount the search can have stopped: 100000 / 2^40, and what rounding midpoints adds. */
  const SOLVE_GAP := 100000.0 / 1099511627776.0 + 2.0 * QUOTIENT_ERROR

  lemma TenHalvings(n: nat)
    ensures Halved(n + 10) == Halved(n) / 1024.0
  {
    assert Halved(n + 1) == Halved(n) / 2.0 && Halved(n + 2) == Halved(n + 1) / 2.0;
    assert Halved(n + 3) == Halved(n + 2) / 2.0 && Halved(n + 4) == Halved(n + 3) / 2.0;
    assert Halved(n + 5) == Halved(n + 4) / 2.0 && Halved(n + 6) == Halved(n + 5) / 2.0;
    assert Halved(n + 7) == Halved(n + 6) / 2.0 && Halved(n + 8) == Halved(n + 7) / 2.0;
    assert Halved(n + 9) == Halved(n + 8) / 2.0 && Halved(n + 10) == Halved(n + 9) / 2.0;
  }

  lemma FortyHalvings()
    ensures Halved(SOLVE_ITERATIONS) == 100000.0 / 1099511627776.0
  {
    TenHalvings(0);
    TenHalvings(10);
    TenHalvings(20);
    TenHalvings(30);
  }

  lemma {:induction false} HalvedAtLeast(n: nat, m: nat)
    requires n <= m
    ensures Halved(n) >= Halved(m)
  {
    if n < m { HalvedAtLeast(n, m - 1); }
  }

  function MonthlyRate(rate: real): real {
    if rate > 0.0 then Div16(rate, 12.0) else 0.0
  }

  /** The projected balance some years out, the last projected month standing in for any later one. */
  function BalanceAtYear(points: seq<Point>, account: string, years: nat): Option<real> {
    if |points| == 0 then None else
    var wanted := if years * 12 < 1 then 1 else years * 12;
    var idx := if wanted > |points| then |points| else wanted;
    if account in points[idx - 1] then Some(points[idx - 1][account]) else None
  }

  /** An extra amount every month until enrollment leaves no year short. */
  predicate FundsEveryYear(base: real, g: CollegeGoal, realInflation: real, rate: real, extra: real) {
    var costs := Costs(g, realInflation);
    var opening := base + Accrued(MonthlyRate(rate), extra, g.yearsToEnrollment * 12);
    !(WalkYears(opening, costs, 1.0 + rate, |costs|).shortfall > 0.0)
  }

  lemma ContributingMoreStillFunds(base: real, g: CollegeGoal, realInflation: real, rate: real, less: real, more: real)
    requires NonNegative(Costs(g, realInflation)) && rate >= -1.0
    requires less <= more && FundsEveryYear(base, g, realInflation, rate, less)
    ensures FundsEveryYear(base, g, realInflation, rate, more)
  {
    var months, costs := g.yearsToEnrollment * 12, Costs(g, realInflation);
    assert MonthlyRate(rate) >= 0.0 by {
      if rate > 0.0 { Div16AtLeast(rate, 12.0, 0); }
    }
    AccruedMonotone(MonthlyRate(rate), less, more, months);
    MoreMoneyNeverHurts(base + Accrued(MonthlyRate(rate), less, months),
                        base + Accrued(MonthlyRate(rate), more, months), costs, 1.0 + rate, |costs|);
  }

  method Accrue(monthlyRate: real, extra: real, months: nat) returns (accrued: real)
    ensures accrued == Accrued(monthlyRate, extra, months)
  {
    accrued := 0.0;
    for m := 0 to months
      invariant accrued == Accrued(monthlyRate, extra, m)
    {
      accrued := accrued + accrued * monthlyRate + extra;
    }
  }

  method Funds(base: real, g: CollegeGoal, realInflation: real, rate: real, monthlyRate: real, extra: real)
    returns (ok: bool)
    requires monthlyRate == MonthlyRate(rate)
    ensures ok == FundsEveryYear(base, g, realInflation, rate, extra)
  {
    var accrued := Accrue(monthlyRate, extra, g.yearsToEnrollment * 12);
    var out := Drawdown(base + accrued, g, realInflation, rate);
    ok := !(out.totalShortfall > 0.0);
  }

  method SolveCollegeMonthly(points: seq<Point>, account: string, g: CollegeGoal, realInflation: real, rate: real)
    returns (needed: real, found: bool)
    ensures var base := BalanceAtYear(points, account, g.yearsToEnrollment);
            && (found <==> && base.Some? && g.yearsToEnrollment > 0
                           && !FundsEveryYear(base.value, g, realInflation, rate, 0.0)
                           && FundsEveryYear(base.value, g, realInflation, rate, SOLVE_MAX))
            && (found ==> WholeCents(needed) && 0.0 < needed <= SOLVE_MAX)
            && (found && NonNegative(Costs(g, realInflation)) && rate >= -1.0 ==>
                  && FundsEveryYear(base.value, g, realInflation, rate, needed)
                  && forall x :: x <= needed - 0.01 - SOLVE_GAP ==>
                       !FundsEveryYear(base.value, g, realInflation, rate, x))
  {
    var at := BalanceAtYear(points, account, g.yearsToEnrollment);
    if at.None? {
      return 0.0, false;
    }
    var base := at.value;
    var months := g.yearsToEnrollment * 12;
    if months <= 0 {
      return 0.0, false;
    }
    var monthlyRate := 0.0;
    if rate > 0.0 {
      monthlyRate := Div16(rate, 12.0);
    }
    var already := Funds(base, g, realInflation, rate, monthlyRate, 0.0);
    if already {
      return 0.0, false;
    }
    var reachable := Funds(base, g, realInflation, rate, monthlyRate, SOLVE_MAX);
    if !reachable {
      return 0.0, false;
    }
    var lo, hi := 0.0, SOLVE_MAX;
    FortyHalvings();
    for i := 0 to SOLVE_ITERATIONS
      invariant 0.0 <= lo < hi <= SOLVE_MAX
      invariant Halved(i) - 2.0 * QUOTIENT_ERROR <= hi - lo <= Halved(i) + 2.0 * QUOTIENT_ERROR
      invariant FundsEveryYear(base, g, realInflation, rate, hi)
      invariant !FundsEveryYear(base, g, realInflation, rate, lo)
    {
      HalvedAtLeast(i + 1, SOLVE_ITERATIONS);
      Div16Near(lo + hi, 2.0);
      var mid := Div16(lo + hi, 2.0);
      var enough := Funds(base, g, realInflation, rate, monthlyRate, mid);
      if enough {
        hi := mid;
      } else {
        lo := mid;
      }
    }
    CeilCentsIs(hi);
    CeilCentsOfMax(hi);
    needed, found := CeilCents(hi), true;
    SolvedIsLeast(base, g, realInflation, rate, lo, hi, needed);
  }

  lemma CeilCentsOfMax(x: real)
    requires x <= SOLVE_MAX
    ensures CeilCents(x) <= SOLVE_MAX
  {
    assert -x * 100.0 >= (-10000000) as real;
  }

  /** Rounding the upper end up keeps it sufficient, and every lesser amount below the lower end still fails. */
  lemma SolvedIsLeast(base: real, g: CollegeGoal, realInflation: real, rate: real, lo: real, hi: real, needed: real)
    requires hi <= needed < hi + 0.01 && hi - lo <= SOLVE_GAP
    requires FundsEveryYear(base, g, realInflation, rate, hi)
    requires !FundsEveryYear(base, g, realInflation, rate, lo)
    ensures NonNegative(Costs(g, realInflation)) && rate >= -1.0 ==>
              && FundsEveryYear(base, g, realInflation, rate, needed)
              && forall x :: x <= needed - 0.01 - SOLVE_GAP ==> !FundsEveryYear(base, g, realInflation, rate, x)
  {
    if NonNegative(Costs(g, realInflation)) && rate >= -1.0 {
      ContributingMoreStillFunds(base, g, realInflation, rate, hi, needed);
      forall x | x <= needed - 0.01 - SOLVE_GAP
        ensures !FundsEveryYear(base, g, realInflation, rate, x)
      {
        if FundsEveryYear(base, g, realInflation, rate, x) {
          ContributingMoreStillFunds(base, g, realInflation, rate, x, lo);
        }
      }
    }
  }

  /** Inside the search bound, only an amount the bound itself cannot reach goes unsolved. */
  lemma UnreachableIsUnreachable(base: real, g: CollegeGoal, realInflation: real, rate: real, x: real)
    requires NonNegative(Costs(g, realInflation)) && rate >= -1.0
    requires !FundsEveryYear(base, g, realInflation, rate, SOLVE_MAX) && x <= SOLVE_MAX
    ensures !FundsEveryYear(base, g, realInflation, rate, x)
  {
    if FundsEveryYear(base, g, realInflation, rate, x) {
      ContributingMoreStillFunds(base, g, realInflation, rate, x, SOLVE_MAX);
    }
  }

  // -------------------------------------------------- the solver in closed form

  /** A twelfth of a positive yearly rate, to a quotient's rounding; nothing of any other. */
  lemma MonthlyRateIsATwelfth(rate: real)
    ensures var m := MonthlyRate(rate);
            && (rate > 0.0 ==> rate - 12.0 * QUOTIENT_ERROR <= 12.0 * m <= rate + 12.0 * QUOTIENT_ERROR)
            && (rate <= 0.0 ==> m == 0.0) && m >= 0.0
  {
    if rate > 0.0 {
      Div16Near(rate, 12.0);
      Div16AtLeast(rate, 12.0, 0);
    }
  }

  /** Growth comes before each deposit: the sum is that of an annuity paid at the end of every month. */
  lemma {:induction false} AccruedIsAnnuity(monthlyRate: real, extra: real, months: nat)
    ensures Accrued(monthlyRate, extra, months) * monthlyRate == extra * (Pow(1.0 + monthlyRate, months) - 1.0)
  {
    if months > 0 {
      AccruedIsAnnuity(monthlyRate, extra, months - 1);
      OneMonthOn(monthlyRate, extra, Accrued(monthlyRate, extra, months - 1), Pow(1.0 + monthlyRate, months - 1),
                 Accrued(monthlyRate, extra, months), Pow(1.0 + monthlyRate, months));
    }
  }

  lemma OneMonthOn(rate: real, extra: real, before: real, power: real, after: real, nextPower: real)
    requires before * rate == extra * (power - 1.0)
    requires after == before + before * rate + extra && nextPower == (1.0 + rate) * power
    ensures after * rate == extra * (nextPower - 1.0)
  {
    var grown := power - 1.0;
    assert nextPower - 1.0 == grown + rate * grown + rate by {
      assert (1.0 + rate) * power == power + rate * power && rate * power == rate * grown + rate;
    }
    InterestOnInterest(rate, extra, before, grown, before * rate);
  }

  lemma InterestOnInterest(rate: real, extra: real, before: real, grown: real, interest: real)
    requires interest == before * rate == extra * grown
    ensures (before + interest + extra) * rate == extra * (grown + rate * grown + rate)
  {
    assert extra * (rate * grown) == interest * rate;
    assert extra * (grown + rate * grown + rate) == extra * grown + extra * (rate * grown) + extra * rate;
  }

  lemma {:induction false} AccruedFlat(extra: real, months: nat)
    ensures Accrued(0.0, extra, months) == extra * months as real
  {
    if months > 0 {
      AccruedFlat(extra, months - 1);
      assert extra * (months - 1) as real + extra == extra * months as real;
    }
  }

  /** What so much every month comes to at a monthly rate: the annuity formula, or plain multiplication without interest. */
  predicate IsAnnuity(saved: real, m: real, extra: real, months: nat) {
    if m == 0.0 then saved == extra * months as real else saved * m == extra * (Pow(1.0 + m, months) - 1.0)
  }

  lemma SavedIsAccrued(m: real, months: nat, extra: real, saved: real)
    ensures IsAnnuity(saved, m, extra, months) <==> saved == Accrued(m, extra, months)
  {
    if m == 0.0 {
      AccruedFlat(extra, months);
    } else {
      AccruedIsAnnuity(m, extra, months);
      SameProduct(saved, Accrued(m, extra, months), m, extra * (Pow(1.0 + m, months) - 1.0));
    }
  }

  /**
   When a monthly amount is enough, by formula alone: the projected balance and
   what twelve deposits a year have grown to reach the present value of every
   year of study.
   */
  lemma FundsExactlyWhen(base: real, g: CollegeGoal, realInflation: real, rate: real, extra: real, saved: real)
    requires rate > -1.0 && NonNegative(Costs(g, realInflation))
    requires IsAnnuity(saved, MonthlyRate(rate), extra, 12 * g.yearsToEnrollment)
    ensures var costs := Costs(g, realInflation);
            var opening := if base + saved < 0.0 then 0.0 else base + saved;
            FundsEveryYear(base, g, realInflation, rate, extra) <==> opening >= PresentValue(costs, 1.0 + rate, |costs|)
  {
    var costs := Costs(g, realInflation);
    SavedIsAccrued(MonthlyRate(rate), 12 * g.yearsToEnrollment, extra, saved);
    FundedIffPresentValue(base + saved, costs, 1.0 + rate, |costs|);
    WalkBalances(base + saved, costs, 1.0 + rate, |costs|);
  }

  lemma SameProduct(x: real, y: real, k: real, product: real)
    requires k != 0.0 && y * k == product
    ensures x * k == product <==> x == y
  {
    if x * k == product {
      ProductSign(if x >= y then x - y else y - x, k);
    }
  }

  /** The balance is read from the projected month nearest to enrollment. */
  lemma BalanceAtNearestMonth(points: seq<Point>, account: string, years: nat)
    ensures |points| == 0 ==> BalanceAtYear(points, account, years).None?
    ensures forall m :: 1 <= m <= |points| && IsNearestMonth(points, years * 12, m) ==>
              && (account in points[m - 1] ==> BalanceAtYear(points, account, years) == Some(points[m - 1][account]))
              && (account !in points[m - 1] ==> BalanceAtYear(points, account, years).None?)
    ensures |points| > 0 ==> exists m :: 1 <= m <= |points| && IsNearestMonth(points, years * 12, m)
  {
    if |points| > 0 {
      var idx := if years * 12 < 1 then 1 else if years * 12 > |points| then |points| else years * 12;
      assert IsNearestMonth(points, years * 12, idx);
      forall m | 1 <= m <= |points| && IsNearestMonth(points, years * 12, m) ensures m == idx {
        assert Apart(m, years * 12) <= Apart(idx, years * 12);
      }
    }
  }

  function Apart(m: int, n: int): nat {
    if m <= n then n - m else m - n
  }

  /** No projected month, counted from 1, is nearer to the wanted one. */
  predicate IsNearestMonth(points: seq<Point>, wanted: nat, m: int) {
    forall k :: 1 <= k <= |points| ==> Apart(m, wanted) <= Apart(k, wanted)
  }

  // ------------------------------------------------------ the goal's report

  /** The figures reported for a goal whose account is in the projection. */
  datatype CollegeResult = CollegeResult(
    years: int, balanceAtEnrollment: real, totalCost: real, totalCovered: real, totalShortfall: real,
    firstShortfallYear: nat, monthlyNeeded: Option<real>, yearsDetail: seq<CollegeYear>)

  /** The result shows the walk's own years, and its balance and totals to the cent. */
  predicate IsReported(c: CollegeResult, g: CollegeGoal, base: real, o: DrawdownResult) {
    && c.years == g.years && c.yearsDetail == o.years && c.firstShortfallYear == o.firstShortfallYear
    && c.balanceAtEnrollment == Round2(base)
    && c.totalCost == Round2(o.totalCost) && c.totalCovered == Round2(o.totalCovered)
    && c.totalShortfall == Round2(o.totalShortfall)
  }

  datatype Summary =
    | FullyFunded(balance: real, years: int, total: real)
    | ShortIn(fundedThrough: nat, shortBy: real, year: nat, total: real, years: int)

  function SummaryLine(c: CollegeResult): Summary
    requires c.firstShortfallYear <= |c.yearsDetail|
  {
    if c.firstShortfallYear == 0 then FullyFunded(c.balanceAtEnrollment, c.years, c.totalCost)
    else ShortIn(c.firstShortfallYear - 1, c.yearsDetail[c.firstShortfallYear - 1].shortfall,
                 c.firstShortfallYear, c.totalShortfall, c.years)
  }

  /** The summary claims full funding only when every year is paid, and otherwise names the year that broke. */
  lemma SummaryIsTrue(c: CollegeResult, g: CollegeGoal, base: real, costs: seq<real>, growth: real)
    requires NonNegative(costs) && AllWholeCents(costs)
    requires IsReported(c, g, base, Report(base, costs, growth, |costs|))
    ensures c.firstShortfallYear <= |c.yearsDetail| == |costs|
    ensures forall i :: 0 <= i < |costs| ==> c.yearsDetail[i].cost == costs[i]
    ensures match SummaryLine(c)
            case FullyFunded(_, _, _) =>
              forall i :: 0 <= i < |c.yearsDetail| ==> PaidInFull(c.yearsDetail[i])
            case ShortIn(through, amount, year, _, _) =>
              && year == through + 1 <= |c.yearsDetail| && amount == c.yearsDetail[through].shortfall
              && (forall i :: 0 <= i < through ==> PaidInFull(c.yearsDetail[i]))
              && (forall i :: year <= i < |c.yearsDetail| ==> PaidNothing(c.yearsDetail[i]))
  {
    ReportShape(base, costs, growth, |costs|);
    ReportCosts(base, costs, growth, |costs|);
  }

  lemma {:induction false} ShortYearInRange(balance: real, costs: seq<real>, growth: real, n: nat)
    requires n <= |costs|
    ensures WalkYears(balance, costs, growth, n).short <= n
  {
    if n > 0 { ShortYearInRange(balance, costs, growth, n - 1); }
  }

  /**
   Reports one goal: the walk from the projected balance, rounded, and a
   monthly figure where something is short and the search can fix it. The year
   the summary names is always on the report; the rounded totals agree to the
   cent; and a monthly figure, when offered, funds every year.
   */
  method ProjectGoal(points: seq<Point>, account: string, g: CollegeGoal, collegePct: real,
                     inflationRate: real, rate: real)
    returns (res: Option<CollegeResult>)
    ensures res.Some? <==> BalanceAtYear(points, account, g.yearsToEnrollment).Some?
    ensures res.Some? ==>
              var base := BalanceAtYear(points, account, g.yearsToEnrollment).value;
              var rise := RealCollegeRate(collegePct, inflationRate);
              var costs, c := Costs(g, rise), res.value;
              IsReported(c, g, base, Report(base, costs, 1.0 + rate, |costs|))
              && PricedYearByYear(c.yearsDetail, g, rise)
              && c.firstShortfallYear <= |c.yearsDetail|
              && (c.monthlyNeeded.Some? <==>
                    && Report(base, costs, 1.0 + rate, |costs|).totalShortfall > 0.0 && g.yearsToEnrollment > 0
                    && !FundsEveryYear(base, g, rise, rate, 0.0) && FundsEveryYear(base, g, rise, rate, SOLVE_MAX))
    ensures res.Some? && g.annualCost >= 0.0 && collegePct >= -100.0 ==>
              var c := res.value;
              && (c.totalCovered + c.totalShortfall == c.totalCost
                  || c.totalCovered + c.totalShortfall == c.totalCost + 0.01)
              && (c.monthlyNeeded.Some? && rate >= -1.0 ==>
                    FundsEveryYear(BalanceAtYear(points, account, g.yearsToEnrollment).value, g,
                                   RealCollegeRate(collegePct, inflationRate), rate, c.monthlyNeeded.value))
  {
    var at := BalanceAtYear(points, account, g.yearsToEnrollment);
    if at.None? {
      return None;
    }
    var realInflation := RealCollegeRate(collegePct, inflationRate);
    var draw := Drawdown(at.value, g, realInflation, rate);
    ghost var costs := Costs(g, realInflation);
    ShortYearInRange(at.value, costs, 1.0 + rate, |costs|);
    var needed: Option<real> := None;
    if draw.totalShortfall > 0.0 {
      var amount, found := SolveCollegeMonthly(points, account, g, realInflation, rate);
      if found {
        needed := Some(amount);
      }
    }
    res := Some(CollegeResult(
      g.years, Round2(at.value), Round2(draw.totalCost), Round2(draw.totalCovered),
      Round2(draw.totalShortfall), draw.firstShortfallYear, needed, draw.years));
    if g.annualCost >= 0.0 && collegePct >= -100.0 {
      CostsNonNegative(g, collegePct, inflationRate);
      ReportBalances(at.value, costs, 1.0 + rate, |costs|);
      RoundedPartsReconcile(draw.totalCost, draw.totalCovered);
      Round2Fixed(draw.totalCost);
    }
  }
}
