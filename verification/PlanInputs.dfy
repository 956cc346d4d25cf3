/**
 Turning a proposed split into the inputs of a projection: the money is shared
 out, eligibility is applied, and the result is folded into a copy of the
 household's own plans.
 */
module PlanInputs {
  import opened Decimals
  import opened Wrappers

  type AccountId = nat

  datatype Kind = Investment | Debt | Cash

  datatype Split = Split(account: AccountId, lumpPct: real, monthlyPct: real, rate: Option<real>)

  datatype Request = Request(lump: real, monthly: real, horizonYears: int, splits: seq<Split>)

  datatype Bucket = Bucket(account: AccountId, kind: Kind, existingMonthly: real)

  datatype AccountPlan = AccountPlan(id: AccountId, firstYear: real, monthly: real, rate: Option<real>)

  const MIN_HORIZON := 1
  const MAX_HORIZON := 60
  const PCT_TOLERANCE := 0.01

  datatype Refusal =
    | BadHorizon | NegativeMoney | NegativePct | RepeatedAccount | NotABucket
    | LumpOverAllocated | MonthlyOverAllocated | NoPlan

  datatype Outcome<+T> = Accepted(value: T) | Refused(why: Refusal)

  // ------------------------------------------------------------- the arithmetic

  /** One line's part of an amount, to the cent. */
  function Share(amount: real, pct: real): real {
    Round2(Div16(amount * pct, 100.0))
  }

  /** What rounding can move one line by. */
  const SHARE_ERROR := HALF_CENT + QUOTIENT_ERROR

  function Sum(xs: seq<real>): real {
    if |xs| == 0 then 0.0 else Sum(xs[..|xs| - 1]) + xs[|xs| - 1]
  }

  function Placed(amount: real, pcts: seq<real>): real {
    if |pcts| == 0 then 0.0
    else Placed(amount, pcts[..|pcts| - 1]) + Share(amount, pcts[|pcts| - 1])
  }

  function Unallocated(amount: real, pcts: seq<real>): real {
    Round2(amount - Placed(amount, pcts))
  }

  lemma {:induction false} PlacedIsWholeCents(amount: real, pcts: seq<real>)
    ensures WholeCents(Placed(amount, pcts))
  {
    if |pcts| == 0 {
      Round2Zero();
    } else {
      var last := pcts[|pcts| - 1];
      PlacedIsWholeCents(amount, pcts[..|pcts| - 1]);
      Round2Near(Div16(amount * last, 100.0));
      WholeCentsSum(Placed(amount, pcts[..|pcts| - 1]), Share(amount, last));
    }
  }

  /** What is placed and what is not add up to the amount: exactly, when it is whole cents. */
  lemma MoneyConserved(amount: real, pcts: seq<real>)
    ensures WholeCents(amount) ==> Placed(amount, pcts) + Unallocated(amount, pcts) == amount
    ensures amount - HALF_CENT <= Placed(amount, pcts) + Unallocated(amount, pcts) <= amount + HALF_CENT
  {
    var placed := Placed(amount, pcts);
    Round2Near(amount - placed);
    if WholeCents(amount) {
      PlacedIsWholeCents(amount, pcts);
      WholeCentsSum(amount, placed);
      Round2Fixed(amount - placed);
    }
  }

  lemma ShareNear(amount: real, pct: real)
    ensures amount * pct / 100.0 - SHARE_ERROR <= Share(amount, pct) <= amount * pct / 100.0 + SHARE_ERROR
  {
    Div16Near(amount * pct, 100.0);
    Round2Near(Div16(amount * pct, 100.0));
  }

  lemma Distributes(x: real, a: real, b: real)
    ensures x * (a + b) == x * a + x * b
  {
  }

  /** What n roundings of a share can add up to. */
  function ShareErrors(n: nat): real {
    n as real * SHARE_ERROR
  }

  /** The percentages' exact part of an amount, line by line. */
  function Exact(amount: real, pcts: seq<real>): real {
    if |pcts| == 0 then 0.0
    else Exact(amount, pcts[..|pcts| - 1]) + amount * pcts[|pcts| - 1] / 100.0
  }

  lemma {:induction false} ExactIsOfTheSum(amount: real, pcts: seq<real>)
    ensures Exact(amount, pcts) == amount * Sum(pcts) / 100.0
  {
    if |pcts| > 0 {
      var init, last := pcts[..|pcts| - 1], pcts[|pcts| - 1];
      ExactIsOfTheSum(amount, init);
      Distributes(amount, Sum(init), last);
    }
  }

  lemma {:induction false} PlacedNearLines(amount: real, pcts: seq<real>)
    ensures Exact(amount, pcts) - ShareErrors(|pcts|) <= Placed(amount, pcts) <= Exact(amount, pcts) + ShareErrors(|pcts|)
  {
    if |pcts| > 0 {
      var init, last := pcts[..|pcts| - 1], pcts[|pcts| - 1];
      PlacedNearLines(amount, init);
      ShareNear(amount, last);
      OneMoreError(|init|);
    }
  }

  /** What is placed differs from the percentages' exact part by at most a rounding for each line. */
  lemma PlacedNearExact(amount: real, pcts: seq<real>)
    ensures var exact, error := amount * Sum(pcts) / 100.0, ShareErrors(|pcts|);
            exact - error <= Placed(amount, pcts) <= exact + error
  {
    PlacedNearLines(amount, pcts);
    ExactIsOfTheSum(amount, pcts);
  }

  lemma OneMoreError(n: nat)
    ensures ShareErrors(n + 1) == ShareErrors(n) + SHARE_ERROR
  {
  }

  lemma AcceptedExact(amount: real, pcts: seq<real>)
    requires amount >= 0.0 && !(Sum(pcts) - 100.0 > PCT_TOLERANCE)
    ensures Exact(amount, pcts) <= amount + amount * 0.0001
  {
    ExactIsOfTheSum(amount, pcts);
    ProductAtMost(amount, Sum(pcts), 100.01);
  }

  /** A split that is accepted can over-place an amount by no more than the tolerance and the roundings. */
  lemma OverPlacedAtMost(amount: real, pcts: seq<real>)
    requires amount >= 0.0 && !(Sum(pcts) - 100.0 > PCT_TOLERANCE)
    ensures Unallocated(amount, pcts) >= -(amount * 0.0001 + ShareErrors(|pcts|) + HALF_CENT)
    ensures WholeCents(amount) ==> Unallocated(amount, pcts) >= -(amount * 0.0001 + ShareErrors(|pcts|))
  {
    PlacedNearLines(amount, pcts);
    AcceptedExact(amount, pcts);
    MoneyConserved(amount, pcts);
  }

  lemma ProductAtMost(x: real, a: real, b: real)
    requires x >= 0.0 && a <= b
    ensures x * a <= x * b
  {
    assert x * (b - a) >= 0.0;
    assert x * (b - a) == x * b - x * a;
  }

  // ----------------------------------------------------------------- eligibility

  datatype Eligibility = Eligible | Unknown | Ineligible | PhasedOut(limit: real)

  /** What goes in, and what was refused. */
  datatype Applied = Applied(lump: real, monthly: real, spill: real)

  /** What a reduced limit leaves once the money already going in has had its share. */
  function Room(elig: Eligibility, existingMonthly: real): real
    requires elig.PhasedOut?
  {
    elig.limit - existingMonthly * 12.0
  }

  /** What the plan asks to put in over a year. */
  function Asked(lump: real, monthly: real): real {
    lump + monthly * 12.0
  }

  /** The plan's money scaled in the proportions asked for, and what the room then refuses. */
  function ScaledBy(scale: real, room: real, lump: real, monthly: real): Applied {
    Applied(Round2(lump * scale), Round2(monthly * scale), Round2(Asked(lump, monthly) - room))
  }

  function ApplyEligibility(elig: Eligibility, existingMonthly: real, lump: real, monthly: real): Applied {
    match elig
    case Ineligible => Applied(0.0, 0.0, Round2(Asked(lump, monthly)))
    case PhasedOut(limit) =>
      var planned := (existingMonthly + monthly) * 12.0 + lump;
      if !(planned > limit) then Applied(lump, monthly, 0.0)
      else
        var room := Room(elig, existingMonthly);
        if !(room > 0.0) then Applied(0.0, 0.0, Round2(Asked(lump, monthly)))
        else
          ScaledBy(Div16(room, Asked(lump, monthly)), room, lump, monthly)
    case _ => Applied(lump, monthly, 0.0)
  }

  /** The plan asks for more than a phased-out limit leaves room for. */
  predicate Scales(elig: Eligibility, existingMonthly: real, lump: real, monthly: real) {
    && elig.PhasedOut?
    && (existingMonthly + monthly) * 12.0 + lump > elig.limit
    && Room(elig, existingMonthly) > 0.0
  }

  lemma FractionIsProper(room: real, portion: real)
    requires portion > room > 0.0
    ensures 0.0 < room / portion < 1.0
    ensures 0.0 <= Div16(room, portion) <= 1.0
  {
    var q := room / portion;
    assert q * portion == room;
    assert 0.0 < q < 1.0 by {
      if q >= 1.0 { ProductAtMost(portion, 1.0, q); }
      if q <= 0.0 { ProductAtMost(portion, q, 0.0); }
    }
    Div16AtLeast(room, portion, 0);
    NearestMonotone(q * SIXTEEN_PLACES, SIXTEEN_PLACES);
    NearestOfInt(10000000000000000);
  }

  /** Dividing by what is asked and multiplying back loses at most a rounding of the quotient. */
  lemma ScaledBack(room: real, portion: real, quotient: real, scale: real, error: real)
    requires portion > 0.0 && portion * quotient == room
    requires quotient - error <= scale <= quotient + error
    ensures room - portion * error <= portion * scale <= room + portion * error
  {
    WithinOfProduct(portion, quotient, scale, error);
  }

  lemma WithinOfProduct(x: real, a: real, b: real, e: real)
    requires x > 0.0 && a - e <= b <= a + e
    ensures x * a - x * e <= x * b <= x * a + x * e
  {
    ProductAtMost(x, b, a + e);
    ProductAtMost(x, a, b + e);
    Distributes(x, a, e);
    Distributes(x, b, e);
  }

  lemma ScaledParts(lump: real, monthly: real, scale: real)
    ensures var total := Asked(lump, monthly) * scale;
            total - 0.065 <= Round2(lump * scale) + 12.0 * Round2(monthly * scale) <= total + 0.065
  {
    Round2Near(lump * scale);
    Round2Near(monthly * scale);
    Distributes(scale, lump, monthly * 12.0);
    assert scale * (monthly * 12.0) == 12.0 * (monthly * scale);
  }

  /** What a quotient's rounding can be worth over everything that was asked. */
  function Slack(lump: real, monthly: real): real {
    Asked(lump, monthly) * QUOTIENT_ERROR
  }

  lemma ScaledByNear(scale: real, quotient: real, error: real, room: real, lump: real, monthly: real)
    requires Asked(lump, monthly) > room > 0.0 && Asked(lump, monthly) * quotient == room
    requires quotient - error <= scale <= quotient + error
    ensures var a, slack := ScaledBy(scale, room, lump, monthly), Asked(lump, monthly) * error;
            && room - 0.065 - slack <= a.lump + 12.0 * a.monthly <= room + 0.065 + slack
            && Asked(lump, monthly) - room - HALF_CENT <= a.spill <= Asked(lump, monthly) - room + HALF_CENT
  {
    ScaledBack(room, Asked(lump, monthly), quotient, scale, error);
    ScaledParts(lump, monthly, scale);
    Round2Near(Asked(lump, monthly) - room);
  }

  /**
   When a phased-out contribution is scaled there is always something to
   divide by; a year's money comes to the limit, give or take thirteen
   half-cents, and what was asked is accounted for give or take fourteen.
   */
  lemma ScaledToTheLimit(elig: Eligibility, existingMonthly: real, lump: real, monthly: real)
    requires Scales(elig, existingMonthly, lump, monthly)
    ensures Asked(lump, monthly) > Room(elig, existingMonthly) > 0.0
    ensures var a, slack := ApplyEligibility(elig, existingMonthly, lump, monthly), Slack(lump, monthly);
            && elig.limit - 0.065 - slack <= existingMonthly * 12.0 + a.lump + 12.0 * a.monthly <= elig.limit + 0.065 + slack
            && Asked(lump, monthly) - 0.07 - slack <= a.lump + 12.0 * a.monthly + a.spill <= Asked(lump, monthly) + 0.07 + slack
  {
    var room, asked := Room(elig, existingMonthly), Asked(lump, monthly);
    Div16Near(room, asked);
    var quotient := room / asked;
    assert asked * quotient == room;
    ScaledByNear(Div16(room, asked), quotient, QUOTIENT_ERROR, room, lump, monthly);
  }

  /** Money is left alone exactly where nothing stands in its way: it is permitted, and what is planned is within any limit. */
  lemma PermittedMoneyIsKept(elig: Eligibility, existingMonthly: real, lump: real, monthly: real)
    requires !elig.Ineligible?
    requires elig.PhasedOut? ==> (existingMonthly + monthly) * 12.0 + lump <= elig.limit
    ensures ApplyEligibility(elig, existingMonthly, lump, monthly) == Applied(lump, monthly, 0.0)
  {
  }

  /** The two amounts are still in proportion, each being off by at most so much. */
  predicate StillInProportion(a: Applied, lump: real, monthly: real, error: real) {
    var slack := error * lump + error * monthly;
    a.monthly * lump - slack <= a.lump * monthly <= a.monthly * lump + slack
  }

  /** Scaling keeps the proportion asked for, within half a cent of each amount. */
  lemma ScaledInProportion(elig: Eligibility, existingMonthly: real, lump: real, monthly: real)
    requires Scales(elig, existingMonthly, lump, monthly) && lump >= 0.0 && monthly >= 0.0
    ensures StillInProportion(ApplyEligibility(elig, existingMonthly, lump, monthly), lump, monthly, HALF_CENT)
  {
    var room := Room(elig, existingMonthly);
    ScaledByInProportion(Div16(room, Asked(lump, monthly)), room, lump, monthly);
  }

  lemma ScaledByInProportion(scale: real, room: real, lump: real, monthly: real)
    requires lump >= 0.0 && monthly >= 0.0
    ensures StillInProportion(ScaledBy(scale, room, lump, monthly), lump, monthly, HALF_CENT)
  {
    Round2Near(lump * scale);
    Round2Near(monthly * scale);
    InProportion(lump, monthly, scale, Round2(lump * scale), Round2(monthly * scale), HALF_CENT);
  }

  lemma InProportion(x: real, y: real, scale: real, x': real, y': real, error: real)
    requires x >= 0.0 && y >= 0.0
    requires x * scale - error <= x' <= x * scale + error && y * scale - error <= y' <= y * scale + error
    ensures y' * x - (error * x + error * y) <= x' * y <= y' * x + (error * x + error * y)
  {
    TimesWithin(y, x * scale, x', error);
    TimesWithin(x, y * scale, y', error);
    assert y * (x * scale) == x * (y * scale);
  }

  lemma TimesWithin(k: real, x: real, x': real, error: real)
    requires k >= 0.0 && x - error <= x' <= x + error
    ensures k * x - error * k <= x' * k <= k * x + error * k
  {
    ProductAtMost(k, x - error, x');
    ProductAtMost(k, x', x + error);
    Distributes(k, x, error);
    Distributes(k, x - error, error);
  }

  /** With no room, or no permission, nothing goes in and everything asked is spilled. */
  lemma RefusedSpillsEverything(elig: Eligibility, existingMonthly: real, lump: real, monthly: real)
    requires elig.Ineligible? || (elig.PhasedOut? && Room(elig, existingMonthly) <= 0.0
                                  && (existingMonthly + monthly) * 12.0 + lump > elig.limit)
    ensures var a := ApplyEligibility(elig, existingMonthly, lump, monthly);
            && a.lump == 0.0 && a.monthly == 0.0
            && Asked(lump, monthly) - HALF_CENT <= a.spill <= Asked(lump, monthly) + HALF_CENT
            && (WholeCents(lump) && WholeCents(monthly) ==> a.spill == Asked(lump, monthly))
  {
    Round2Near(Asked(lump, monthly));
    if WholeCents(lump) && WholeCents(monthly) {
      AskedInCents(lump, monthly);
      Round2Fixed(Asked(lump, monthly));
    }
  }

  lemma AskedInCents(lump: real, monthly: real)
    requires WholeCents(lump) && WholeCents(monthly)
    ensures WholeCents(Asked(lump, monthly))
  {
    var i: int :| lump == Cents(i);
    var j: int :| monthly == Cents(j);
    assert Asked(lump, monthly) == Cents(i + 12 * j);
  }

  lemma ScaledByLess(scale: real, room: real, lump: real, monthly: real)
    requires lump >= 0.0 && monthly >= 0.0
    requires Asked(lump, monthly) > room && 0.0 <= scale <= 1.0
    ensures var a := ScaledBy(scale, room, lump, monthly);
            0.0 <= a.lump <= Round2(lump) && 0.0 <= a.monthly <= Round2(monthly) && a.spill >= 0.0
  {
    ScaledAmount(lump, scale);
    ScaledAmount(monthly, scale);
    Round2Sign(Asked(lump, monthly) - room);
  }

  /** Whole-cent money is never increased by eligibility, and never made negative. */
  lemma NeverMoreThanAsked(elig: Eligibility, existingMonthly: real, lump: real, monthly: real)
    requires lump >= 0.0 && monthly >= 0.0 && WholeCents(lump) && WholeCents(monthly)
    ensures var a := ApplyEligibility(elig, existingMonthly, lump, monthly);
            0.0 <= a.lump <= lump && 0.0 <= a.monthly <= monthly && a.spill >= 0.0
  {
    if Scales(elig, existingMonthly, lump, monthly) {
      var room, asked := Room(elig, existingMonthly), Asked(lump, monthly);
      FractionIsProper(room, asked);
      ScaledByLess(Div16(room, asked), room, lump, monthly);
      Round2Fixed(lump);
      Round2Fixed(monthly);
    } else {
      Round2Sign(Asked(lump, monthly));
    }
  }

  lemma ScaledDown(x: real, scale: real)
    requires x >= 0.0 && 0.0 <= scale <= 1.0
    ensures 0.0 <= x * scale <= x
  {
    ProductAtMost(x, 0.0, scale);
    ProductAtMost(x, scale, 1.0);
    assert x * 0.0 == 0.0 && x * 1.0 == x;
  }

  lemma ScaledAmount(x: real, scale: real)
    requires x >= 0.0 && 0.0 <= scale <= 1.0
    ensures 0.0 <= Round2(x * scale) <= Round2(x)
  {
    ScaledDown(x, scale);
    Round2Sign(x * scale);
    Round2Monotone(x * scale, x);
  }

  // ------------------------------------------------------------ sharing out

  datatype Alloc = Alloc(split: Split, bucket: Bucket, lump: real, monthly: real)

  function BucketById(buckets: seq<Bucket>, id: AccountId): (r: Option<Bucket>)
    ensures r.Some? ==> r.value in buckets && r.value.account == id
    ensures r.None? <==> forall b :: b in buckets ==> b.account != id
  {
    if |buckets| == 0 then None
    else if buckets[0].account == id then Some(buckets[0])
    else BucketById(buckets[1..], id)
  }

  /** One line of the split, given the accounts named before it. */
  function ReadLine(buckets: seq<Bucket>, req: Request, s: Split, seen: set<AccountId>): Outcome<Alloc> {
    if s.lumpPct < 0.0 || s.monthlyPct < 0.0 then Refused(NegativePct)
    else if s.account in seen then Refused(RepeatedAccount)
    else
      match BucketById(buckets, s.account)
      case None => Refused(NotABucket)
      case Some(bucket) => Accepted(Alloc(s, bucket, Share(req.lump, s.lumpPct), Share(req.monthly, s.monthlyPct)))
  }

  /** The accounts a split names. */
  function Accounts(splits: seq<Split>): set<AccountId> {
    set s | s in splits :: s.account
  }

  /** The lines of the split in order, or the first reason one is refused. */
  function Allocs(buckets: seq<Bucket>, req: Request, n: nat): Outcome<seq<Alloc>>
    requires n <= |req.splits|
  {
    if n == 0 then Accepted([])
    else
      match Allocs(buckets, req, n - 1)
      case Refused(why) => Refused(why)
      case Accepted(before) =>
        match ReadLine(buckets, req, req.splits[n - 1], Accounts(req.splits[..n - 1]))
        case Refused(why) => Refused(why)
        case Accepted(a) => Accepted(before + [a])
  }

  function LumpPcts(splits: seq<Split>): (pcts: seq<real>)
    ensures |pcts| == |splits|
  {
    if |splits| == 0 then [] else LumpPcts(splits[..|splits| - 1]) + [splits[|splits| - 1].lumpPct]
  }

  function MonthlyPcts(splits: seq<Split>): (pcts: seq<real>)
    ensures |pcts| == |splits|
  {
    if |splits| == 0 then [] else MonthlyPcts(splits[..|splits| - 1]) + [splits[|splits| - 1].monthlyPct]
  }

  /** The lines and what they leave unplaced. */
  datatype Shared = Shared(allocs: seq<Alloc>, unallocatedLump: real, unallocatedMonthly: real)

  function SharedOut(buckets: seq<Bucket>, req: Request): Outcome<Shared> {
    if req.horizonYears < MIN_HORIZON || req.horizonYears > MAX_HORIZON then Refused(BadHorizon)
    else if req.lump < 0.0 || req.monthly < 0.0 then Refused(NegativeMoney)
    else
      match Allocs(buckets, req, |req.splits|)
      case Refused(why) => Refused(why)
      case Accepted(allocs) =>
        if Sum(LumpPcts(req.splits)) - 100.0 > PCT_TOLERANCE then Refused(LumpOverAllocated)
        else if Sum(MonthlyPcts(req.splits)) - 100.0 > PCT_TOLERANCE then Refused(MonthlyOverAllocated)
        else Accepted(Shared(allocs, Unallocated(req.lump, LumpPcts(req.splits)),
                             Unallocated(req.monthly, MonthlyPcts(req.splits))))
  }

  lemma OneMoreSplit(splits: seq<Split>, n: nat)
    requires n < |splits|
    ensures splits[..n + 1][..n] == splits[..n]
    ensures LumpPcts(splits[..n + 1]) == LumpPcts(splits[..n]) + [splits[n].lumpPct]
    ensures MonthlyPcts(splits[..n + 1]) == MonthlyPcts(splits[..n]) + [splits[n].monthlyPct]
  {
    assert splits[..n + 1][..n] == splits[..n];
  }

  lemma OneMorePct(amount: real, pcts: seq<real>, pct: real)
    ensures Sum(pcts + [pct]) == Sum(pcts) + pct
    ensures Placed(amount, pcts + [pct]) == Placed(amount, pcts) + Share(amount, pct)
  {
    assert (pcts + [pct])[..|pcts|] == pcts;
  }

  /** Reads the split line by line, refusing the first bad one. */
  method ReadLines(buckets: seq<Bucket>, req: Request)
    returns (out: Outcome<seq<Alloc>>, lumpPctTotal: real, monthlyPctTotal: real)
    ensures out == Allocs(buckets, req, |req.splits|)
    ensures out.Accepted? ==> lumpPctTotal == Sum(LumpPcts(req.splits)) && monthlyPctTotal == Sum(MonthlyPcts(req.splits))
  {
    lumpPctTotal, monthlyPctTotal := 0.0, 0.0;
    var allocs: seq<Alloc> := [];
    var seen: set<AccountId> := {};
    for i := 0 to |req.splits|
      invariant Allocs(buckets, req, i) == Accepted(allocs)
      invariant seen == Accounts(req.splits[..i])
      invariant lumpPctTotal == Sum(LumpPcts(req.splits[..i]))
      invariant monthlyPctTotal == Sum(MonthlyPcts(req.splits[..i]))
    {
      var s := req.splits[i];
      var next := ReadLine(buckets, req, s, seen);
      if next.Refused? {
        RefusalStands(buckets, req, i + 1, |req.splits|);
        return Refused(next.why), lumpPctTotal, monthlyPctTotal;
      }
      SeenGrows(req.splits, i);
      seen := seen + {s.account};
      OneMoreSplit(req.splits, i);
      OneMorePct(req.lump, LumpPcts(req.splits[..i]), s.lumpPct);
      OneMorePct(req.monthly, MonthlyPcts(req.splits[..i]), s.monthlyPct);
      lumpPctTotal, monthlyPctTotal := lumpPctTotal + s.lumpPct, monthlyPctTotal + s.monthlyPct;
      allocs := allocs + [next.value];
    }
    assert req.splits[..|req.splits|] == req.splits;
    out := Accepted(allocs);
  }

  function Lumps(allocs: seq<Alloc>): real {
    if |allocs| == 0 then 0.0 else Lumps(allocs[..|allocs| - 1]) + allocs[|allocs| - 1].lump
  }

  function Monthlies(allocs: seq<Alloc>): real {
    if |allocs| == 0 then 0.0 else Monthlies(allocs[..|allocs| - 1]) + allocs[|allocs| - 1].monthly
  }

  method TotalPlaced(allocs: seq<Alloc>) returns (lump: real, monthly: real)
    ensures lump == Lumps(allocs) && monthly == Monthlies(allocs)
  {
    lump, monthly := 0.0, 0.0;
    for i := 0 to |allocs|
      invariant lump == Lumps(allocs[..i]) && monthly == Monthlies(allocs[..i])
    {
      assert allocs[..i + 1][..i] == allocs[..i];
      lump, monthly := lump + allocs[i].lump, monthly + allocs[i].monthly;
    }
    assert allocs[..|allocs|] == allocs;
  }

  lemma LastLine(buckets: seq<Bucket>, req: Request, n: nat)
    requires n < |req.splits| && Allocs(buckets, req, n + 1).Accepted?
    ensures Allocs(buckets, req, n).Accepted?
    ensures var allocs, s := Allocs(buckets, req, n + 1).value, req.splits[n];
            && |allocs| > 0 && allocs[..|allocs| - 1] == Allocs(buckets, req, n).value
            && allocs[|allocs| - 1].lump == Share(req.lump, s.lumpPct)
            && allocs[|allocs| - 1].monthly == Share(req.monthly, s.monthlyPct)
  {
  }

  /** The lines' money is what the percentages place. */
  lemma {:induction false} LinesPlaceLump(buckets: seq<Bucket>, req: Request, n: nat)
    requires n <= |req.splits| && Allocs(buckets, req, n).Accepted?
    ensures Lumps(Allocs(buckets, req, n).value) == Placed(req.lump, LumpPcts(req.splits[..n]))
  {
    if n > 0 {
      LastLine(buckets, req, n - 1);
      LinesPlaceLump(buckets, req, n - 1);
      OneMoreSplit(req.splits, n - 1);
      OneMorePct(req.lump, LumpPcts(req.splits[..n - 1]), req.splits[n - 1].lumpPct);
    }
  }

  lemma {:induction false} LinesPlaceMonthly(buckets: seq<Bucket>, req: Request, n: nat)
    requires n <= |req.splits| && Allocs(buckets, req, n).Accepted?
    ensures Monthlies(Allocs(buckets, req, n).value) == Placed(req.monthly, MonthlyPcts(req.splits[..n]))
  {
    if n > 0 {
      LastLine(buckets, req, n - 1);
      LinesPlaceMonthly(buckets, req, n - 1);
      OneMoreSplit(req.splits, n - 1);
      OneMorePct(req.monthly, MonthlyPcts(req.splits[..n - 1]), req.splits[n - 1].monthlyPct);
    }
  }

  method ShareOut(buckets: seq<Bucket>, req: Request) returns (out: Outcome<Shared>)
    ensures out == SharedOut(buckets, req)
  {
    if req.horizonYears < MIN_HORIZON || req.horizonYears > MAX_HORIZON {
      return Refused(BadHorizon);
    }
    if req.lump < 0.0 || req.monthly < 0.0 {
      return Refused(NegativeMoney);
    }
    var lines, lumpPctTotal, monthlyPctTotal := ReadLines(buckets, req);
    if lines.Refused? {
      return Refused(lines.why);
    }
    if lumpPctTotal - 100.0 > PCT_TOLERANCE {
      return Refused(LumpOverAllocated);
    }
    if monthlyPctTotal - 100.0 > PCT_TOLERANCE {
      return Refused(MonthlyOverAllocated);
    }
    var placedLump, placedMonthly := TotalPlaced(lines.value);
    LinesPlaceLump(buckets, req, |req.splits|);
    LinesPlaceMonthly(buckets, req, |req.splits|);
    assert req.splits[..|req.splits|] == req.splits;
    out := Accepted(Shared(lines.value, Round2(req.lump - placedLump), Round2(req.monthly - placedMonthly)));
  }

  lemma SeenGrows(splits: seq<Split>, i: nat)
    requires i < |splits|
    ensures Accounts(splits[..i + 1]) == Accounts(splits[..i]) + {splits[i].account}
  {
    assert splits[..i + 1] == splits[..i] + [splits[i]];
  }

  lemma {:induction false} RefusalStands(buckets: seq<Bucket>, req: Request, n: nat, m: nat)
    requires n <= m <= |req.splits| && Allocs(buckets, req, n).Refused?
    ensures Allocs(buckets, req, m) == Allocs(buckets, req, n)
  {
    if n < m { RefusalStands(buckets, req, n, m - 1); }
  }

  /** Accepted lines name different accounts, each a bucket, with shares of the request's money. */
  lemma {:induction false} AllocsMeaning(buckets: seq<Bucket>, req: Request, n: nat)
    requires n <= |req.splits| && Allocs(buckets, req, n).Accepted?
    ensures var allocs := Allocs(buckets, req, n).value;
            && |allocs| == n
            && (forall i :: 0 <= i < n ==>
                  && allocs[i].split == req.splits[i] && allocs[i].bucket in buckets
                  && allocs[i].bucket.account == req.splits[i].account
                  && allocs[i].lump == Share(req.lump, req.splits[i].lumpPct)
                  && allocs[i].monthly == Share(req.monthly, req.splits[i].monthlyPct))
            && (forall i, j :: 0 <= i < j < n ==> req.splits[i].account != req.splits[j].account)
  {
    if n > 0 {
      AllocsMeaning(buckets, req, n - 1);
      forall i | 0 <= i < n - 1
        ensures req.splits[i].account != req.splits[n - 1].account
      {
        assert req.splits[i] in req.splits[..n - 1];
      }
    }
  }

  /** A line that can be placed: nothing negative, and an account that is a bucket. */
  predicate GoodLine(buckets: seq<Bucket>, s: Split) {
    && s.lumpPct >= 0.0 && s.monthlyPct >= 0.0
    && exists b :: b in buckets && b.account == s.account
  }

  ghost predicate GoodLines(buckets: seq<Bucket>, splits: seq<Split>) {
    && (forall i :: 0 <= i < |splits| ==> GoodLine(buckets, splits[i]))
    && (forall i, j :: 0 <= i < j < |splits| ==> splits[i].account != splits[j].account)
  }

  lemma {:induction false} LinesAcceptedExactlyWhen(buckets: seq<Bucket>, req: Request, n: nat)
    requires n <= |req.splits|
    ensures Allocs(buckets, req, n).Accepted? <==> GoodLines(buckets, req.splits[..n])
  {
    if n > 0 {
      LinesAcceptedExactlyWhen(buckets, req, n - 1);
      var before, lines, s := req.splits[..n - 1], req.splits[..n], req.splits[n - 1];
      assert lines == before + [s];
      assert GoodLine(buckets, s) <==> s.lumpPct >= 0.0 && s.monthlyPct >= 0.0 && BucketById(buckets, s.account).Some?;
      assert GoodLines(buckets, lines) <==> GoodLines(buckets, before) && GoodLine(buckets, s) && s.account !in Accounts(before) by {
        NamedBefore(before, s.account);
      }
    }
  }

  lemma NamedBefore(splits: seq<Split>, id: AccountId)
    ensures id in Accounts(splits) <==> exists i :: 0 <= i < |splits| && splits[i].account == id
  {
    if id in Accounts(splits) {
      var s :| s in splits && s.account == id;
      var i :| 0 <= i < |splits| && splits[i] == s;
      assert splits[i].account == id;
    }
  }

  /** Exactly which requests are accepted. */
  lemma AcceptedExactlyWhen(buckets: seq<Bucket>, req: Request)
    ensures SharedOut(buckets, req).Accepted? <==>
              && MIN_HORIZON <= req.horizonYears <= MAX_HORIZON
              && req.lump >= 0.0 && req.monthly >= 0.0
              && GoodLines(buckets, req.splits)
              && Sum(LumpPcts(req.splits)) <= 100.01 && Sum(MonthlyPcts(req.splits)) <= 100.01
  {
    LinesAcceptedExactlyWhen(buckets, req, |req.splits|);
    assert req.splits[..|req.splits|] == req.splits;
  }

  /** Why a line cannot follow the good lines before it. */
  predicate IsFault(buckets: seq<Bucket>, splits: seq<Split>, k: nat, why: Refusal)
    requires k < |splits|
  {
    match why
    case NegativePct => splits[k].lumpPct < 0.0 || splits[k].monthlyPct < 0.0
    case RepeatedAccount => NoNegativePct(splits[k]) && exists i :: 0 <= i < k && splits[i].account == splits[k].account
    case NotABucket =>
      && NoNegativePct(splits[k])
      && (forall i :: 0 <= i < k ==> splits[i].account != splits[k].account)
      && (forall b :: b in buckets ==> b.account != splits[k].account)
    case _ => false
  }

  predicate NoNegativePct(s: Split) {
    s.lumpPct >= 0.0 && s.monthlyPct >= 0.0
  }

  lemma RefusedLineFault(buckets: seq<Bucket>, req: Request, k: nat)
    requires k < |req.splits|
    requires ReadLine(buckets, req, req.splits[k], Accounts(req.splits[..k])).Refused?
    ensures IsFault(buckets, req.splits, k, ReadLine(buckets, req, req.splits[k], Accounts(req.splits[..k])).why)
  {
    var id := req.splits[k].account;
    NamedBefore(req.splits[..k], id);
    assert forall i :: 0 <= i < k ==> req.splits[..k][i] == req.splits[i];
  }

  /** Some line is the first bad one, and this is the first of its faults. */
  ghost predicate FaultFound(buckets: seq<Bucket>, splits: seq<Split>, n: nat, why: Refusal)
    requires n <= |splits|
  {
    exists k :: 0 <= k < n && GoodLines(buckets, splits[..k]) && IsFault(buckets, splits, k, why)
  }

  lemma LastLineFault(buckets: seq<Bucket>, req: Request, k: nat)
    requires k < |req.splits| && Allocs(buckets, req, k).Accepted? && Allocs(buckets, req, k + 1).Refused?
    ensures FaultFound(buckets, req.splits, k + 1, Allocs(buckets, req, k + 1).why)
  {
    LinesAcceptedExactlyWhen(buckets, req, k);
    RefusedLineFault(buckets, req, k);
  }

  lemma {:induction false} FirstBadLine(buckets: seq<Bucket>, req: Request, n: nat)
    requires n <= |req.splits| && Allocs(buckets, req, n).Refused?
    ensures FaultFound(buckets, req.splits, n, Allocs(buckets, req, n).why)
  {
    if Allocs(buckets, req, n - 1).Refused? {
      FirstBadLine(buckets, req, n - 1);
    } else {
      LastLineFault(buckets, req, n - 1);
    }
  }

  /** Every refusal is true of the request, and the checks are made in order. */
  lemma RefusedWithReason(buckets: seq<Bucket>, req: Request)
    requires SharedOut(buckets, req).Refused?
    ensures var horizonFits := MIN_HORIZON <= req.horizonYears <= MAX_HORIZON;
            var lumpFits := Sum(LumpPcts(req.splits)) <= 100.01;
            match SharedOut(buckets, req).why
            case BadHorizon => !horizonFits
            case NegativeMoney => horizonFits && (req.lump < 0.0 || req.monthly < 0.0)
            case LumpOverAllocated => GoodLines(buckets, req.splits) && !lumpFits
            case MonthlyOverAllocated => GoodLines(buckets, req.splits) && lumpFits && Sum(MonthlyPcts(req.splits)) > 100.01
            case why => FaultFound(buckets, req.splits, |req.splits|, why)
  {
    if Allocs(buckets, req, |req.splits|).Refused? {
      FirstBadLine(buckets, req, |req.splits|);
    } else {
      LinesAcceptedExactlyWhen(buckets, req, |req.splits|);
      assert req.splits[..|req.splits|] == req.splits;
    }
  }

  /**
   An accepted request, in whole cents, is conserved: the lines' money and what
   is left over come to exactly what was asked, and the lines can exceed it
   only by the tolerance on the percentages and a rounding a line.
   */
  lemma AcceptedMoneyConserved(buckets: seq<Bucket>, req: Request)
    requires SharedOut(buckets, req).Accepted?
    ensures var out, error := SharedOut(buckets, req).value, ShareErrors(|req.splits|);
            && (WholeCents(req.lump) ==>
                  Lumps(out.allocs) + out.unallocatedLump == req.lump
                  && out.unallocatedLump >= -(req.lump * 0.0001 + error))
            && (WholeCents(req.monthly) ==>
                  Monthlies(out.allocs) + out.unallocatedMonthly == req.monthly
                  && out.unallocatedMonthly >= -(req.monthly * 0.0001 + error))
  {
    assert req.splits[..|req.splits|] == req.splits;
    LinesPlaceLump(buckets, req, |req.splits|);
    LinesPlaceMonthly(buckets, req, |req.splits|);
    MoneyConserved(req.lump, LumpPcts(req.splits));
    MoneyConserved(req.monthly, MonthlyPcts(req.splits));
    OverPlacedAtMost(req.lump, LumpPcts(req.splits));
    OverPlacedAtMost(req.monthly, MonthlyPcts(req.splits));
  }

  // ---------------------------------------------- folding into the projection

  /** What the rest of the application knows about a bucket. */
  datatype Rules = Rules(capped: Bucket -> bool, eligibility: Bucket -> Eligibility, householdRate: real)

  datatype BucketResult = BucketResult(
    account: AccountId, kind: Kind, allocatedLump: real, allocatedMonthly: real, applied: Applied,
    returnRate: real, rateIsHousehold: bool)

  function AppliedFor(a: Alloc, rules: Rules): Applied {
    if a.bucket.kind.Investment? && rules.capped(a.bucket) then
      ApplyEligibility(rules.eligibility(a.bucket), a.bucket.existingMonthly, a.lump, a.monthly)
    else Applied(a.lump, a.monthly, 0.0)
  }

  /** A plan with one line of the split added: its money on top, its own rate only if the line names one. */
  function Changed(p: AccountPlan, a: Alloc, rules: Rules): AccountPlan {
    var applied := AppliedFor(a, rules);
    p.(firstYear := p.firstYear + applied.lump, monthly := p.monthly + applied.monthly,
       rate := if a.split.rate.Some? then a.split.rate else p.rate)
  }

  function ResultFor(a: Alloc, p: Option<AccountPlan>, rules: Rules): BucketResult {
    var rate := if p.None? then None else if a.split.rate.Some? then a.split.rate else p.value.rate;
    BucketResult(
      a.bucket.account, a.bucket.kind, a.lump, a.monthly, AppliedFor(a, rules),
      if rate.Some? then rate.value else if p.Some? then rules.householdRate else 0.0,
      p.Some? && rate.None?)
  }

  /** Where each id's plan is; a later plan with the same id takes its place. */
  function PlanIndex(plans: seq<AccountPlan>): (index: map<AccountId, nat>)
    ensures forall id :: id in index ==> index[id] < |plans| && plans[index[id]].id == id
    ensures forall i :: 0 <= i < |plans| ==> plans[i].id in index
  {
    if |plans| == 0 then map[]
    else
      var before, last := PlanIndex(plans[..|plans| - 1]), plans[|plans| - 1];
      assert forall i :: 0 <= i < |plans| - 1 ==> plans[..|plans| - 1][i] == plans[i];
      before[last.id := |plans| - 1]
  }

  datatype Folded = Folded(plans: seq<AccountPlan>, results: seq<BucketResult>)

  /** The plans and results after the first n lines. */
  function FoldLines(plans: seq<AccountPlan>, allocs: seq<Alloc>, rules: Rules, n: nat): (r: Outcome<Folded>)
    requires n <= |allocs|
    ensures r.Accepted? ==> |r.value.plans| == |plans| && |r.value.results| == n
  {
    if n == 0 then Accepted(Folded(plans, []))
    else
      match FoldLines(plans, allocs, rules, n - 1)
      case Refused(why) => Refused(why)
      case Accepted(f) =>
        var a := allocs[n - 1];
        if !a.bucket.kind.Investment? then Accepted(Folded(f.plans, f.results + [ResultFor(a, None, rules)]))
        else if a.bucket.account !in PlanIndex(plans) then Refused(NoPlan)
        else
          var i := PlanIndex(plans)[a.bucket.account];
          Accepted(Folded(f.plans[i := Changed(f.plans[i], a, rules)],
                          f.results + [ResultFor(a, Some(f.plans[i]), rules)]))
  }

  method IndexPlans(plans: array<AccountPlan>) returns (index: map<AccountId, nat>)
    ensures index == PlanIndex(plans[..])
  {
    index := map[];
    for i := 0 to plans.Length
      invariant index == PlanIndex(plans[..i])
    {
      assert plans[..i + 1][..i] == plans[..i];
      index := index[plans[i].id := i];
    }
    assert plans[..plans.Length] == plans[..];
  }

  /**
   Folds the lines into a copy of the household's plans. The household's own
   array is only read; what comes back is a new one.
   */
  method FoldIntoCopy(household: array<AccountPlan>, allocs: seq<Alloc>, rules: Rules)
    returns (ok: bool, plans: array<AccountPlan>, results: seq<BucketResult>)
    ensures fresh(plans) && household[..] == old(household[..])
    ensures var spec := FoldLines(household[..], allocs, rules, |allocs|);
            if ok then spec == Accepted(Folded(plans[..], results)) else spec == Refused(NoPlan)
  {
    plans := new AccountPlan[household.Length](i requires 0 <= i < household.Length reads household => household[i]);
    assert plans[..] == household[..];
    var index := IndexPlans(plans);
    results := [];
    for n := 0 to |allocs|
      invariant FoldLines(household[..], allocs, rules, n) == Accepted(Folded(plans[..], results))
    {
      var a := allocs[n];
      if a.bucket.kind.Investment? {
        if a.bucket.account !in index {
          FoldRefusalStands(household[..], allocs, rules, n + 1, |allocs|);
          return false, plans, results;
        }
        var i := index[a.bucket.account];
        results := results + [ResultFor(a, Some(plans[i]), rules)];
        plans[i] := Changed(plans[i], a, rules);
      } else {
        results := results + [ResultFor(a, None, rules)];
      }
    }
    ok := true;
  }

  lemma {:induction false} FoldRefusalStands(plans: seq<AccountPlan>, allocs: seq<Alloc>, rules: Rules, n: nat, m: nat)
    requires n <= m <= |allocs| && FoldLines(plans, allocs, rules, n).Refused?
    ensures FoldLines(plans, allocs, rules, m) == FoldLines(plans, allocs, rules, n)
  {
    if n < m { FoldRefusalStands(plans, allocs, rules, n, m - 1); }
  }

  ghost predicate DistinctIds(plans: seq<AccountPlan>) {
    forall i, j :: 0 <= i < j < |plans| ==> plans[i].id != plans[j].id
  }

  ghost predicate DistinctAccounts(allocs: seq<Alloc>) {
    forall i, j :: 0 <= i < j < |allocs| ==> allocs[i].bucket.account != allocs[j].bucket.account
  }

  /** Line k of the split puts money into the plan with this id. */
  predicate Funds(allocs: seq<Alloc>, k: nat, id: AccountId) {
    k < |allocs| && allocs[k].bucket.kind.Investment? && allocs[k].bucket.account == id
  }

  lemma {:induction false} PlanIndexAt(plans: seq<AccountPlan>, i: nat)
    requires i < |plans| && DistinctIds(plans)
    ensures PlanIndex(plans)[plans[i].id] == i
  {
    var j := PlanIndex(plans)[plans[i].id];
    assert plans[j].id == plans[i].id;
  }

  /** One line touches one plan, if it is an investment account's line, and reports on that plan as it found it. */
  lemma LineStep(plans: seq<AccountPlan>, allocs: seq<Alloc>, rules: Rules, n: nat, i: nat)
    requires n < |allocs| && i < |plans| && DistinctIds(plans)
    requires FoldLines(plans, allocs, rules, n + 1).Accepted?
    ensures FoldLines(plans, allocs, rules, n).Accepted?
    ensures var before, after := FoldLines(plans, allocs, rules, n).value, FoldLines(plans, allocs, rules, n + 1).value;
            && after.plans[i] == (if Funds(allocs, n, plans[i].id) then Changed(before.plans[i], allocs[n], rules)
                                  else before.plans[i])
            && after.results[..n] == before.results
            && (Funds(allocs, n, plans[i].id) ==>
                  after.results[n] == ResultFor(allocs[n], Some(before.plans[i]), rules))
  {
    PlanIndexAt(plans, i);
  }

  lemma {:induction false} UnfundedUnchanged(plans: seq<AccountPlan>, allocs: seq<Alloc>, rules: Rules, n: nat, i: nat)
    requires n <= |allocs| && i < |plans| && DistinctIds(plans)
    requires FoldLines(plans, allocs, rules, n).Accepted?
    requires forall k :: 0 <= k < n ==> !Funds(allocs, k, plans[i].id)
    ensures FoldLines(plans, allocs, rules, n).value.plans[i] == plans[i]
  {
    if n > 0 {
      LineStep(plans, allocs, rules, n - 1, i);
      UnfundedUnchanged(plans, allocs, rules, n - 1, i);
    }
  }

  lemma {:induction false} FundedByItsLine(plans: seq<AccountPlan>, allocs: seq<Alloc>, rules: Rules, n: nat, i: nat, k: nat)
    requires k < n <= |allocs| && i < |plans| && DistinctIds(plans) && DistinctAccounts(allocs)
    requires FoldLines(plans, allocs, rules, n).Accepted? && Funds(allocs, k, plans[i].id)
    ensures FoldLines(plans, allocs, rules, n).value.plans[i] == Changed(plans[i], allocs[k], rules)
    ensures FoldLines(plans, allocs, rules, n).value.results[k] == ResultFor(allocs[k], Some(plans[i]), rules)
  {
    LineStep(plans, allocs, rules, n - 1, i);
    if k == n - 1 {
      UnfundedUnchanged(plans, allocs, rules, n - 1, i);
    } else {
      var before, after := FoldLines(plans, allocs, rules, n - 1).value, FoldLines(plans, allocs, rules, n).value;
      assert after.results[k] == after.results[..n - 1][k];
      FundedByItsLine(plans, allocs, rules, n - 1, i, k);
    }
  }

  /** A line's own report: its account and money, and what eligibility let through. */
  predicate LineReported(r: BucketResult, a: Alloc, rules: Rules) {
    && r.account == a.bucket.account && r.kind == a.bucket.kind
    && r.allocatedLump == a.lump && r.allocatedMonthly == a.monthly
    && (if a.bucket.kind.Investment? && rules.capped(a.bucket)
        then r.applied == ApplyEligibility(rules.eligibility(a.bucket), a.bucket.existingMonthly, a.lump, a.monthly)
        else r.applied.lump == a.lump && r.applied.monthly == a.monthly && r.applied.spill == 0.0)
    && (!a.bucket.kind.Investment? ==> r.returnRate == 0.0 && !r.rateIsHousehold)
  }

  /**
   What a line does to the plan of its account: the applied lump in the first
   year, the applied monthly amount every month, and its rate if it names one.
   The rate reported is the first there is of the line's, the plan's and the
   household's.
   */
  predicate PlanFunded(before: AccountPlan, after: AccountPlan, r: BucketResult, own: Option<real>, householdRate: real) {
    && after.id == before.id
    && after.firstYear - before.firstYear == r.applied.lump
    && after.monthly - before.monthly == r.applied.monthly
    && after.rate == (if own.Some? then own else before.rate)
    && (own.Some? ==> r.returnRate == own.value)
    && (own.None? && before.rate.Some? ==> r.returnRate == before.rate.value)
    && (own.None? && before.rate.None? ==> r.returnRate == householdRate)
    && (r.rateIsHousehold <==> own.None? && before.rate.None?)
  }

  lemma OneLineFunds(p: AccountPlan, a: Alloc, rules: Rules)
    requires a.bucket.kind.Investment?
    ensures PlanFunded(p, Changed(p, a, rules), ResultFor(a, Some(p), rules), a.split.rate, rules.householdRate)
  {
  }

  /** Each line reports itself; the plans differ only at the investment accounts the lines name, each by its line's money. */
  ghost predicate OnlySplitAccountsDiffer(before: seq<AccountPlan>, after: seq<AccountPlan>, results: seq<BucketResult>,
                                          allocs: seq<Alloc>, householdRate: real) {
    && |after| == |before| && |results| == |allocs|
    && (forall i :: 0 <= i < |before| && (forall k :: 0 <= k < |allocs| ==> !Funds(allocs, k, before[i].id)) ==>
          after[i] == before[i])
    && (forall i, k :: 0 <= i < |before| && 0 <= k < |allocs| && Funds(allocs, k, before[i].id) ==>
          PlanFunded(before[i], after[i], results[k], allocs[k].split.rate, householdRate))
  }

  /** With distinct plan ids and accounts the copy differs only there. */
  lemma OnlySplitAccountsChange(plans: seq<AccountPlan>, allocs: seq<Alloc>, rules: Rules)
    requires DistinctIds(plans) && DistinctAccounts(allocs)
    requires FoldLines(plans, allocs, rules, |allocs|).Accepted?
    ensures var after := FoldLines(plans, allocs, rules, |allocs|).value;
            OnlySplitAccountsDiffer(plans, after.plans, after.results, allocs, rules.householdRate)
  {
    var after := FoldLines(plans, allocs, rules, |allocs|).value;
    forall i | 0 <= i < |plans| && forall k :: 0 <= k < |allocs| ==> !Funds(allocs, k, plans[i].id)
      ensures after.plans[i] == plans[i]
    {
      UnfundedUnchanged(plans, allocs, rules, |allocs|, i);
    }
    forall i, k | 0 <= i < |plans| && 0 <= k < |allocs| && Funds(allocs, k, plans[i].id)
      ensures PlanFunded(plans[i], after.plans[i], after.results[k], allocs[k].split.rate, rules.householdRate)
    {
      FundedByItsLine(plans, allocs, rules, |allocs|, i, k);
      OneLineFunds(plans[i], allocs[k], rules);
    }
  }

  ghost predicate LinesReported(results: seq<BucketResult>, allocs: seq<Alloc>, rules: Rules, n: nat)
    requires n <= |allocs|
  {
    |results| == n && forall k :: 0 <= k < n ==> LineReported(results[k], allocs[k], rules)
  }

  lemma {:induction false} AllLinesReported(plans: seq<AccountPlan>, allocs: seq<Alloc>, rules: Rules, n: nat)
    requires n <= |allocs| && FoldLines(plans, allocs, rules, n).Accepted?
    ensures LinesReported(FoldLines(plans, allocs, rules, n).value.results, allocs, rules, n)
  {
    if n > 0 { AllLinesReported(plans, allocs, rules, n - 1); }
  }

  ghost predicate HasPlan(plans: seq<AccountPlan>, id: AccountId) {
    exists i :: 0 <= i < |plans| && plans[i].id == id
  }

  /** The fold stops only at an investment account the household has no plan for. */
  lemma {:induction false} FoldedExactlyWhen(plans: seq<AccountPlan>, allocs: seq<Alloc>, rules: Rules, n: nat)
    requires n <= |allocs|
    ensures FoldLines(plans, allocs, rules, n).Accepted? <==>
              forall k :: 0 <= k < n && allocs[k].bucket.kind.Investment? ==> HasPlan(plans, allocs[k].bucket.account)
  {
    if n > 0 {
      FoldedExactlyWhen(plans, allocs, rules, n - 1);
      var id := allocs[n - 1].bucket.account;
      assert id in PlanIndex(plans) <==> HasPlan(plans, id) by {
        if id in PlanIndex(plans) { assert plans[PlanIndex(plans)[id]].id == id; }
      }
    }
  }

  // ------------------------------------------------------- what the plans add up to

  function Total<T>(xs: seq<T>, amount: T -> real): real {
    if |xs| == 0 then 0.0 else Total(xs[..|xs| - 1], amount) + amount(xs[|xs| - 1])
  }

  lemma {:induction false} TotalUpdated<T>(xs: seq<T>, i: nat, x: T, amount: T -> real)
    requires i < |xs|
    ensures Total(xs[i := x], amount) == Total(xs, amount) - amount(xs[i]) + amount(x)
  {
    var init := xs[..|xs| - 1];
    if i < |init| {
      TotalUpdated(init, i, x, amount);
      assert xs[i := x][..|xs| - 1] == init[i := x];
    } else {
      assert xs[i := x][..|xs| - 1] == init;
    }
  }

  function FirstYearOf(p: AccountPlan): real { p.firstYear }

  function MonthlyOf(p: AccountPlan): real { p.monthly }

  /** What a line puts into a plan: nothing, unless it is an investment account's. */
  function InvestedLump(r: BucketResult): real {
    if r.kind.Investment? then r.applied.lump else 0.0
  }

  function InvestedMonthly(r: BucketResult): real {
    if r.kind.Investment? then r.applied.monthly else 0.0
  }

  function AllocatedLump(r: BucketResult): real { r.allocatedLump }

  function AllocatedMonthly(r: BucketResult): real { r.allocatedMonthly }

  /** The plans together rise by exactly what the investment lines applied. */
  ghost predicate TotalsRise(before: seq<AccountPlan>, after: seq<AccountPlan>, results: seq<BucketResult>) {
    && Total(after, FirstYearOf) == Total(before, FirstYearOf) + Total(results, InvestedLump)
    && Total(after, MonthlyOf) == Total(before, MonthlyOf) + Total(results, InvestedMonthly)
  }

  lemma TotalAppends<T>(xs: seq<T>, x: T, amount: T -> real)
    ensures Total(xs + [x], amount) == Total(xs, amount) + amount(x)
  {
    assert (xs + [x])[..|xs|] == xs;
  }

  lemma PlansRise(before: seq<AccountPlan>, now: seq<AccountPlan>, results: seq<BucketResult>, i: nat, a: Alloc, rules: Rules)
    requires i < |now| && TotalsRise(before, now, results) && a.bucket.kind.Investment?
    ensures TotalsRise(before, now[i := Changed(now[i], a, rules)], results + [ResultFor(a, Some(now[i]), rules)])
  {
    var p, r := Changed(now[i], a, rules), ResultFor(a, Some(now[i]), rules);
    TotalUpdated(now, i, p, FirstYearOf);
    TotalUpdated(now, i, p, MonthlyOf);
    TotalAppends(results, r, InvestedLump);
    TotalAppends(results, r, InvestedMonthly);
  }

  lemma {:induction false} PlanTotalsRise(plans: seq<AccountPlan>, allocs: seq<Alloc>, rules: Rules, n: nat)
    requires n <= |allocs| && FoldLines(plans, allocs, rules, n).Accepted?
    ensures var f := FoldLines(plans, allocs, rules, n).value; TotalsRise(plans, f.plans, f.results)
  {
    if n > 0 {
      PlanTotalsRise(plans, allocs, rules, n - 1);
      var a, f := allocs[n - 1], FoldLines(plans, allocs, rules, n - 1).value;
      if a.bucket.kind.Investment? {
        PlansRise(plans, f.plans, f.results, PlanIndex(plans)[a.bucket.account], a, rules);
      } else {
        TotalAppends(f.results, ResultFor(a, None, rules), InvestedLump);
        TotalAppends(f.results, ResultFor(a, None, rules), InvestedMonthly);
      }
    }
  }

  lemma {:induction false} ReportedMoney(results: seq<BucketResult>, allocs: seq<Alloc>)
    requires |results| == |allocs|
    requires forall k :: 0 <= k < |allocs| ==>
               results[k].allocatedLump == allocs[k].lump && results[k].allocatedMonthly == allocs[k].monthly
    ensures Total(results, AllocatedLump) == Lumps(allocs) && Total(results, AllocatedMonthly) == Monthlies(allocs)
  {
    if |allocs| > 0 { ReportedMoney(results[..|allocs| - 1], allocs[..|allocs| - 1]); }
  }

  /** Each line of the split, in order, is given its percentage of the money, to a rounding. */
  ghost predicate SharesAsAsked(results: seq<BucketResult>, req: Request) {
    && |results| == |req.splits|
    && forall k :: 0 <= k < |results| ==>
         && results[k].account == req.splits[k].account
         && NearShare(results[k].allocatedLump, req.lump, req.splits[k].lumpPct)
         && NearShare(results[k].allocatedMonthly, req.monthly, req.splits[k].monthlyPct)
  }

  predicate NearShare(share: real, amount: real, pct: real) {
    amount * pct / 100.0 - SHARE_ERROR <= share <= amount * pct / 100.0 + SHARE_ERROR
  }

  lemma ShareIsNear(amount: real, pct: real)
    ensures NearShare(Share(amount, pct), amount, pct)
  {
    ShareNear(amount, pct);
  }

  lemma ReportedShares(buckets: seq<Bucket>, req: Request, results: seq<BucketResult>, allocs: seq<Alloc>, rules: Rules)
    requires Allocs(buckets, req, |req.splits|) == Accepted(allocs) && LinesReported(results, allocs, rules, |allocs|)
    ensures SharesAsAsked(results, req)
  {
    AllocsMeaning(buckets, req, |req.splits|);
    forall k | 0 <= k < |results|
      ensures results[k].account == req.splits[k].account
      ensures NearShare(results[k].allocatedLump, req.lump, req.splits[k].lumpPct)
      ensures NearShare(results[k].allocatedMonthly, req.monthly, req.splits[k].monthlyPct)
    {
      assert LineReported(results[k], allocs[k], rules);
      ShareIsNear(req.lump, req.splits[k].lumpPct);
      ShareIsNear(req.monthly, req.splits[k].monthlyPct);
    }
  }

  /** Whole-cent money asked for is on the lines or left over, to the cent. */
  ghost predicate MoneyOnLines(req: Request, results: seq<BucketResult>, shared: Shared) {
    && (WholeCents(req.lump) ==> Total(results, AllocatedLump) + shared.unallocatedLump == req.lump)
    && (WholeCents(req.monthly) ==> Total(results, AllocatedMonthly) + shared.unallocatedMonthly == req.monthly)
  }

  /** All of it for one accepted request, from what went in and what came out. */
  ghost predicate PlansBuilt(before: seq<AccountPlan>, after: seq<AccountPlan>, results: seq<BucketResult>, req: Request,
                             shared: Shared, rules: Rules) {
    && LinesReported(results, shared.allocs, rules, |shared.allocs|)
    && SharesAsAsked(results, req) && MoneyOnLines(req, results, shared) && TotalsRise(before, after, results)
    && (DistinctIds(before) ==> OnlySplitAccountsDiffer(before, after, results, shared.allocs, rules.householdRate))
  }

  lemma FoldBuildsPlans(buckets: seq<Bucket>, req: Request, before: seq<AccountPlan>, folded: Folded, shared: Shared, rules: Rules)
    requires SharedOut(buckets, req) == Accepted(shared)
    requires FoldLines(before, shared.allocs, rules, |shared.allocs|) == Accepted(folded)
    ensures PlansBuilt(before, folded.plans, folded.results, req, shared, rules)
  {
    AllLinesReported(before, shared.allocs, rules, |shared.allocs|);
    ReportedShares(buckets, req, folded.results, shared.allocs, rules);
    ReportedMoney(folded.results, shared.allocs);
    AcceptedMoneyConserved(buckets, req);
    PlanTotalsRise(before, shared.allocs, rules, |shared.allocs|);
    if DistinctIds(before) {
      AcceptedAccountsDiffer(buckets, req);
      OnlySplitAccountsChange(before, shared.allocs, rules);
    }
  }

  /** The lines of an accepted split never name the same account twice. */
  lemma AcceptedAccountsDiffer(buckets: seq<Bucket>, req: Request)
    requires SharedOut(buckets, req).Accepted?
    ensures DistinctAccounts(SharedOut(buckets, req).value.allocs)
  {
    AllocsMeaning(buckets, req, |req.splits|);
  }

  /** The whole of it: share the money out, then fold it into a copy of the household's plans. */
  method BuildPlanInputs(buckets: seq<Bucket>, req: Request, household: array<AccountPlan>, rules: Rules)
    returns (shared: Outcome<Shared>, plans: array<AccountPlan>, results: seq<BucketResult>)
    ensures fresh(plans) && household[..] == old(household[..])
    ensures var spec := SharedOut(buckets, req);
            if spec.Refused? then shared == spec
            else
              var fold := FoldLines(household[..], spec.value.allocs, rules, |spec.value.allocs|);
              if fold.Refused? then shared == Refused(NoPlan)
              else shared == spec && fold.value == Folded(plans[..], results)
    ensures SharedOut(buckets, req).Accepted? ==>
              (shared.Accepted? <==>
                 forall a :: a in SharedOut(buckets, req).value.allocs && a.bucket.kind.Investment? ==>
                   HasPlan(household[..], a.bucket.account))
    ensures shared.Accepted? ==> PlansBuilt(household[..], plans[..], results, req, shared.value, rules)
  {
    shared := ShareOut(buckets, req);
    if shared.Refused? {
      plans, results := new AccountPlan[0], [];
      return;
    }
    var ok;
    ok, plans, results := FoldIntoCopy(household, shared.value.allocs, rules);
    FoldedExactlyWhen(household[..], shared.value.allocs, rules, |shared.value.allocs|);
    if !ok {
      shared := Refused(NoPlan);
      return;
    }
    FoldBuildsPlans(buckets, req, household[..], Folded(plans[..], results), shared.value, rules);
  }
}
