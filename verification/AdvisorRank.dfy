/**
 The advisor's waterfall: which options a household is offered, and in what
 order. An option is the part of one that places it; its wording and basis are
 not modelled.
 */
module AdvisorRank {
  import opened Wrappers
  import opened Decimals
  import opened Sorting
  import opened GoalPace
  import College
  import Text

  const TIER_STARTER := 1
  const TIER_MATCH := 2
  const TIER_DEBT_ABOVE := 3
  const TIER_FULL_FUND := 4
  const TIER_HEADROOM := 5
  const TIER_GOAL := 6
  const TIER_TRADEOFF := 7
  const TIER_UNRANKED_END := 99

  datatype Opt = Opt(key: string, title: string, tier: int, unranked: bool, unbounded: bool, value: real)

  // ------------------------------------------------------------------ the order

  /** Options that could not be placed go past every tier. */
  function SortTier(o: Opt): int {
    if o.unranked then TIER_UNRANKED_END else o.tier
  }

  predicate Before(a: Opt, b: Opt) {
    if SortTier(a) != SortTier(b) then SortTier(a) < SortTier(b)
    else if a.unbounded != b.unbounded then a.unbounded
    else if a.value != b.value then a.value > b.value
    else Text.Less(a.title, b.title)
  }

  /** What the order looks at. */
  predicate SamePlace(a: Opt, b: Opt) {
    SortTier(a) == SortTier(b) && a.unbounded == b.unbounded && a.value == b.value && a.title == b.title
  }

  lemma BeforeAsymmetric(a: Opt, b: Opt)
    requires Before(a, b)
    ensures !Before(b, a)
  {
    if Text.Less(a.title, b.title) { Text.LessAsymmetric(a.title, b.title); }
  }

  lemma BeforeTransitive(a: Opt, b: Opt, c: Opt)
    requires Before(a, b) && Before(b, c)
    ensures Before(a, c)
  {
    if Text.Less(a.title, b.title) && Text.Less(b.title, c.title) {
      Text.LessTransitive(a.title, b.title, c.title);
    }
  }

  /** Two options tie exactly when they agree on everything the order looks at. */
  lemma TiesExactlyWhen(a: Opt, b: Opt)
    ensures !Before(a, b) && !Before(b, a) <==> SamePlace(a, b)
  {
    Text.LessTotal(a.title, b.title);
    Text.LessIrreflexive(a.title);
  }

  lemma BeforeIsStrictWeakOrder()
    ensures StrictWeakOrder(Before)
  {
    forall a, b | Before(a, b)
      ensures !Before(b, a)
    {
      BeforeAsymmetric(a, b);
    }
    forall a, b, c | Before(a, b) && Before(b, c)
      ensures Before(a, c)
    {
      BeforeTransitive(a, b, c);
    }
    forall a, b, c | !Before(a, b) && !Before(b, c)
      ensures !Before(a, c)
    {
      NotBeforeTransitive(a, b, c);
    }
  }

  lemma NotBeforeTransitive(a: Opt, b: Opt, c: Opt)
    requires !Before(a, b) && !Before(b, c)
    ensures !Before(a, c)
  {
    TiesExactlyWhen(a, b);
    TiesExactlyWhen(b, c);
    if Before(b, a) && Before(c, b) {
      BeforeTransitive(c, b, a);
      BeforeAsymmetric(c, a);
    }
  }

  // ---------------------------------------------------------------- the options

  datatype Match = Match(account: string, name: string, unclaimed: real)
  datatype Debt = Debt(id: string, name: string, apr: Option<real>, payment: Option<real>)
  datatype Headroom = Headroom(group: string, room: real)

  /** A payoff schedule, as the goals package computes it. */
  datatype Payoff = Payoff(neverPaysOff: bool, totalInterest: real)

  datatype Inputs = Inputs(
    starterTarget: real, fullTarget: real, fundMonths: int, liquid: real, slack: real, surplus: real, hurdle: real,
    matches: seq<Match>, matchPeriodsLeft: int, debts: seq<Debt>, headroom: seq<Headroom>, goals: seq<Goal>,
    payoff: (Debt, real) -> Payoff, realReturn: real)

  function Keyed(kind: string, subject: string): string {
    if subject == "" then kind else kind + ":" + subject
  }

  function Count(n: int): string {
    if n < 0 then "-" + Text.Digits(-n) else Text.Digits(n)
  }

  /** The only option offered until a month of fixed costs is held. */
  function StarterOption(inp: Inputs): Option<Opt> {
    if !(inp.starterTarget > 0.0) || !(inp.liquid < inp.starterTarget) then None
    else Some(Opt("emergency_fund:starter", "Start an emergency fund", TIER_STARTER, false, false,
                  Round2(inp.starterTarget - inp.liquid)))
  }

  function FullFundOption(inp: Inputs): Option<Opt> {
    if !(inp.fullTarget > 0.0) || !(inp.liquid < inp.fullTarget) then None
    else Some(Opt("emergency_fund:full", "Top up the emergency fund to " + Count(inp.fundMonths) + " months", TIER_FULL_FUND, false, false,
                  Round2(inp.fullTarget - inp.liquid)))
  }

  function MatchOption(inp: Inputs, m: Match): Option<Opt> {
    if inp.matchPeriodsLeft <= 0 then None
    else Some(Opt(Keyed("employer_match", m.account), "Capture the full employer match on " + m.name, TIER_MATCH,
                  false, false, m.unclaimed))
  }

  function DebtKey(d: Debt): string {
    Keyed("debt_paydown", d.id)
  }

  function DebtTier(apr: real, hurdle: real): int {
    if apr > hurdle then TIER_DEBT_ABOVE else TIER_TRADEOFF
  }

  /** A debt on its side of the hurdle, or unplaced when its rate is unknown. */
  function DebtOption(inp: Inputs, d: Debt): Opt {
    var bare := Opt(DebtKey(d), "Pay down " + d.name, 0, false, false, 0.0);
    if d.apr.None? then bare.(unranked := true)
    else
      var placed := bare.(tier := DebtTier(d.apr.value, inp.hurdle));
      if d.payment.None? then placed
      else
        var base, faster := inp.payoff(d, d.payment.value), inp.payoff(d, d.payment.value + inp.slack);
        if base.neverPaysOff then placed.(unbounded := true)
        else
          var avoided := Round2(base.totalInterest - faster.totalInterest);
          placed.(value := if avoided < 0.0 then 0.0 else avoided)
  }

  /** The word a shared limit is known by. */
  function LimitGroupLabel(group: string): string {
    if group == "401k" then "401(k)" else if group == "ira" then "IRA" else if group == "hsa" then "HSA" else group
  }

  function HeadroomOption(h: Headroom): Opt {
    Opt(Keyed("tax_advantaged", h.group), "Use this year's " + LimitGroupLabel(h.group) + " room", TIER_HEADROOM,
        false, false, h.room)
  }

  function GoalOption(inp: Inputs, g: Goal): Option<Opt> {
    if !(g.remaining > 0.0) then None
    else Some(Opt(Keyed("goal_acceleration", g.id), "Put it toward " + g.name, TIER_GOAL, false, false,
                  MonthsEarlier(inp.slack, g) as real))
  }

  const TAXABLE_MONTHS := 120

  /** The growth of ten years of the slack at the assumed return, beside what was put in. */
  function TaxableOption(inp: Inputs): Option<Opt> {
    if !(inp.realReturn > 0.0) then None
    else
      var value := Round2(College.Accrued(Div16(inp.realReturn, 12.0), inp.slack, TAXABLE_MONTHS));
      Some(Opt("taxable_investing", "Invest it in a taxable account", TIER_TRADEOFF, false, false,
               Round2(value - Round2(inp.slack * 120.0))))
  }

  method ReadTaxable(inp: Inputs) returns (o: Option<Opt>)
    ensures o == TaxableOption(inp)
  {
    if !(inp.realReturn > 0.0) {
      return None;
    }
    var balance := College.Accrue(Div16(inp.realReturn, 12.0), inp.slack, TAXABLE_MONTHS);
    var growth := Round2(Round2(balance) - Round2(inp.slack * 120.0));
    o := Some(Opt("taxable_investing", "Invest it in a taxable account", TIER_TRADEOFF, false, false, growth));
  }

  /** The options a list of inputs gives, in its order. */
  function Offered<T>(xs: seq<T>, offer: T -> Option<Opt>): seq<Opt> {
    if |xs| == 0 then []
    else Offered(xs[..|xs| - 1], offer) + AsSeq(offer(xs[|xs| - 1]))
  }

  function AsSeq(o: Option<Opt>): seq<Opt> {
    if o.Some? then [o.value] else []
  }

  function MatchOffers(inp: Inputs): Match -> Option<Opt> {
    (m: Match) => MatchOption(inp, m)
  }

  function DebtOffers(inp: Inputs): Debt -> Option<Opt> {
    (d: Debt) => Some(DebtOption(inp, d))
  }

  function HeadroomOffers(): Headroom -> Option<Opt> {
    (h: Headroom) => Some(HeadroomOption(h))
  }

  function GoalOffers(inp: Inputs): Goal -> Option<Opt> {
    (g: Goal) => GoalOption(inp, g)
  }

  /** Everything the waterfall can offer below the starter fund, before muting. */
  function Candidates(inp: Inputs): seq<Opt> {
    Offered(inp.matches, MatchOffers(inp))
    + Offered(inp.debts, DebtOffers(inp))
    + AsSeq(FullFundOption(inp))
    + Offered(inp.headroom, HeadroomOffers())
    + Offered(inp.goals, GoalOffers(inp))
    + AsSeq(TaxableOption(inp))
  }

  function NotMuted(muted: set<string>): Opt -> bool {
    (o: Opt) => o.key !in muted
  }

  function Unmuted(options: seq<Opt>, muted: set<string>): seq<Opt> {
    Keep(options, NotMuted(muted))
  }

  /** The starter fund holds everything else back. */
  predicate HeldBack(inp: Inputs, muted: set<string>) {
    StarterOption(inp).Some? && StarterOption(inp).value.key !in muted
  }

  /** A list the page may show. */
  predicate IsRanking(out: seq<Opt>, inp: Inputs, muted: set<string>) {
    if HeldBack(inp, muted) then out == [StarterOption(inp).value]
    else SortedPermutation(out, Unmuted(Candidates(inp), muted), Before)
  }

  // -------------------------------------------------------------------- ranking

  lemma KeepOneMore<T(!new)>(s: seq<T>, e: T, p: T -> bool)
    ensures Keep(s + [e], p) == Keep(s, p) + if p(e) then [e] else []
  {
    assert (s + [e])[..|s|] == s;
  }

  lemma {:induction false} KeepAppends<T(!new)>(s: seq<T>, t: seq<T>, p: T -> bool)
    ensures Keep(s + t, p) == Keep(s, p) + Keep(t, p)
  {
    if |t| == 0 {
      assert s + t == s;
    } else {
      var init, last := t[..|t| - 1], t[|t| - 1];
      assert t == init + [last] && s + t == (s + init) + [last];
      KeepAppends(s, init, p);
      KeepOneMore(s + init, last, p);
      KeepOneMore(init, last, p);
      Regrouped(Keep(s, p), Keep(init, p), if p(last) then [last] else []);
    }
  }

  lemma Regrouped<T>(a: seq<T>, b: seq<T>, c: seq<T>)
    ensures a + b + c == a + (b + c)
  {
  }

  lemma KeepOne(o: Option<Opt>, p: Opt -> bool)
    ensures Keep(AsSeq(o), p) == if o.Some? && p(o.value) then [o.value] else []
  {
    if o.Some? {
      assert [o.value][..0] == [];
    }
  }

  /** Offers one option after the others unless the household muted it. */
  method Add(ghost offered: seq<Opt>, out: seq<Opt>, o: Option<Opt>, muted: set<string>) returns (longer: seq<Opt>)
    requires out == Unmuted(offered, muted)
    ensures longer == Unmuted(offered + AsSeq(o), muted)
  {
    KeepAppends(offered, AsSeq(o), NotMuted(muted));
    KeepOne(o, NotMuted(muted));
    longer := out;
    if o.Some? && o.value.key !in muted { longer := longer + [o.value]; }
  }

  lemma OneMoreOffered<T>(offered: seq<Opt>, xs: seq<T>, i: nat, offer: T -> Option<Opt>)
    requires i < |xs|
    ensures offered + Offered(xs[..i + 1], offer) == offered + Offered(xs[..i], offer) + AsSeq(offer(xs[i]))
  {
    assert xs[..i + 1][..i] == xs[..i];
    Regrouped(offered, Offered(xs[..i], offer), AsSeq(offer(xs[i])));
  }

  method AddAll<T(!new)>(ghost offered: seq<Opt>, out: seq<Opt>, xs: seq<T>, offer: T -> Option<Opt>, muted: set<string>)
    returns (longer: seq<Opt>)
    requires out == Unmuted(offered, muted)
    ensures longer == Unmuted(offered + Offered(xs, offer), muted)
  {
    longer := out;
    assert offered + [] == offered;
    for i := 0 to |xs|
      invariant longer == Unmuted(offered + Offered(xs[..i], offer), muted)
    {
      OneMoreOffered(offered, xs, i, offer);
      longer := Add(offered + Offered(xs[..i], offer), longer, offer(xs[i]), muted);
    }
    assert xs[..|xs|] == xs;
  }

  method Collect(inp: Inputs, muted: set<string>) returns (out: seq<Opt>)
    ensures out == Unmuted(Candidates(inp), muted)
  {
    ghost var offered: seq<Opt> := [];
    out := AddAll(offered, [], inp.matches, MatchOffers(inp), muted);
    assert [] + Offered(inp.matches, MatchOffers(inp)) == Offered(inp.matches, MatchOffers(inp));
    offered := Offered(inp.matches, MatchOffers(inp));
    out := AddAll(offered, out, inp.debts, DebtOffers(inp), muted);
    offered := offered + Offered(inp.debts, DebtOffers(inp));
    out := Add(offered, out, FullFundOption(inp), muted);
    offered := offered + AsSeq(FullFundOption(inp));
    out := AddAll(offered, out, inp.headroom, HeadroomOffers(), muted);
    offered := offered + Offered(inp.headroom, HeadroomOffers());
    out := AddAll(offered, out, inp.goals, GoalOffers(inp), muted);
    offered := offered + Offered(inp.goals, GoalOffers(inp));
    var taxable := ReadTaxable(inp);
    out := Add(offered, out, taxable, muted);
  }

  /**
   The published list. A household short of its starter fund, unless it muted
   that, sees the starter fund alone, worth the gap; any other sees exactly the
   options its own figures call for and it has not muted, in order, none of
   them in the first tier.
   */
  method Rank(inp: Inputs, muted: set<string>) returns (out: seq<Opt>)
    ensures IsRanking(out, inp, muted)
    ensures NeedsStarter(inp, muted) ==> |out| == 1 && IsStarter(out[0], inp)
    ensures !NeedsStarter(inp, muted) ==> ShowsWhatIsCalledFor(out, inp, muted)
  {
    StarterOnly(inp, muted);
    var starter := StarterOption(inp);
    if starter.Some? && starter.value.key !in muted {
      return [starter.value];
    }
    var options := Collect(inp, muted);
    BeforeIsStrictWeakOrder();
    out := InsertionSort(options, Before);
    ShownAreCalledFor(out, inp, muted);
  }

  // ---------------------------------------------------------------- what it means

  /** Every option shown was offered and not muted, and none that qualifies is missing. */
  lemma RankingIsExactlyTheUnmuted(out: seq<Opt>, inp: Inputs, muted: set<string>)
    requires IsRanking(out, inp, muted) && !HeldBack(inp, muted)
    ensures forall o :: o in out <==> o in Candidates(inp) && o.key !in muted
  {
    var kept := Unmuted(Candidates(inp), muted);
    forall o
      ensures o in out <==> o in kept
    {
      assert o in multiset(out) <==> o in multiset(kept);
    }
  }

  /** Tiers never go backwards down the list, and what could not be placed comes last. */
  lemma TiersInOrder(out: seq<Opt>, inp: Inputs, muted: set<string>, i: nat, j: nat)
    requires IsRanking(out, inp, muted) && i < j < |out|
    ensures SortTier(out[i]) <= SortTier(out[j])
    ensures SortTier(out[i]) == SortTier(out[j]) && out[j].unbounded ==> out[i].unbounded
    ensures SortTier(out[i]) == SortTier(out[j]) && out[i].unbounded == out[j].unbounded ==> out[i].value >= out[j].value
  {
    assert !Before(out[j], out[i]);
  }

  // ------------------------------------------- the list, from the household's figures

  /** Less than a month of fixed costs is held, and the household has not asked to be spared the advice. */
  predicate NeedsStarter(inp: Inputs, muted: set<string>) {
    inp.starterTarget > 0.0 && inp.liquid < inp.starterTarget && "emergency_fund:starter" !in muted
  }

  predicate IsStarter(o: Opt, inp: Inputs) {
    && o.key == "emergency_fund:starter" && o.tier == 1 && !o.unranked && !o.unbounded
    && o.value == Round2(inp.starterTarget - inp.liquid)
  }

  predicate HasKey(key: string, kind: string, subject: string) {
    key == if |subject| > 0 then kind + ":" + subject else kind
  }

  /** A placed option of finite value. */
  predicate IsAt(o: Opt, tier: int, value: real) {
    o.tier == tier && o.value == value && !o.unranked && !o.unbounded
  }

  /** An unclaimed match, worth what is unclaimed. */
  predicate IsMatch(o: Opt, m: Match) {
    HasKey(o.key, "employer_match", m.account) && o.title == "Capture the full employer match on " + m.name
    && IsAt(o, 2, m.unclaimed)
  }

  /** The interest an extra payment avoids, never less than nothing. */
  predicate IsAvoided(value: real, base: Payoff, faster: Payoff) {
    var avoided := Round2(base.totalInterest - faster.totalInterest);
    value >= 0.0 && value >= avoided && (value == avoided || value == 0.0)
  }

  /** A debt of unknown rate is not placed; one above the hurdle is in tier 3 and any other in tier 7. */
  predicate IsDebt(o: Opt, d: Debt, hurdle: real, slack: real, payoff: (Debt, real) -> Payoff) {
    && HasKey(o.key, "debt_paydown", d.id) && o.title == "Pay down " + d.name
    && (o.unranked <==> d.apr.None?)
    && o.tier == (if d.apr.None? then 0 else if d.apr.value > hurdle then 3 else 7)
    && (if d.apr.None? || d.payment.None? then !o.unbounded && o.value == 0.0
        else
          var base, faster := payoff(d, d.payment.value), payoff(d, d.payment.value + slack);
          && (o.unbounded <==> base.neverPaysOff)
          && (if base.neverPaysOff then o.value == 0.0 else IsAvoided(o.value, base, faster)))
  }

  predicate IsFullFund(o: Opt, inp: Inputs) {
    && o.key == "emergency_fund:full"
    && o.title == "Top up the emergency fund to " + Count(inp.fundMonths) + " months"
    && IsAt(o, 4, Round2(inp.fullTarget - inp.liquid))
  }

  /** The word for a shared limit: three have their own, any other goes by its name. */
  predicate IsWordFor(word: string, group: string) {
    && (group == "401k" ==> word == "401(k)") && (group == "ira" ==> word == "IRA") && (group == "hsa" ==> word == "HSA")
    && (group != "401k" && group != "ira" && group != "hsa" ==> word == group)
  }

  ghost predicate IsHeadroom(o: Opt, h: Headroom) {
    && HasKey(o.key, "tax_advantaged", h.group) && IsAt(o, 5, h.room)
    && exists word :: IsWordFor(word, h.group) && o.title == "Use this year's " + word + " room"
  }

  lemma OneWordFor(word: string, group: string)
    ensures IsWordFor(word, group) <==> word == LimitGroupLabel(group)
  {
    assert |"401k"| == 4 && |"ira"| == 3 && |"hsa"| == 3 && "ira"[0] == 'i' && "hsa"[0] == 'h';
  }

  predicate IsGoal(o: Opt, g: Goal, slack: real) {
    HasKey(o.key, "goal_acceleration", g.id) && o.title == "Put it toward " + g.name
    && IsAt(o, 6, MonthsEarlier(slack, g) as real)
  }

  /** Ten years of the slack as an annuity at a twelfth of the assumed return, less what was put in. */
  ghost predicate IsTaxable(o: Opt, slack: real, realReturn: real) {
    && o.key == "taxable_investing" && o.title == "Invest it in a taxable account"
    && exists saved ::
         College.IsAnnuity(saved, Div16(realReturn, 12.0), slack, 120)
         && IsAt(o, 7, Round2(Round2(saved) - Round2(slack * 120.0)))
  }

  /** An option the household's own figures call for, below the starter fund. */
  ghost predicate CalledFor(o: Opt, inp: Inputs) {
    || (inp.matchPeriodsLeft > 0 && exists m :: m in inp.matches && IsMatch(o, m))
    || (exists d :: d in inp.debts && IsDebt(o, d, inp.hurdle, inp.slack, inp.payoff))
    || (inp.fullTarget > 0.0 && inp.liquid < inp.fullTarget && IsFullFund(o, inp))
    || (exists h :: h in inp.headroom && IsHeadroom(o, h))
    || (exists g :: g in inp.goals && g.remaining > 0.0 && IsGoal(o, g, inp.slack))
    || (inp.realReturn > 0.0 && IsTaxable(o, inp.slack, inp.realReturn))
  }

  ghost predicate ShowsWhatIsCalledFor(out: seq<Opt>, inp: Inputs, muted: set<string>) {
    && (forall o :: o in out <==> CalledFor(o, inp) && o.key !in muted)
    && (forall o :: o in out ==> o.tier != 1)
  }

  lemma StarterOnly(inp: Inputs, muted: set<string>)
    ensures HeldBack(inp, muted) <==> NeedsStarter(inp, muted)
    ensures HeldBack(inp, muted) ==> IsStarter(StarterOption(inp).value, inp)
  {
  }

  lemma {:induction false} OfferedMembers<T>(xs: seq<T>, offer: T -> Option<Opt>, o: Opt)
    ensures o in Offered(xs, offer) <==> exists x :: x in xs && offer(x) == Some(o)
  {
    if |xs| > 0 {
      var init, last := xs[..|xs| - 1], xs[|xs| - 1];
      assert xs == init + [last];
      OfferedMembers(init, offer, o);
    }
  }

  lemma KeyedHasKey(kind: string, subject: string, key: string)
    ensures HasKey(key, kind, subject) <==> key == Keyed(kind, subject)
  {
  }

  lemma MatchCalledFor(inp: Inputs, m: Match, o: Opt)
    ensures MatchOption(inp, m) == Some(o) <==> inp.matchPeriodsLeft > 0 && IsMatch(o, m)
  {
    KeyedHasKey("employer_match", m.account, o.key);
  }

  lemma DebtCalledFor(inp: Inputs, d: Debt, o: Opt)
    ensures DebtOption(inp, d) == o <==> IsDebt(o, d, inp.hurdle, inp.slack, inp.payoff)
  {
    KeyedHasKey("debt_paydown", d.id, o.key);
  }

  lemma HeadroomCalledFor(h: Headroom, o: Opt)
    ensures HeadroomOption(h) == o <==> IsHeadroom(o, h)
  {
    KeyedHasKey("tax_advantaged", h.group, o.key);
    forall word
      ensures IsWordFor(word, h.group) <==> word == LimitGroupLabel(h.group)
    {
      OneWordFor(word, h.group);
    }
  }

  lemma GoalCalledFor(inp: Inputs, g: Goal, o: Opt)
    ensures GoalOption(inp, g) == Some(o) <==> g.remaining > 0.0 && IsGoal(o, g, inp.slack)
  {
    KeyedHasKey("goal_acceleration", g.id, o.key);
  }

  lemma FundCalledFor(inp: Inputs, o: Opt)
    ensures FullFundOption(inp) == Some(o) <==> inp.fullTarget > 0.0 && inp.liquid < inp.fullTarget && IsFullFund(o, inp)
  {
  }

  lemma TaxableCalledFor(inp: Inputs, o: Opt)
    ensures TaxableOption(inp) == Some(o) <==> inp.realReturn > 0.0 && IsTaxable(o, inp.slack, inp.realReturn)
  {
    var rate := Div16(inp.realReturn, 12.0);
    var saved := College.Accrued(rate, inp.slack, TAXABLE_MONTHS);
    forall x
      ensures College.IsAnnuity(x, rate, inp.slack, 120) <==> x == saved
    {
      College.SavedIsAccrued(rate, 120, inp.slack, x);
    }
  }

  lemma MatchesCalledFor(inp: Inputs, o: Opt)
    ensures o in Offered(inp.matches, MatchOffers(inp))
       <==> inp.matchPeriodsLeft > 0 && exists m :: m in inp.matches && IsMatch(o, m)
  {
    OfferedMembers(inp.matches, MatchOffers(inp), o);
    forall m
      ensures MatchOffers(inp)(m) == Some(o) <==> inp.matchPeriodsLeft > 0 && IsMatch(o, m)
    {
      MatchCalledFor(inp, m, o);
    }
  }

  lemma DebtsCalledFor(inp: Inputs, o: Opt)
    ensures o in Offered(inp.debts, DebtOffers(inp))
       <==> exists d :: d in inp.debts && IsDebt(o, d, inp.hurdle, inp.slack, inp.payoff)
  {
    OfferedMembers(inp.debts, DebtOffers(inp), o);
    forall d
      ensures DebtOffers(inp)(d) == Some(o) <==> IsDebt(o, d, inp.hurdle, inp.slack, inp.payoff)
    {
      DebtCalledFor(inp, d, o);
    }
  }

  lemma HeadroomsCalledFor(inp: Inputs, o: Opt)
    ensures o in Offered(inp.headroom, HeadroomOffers()) <==> exists h :: h in inp.headroom && IsHeadroom(o, h)
  {
    OfferedMembers(inp.headroom, HeadroomOffers(), o);
    forall h
      ensures HeadroomOffers()(h) == Some(o) <==> IsHeadroom(o, h)
    {
      HeadroomCalledFor(h, o);
    }
  }

  lemma GoalsCalledFor(inp: Inputs, o: Opt)
    ensures o in Offered(inp.goals, GoalOffers(inp))
       <==> exists g :: g in inp.goals && g.remaining > 0.0 && IsGoal(o, g, inp.slack)
  {
    OfferedMembers(inp.goals, GoalOffers(inp), o);
    forall g
      ensures GoalOffers(inp)(g) == Some(o) <==> g.remaining > 0.0 && IsGoal(o, g, inp.slack)
    {
      GoalCalledFor(inp, g, o);
    }
  }

  lemma CandidateMembers(inp: Inputs, o: Opt)
    ensures o in Candidates(inp)
       <==> || o in Offered(inp.matches, MatchOffers(inp)) || o in Offered(inp.debts, DebtOffers(inp))
            || FullFundOption(inp) == Some(o) || o in Offered(inp.headroom, HeadroomOffers())
            || o in Offered(inp.goals, GoalOffers(inp)) || TaxableOption(inp) == Some(o)
  {
    assert o in AsSeq(FullFundOption(inp)) <==> FullFundOption(inp) == Some(o);
    assert o in AsSeq(TaxableOption(inp)) <==> TaxableOption(inp) == Some(o);
  }

  lemma CandidatesCalledFor(inp: Inputs, o: Opt)
    ensures o in Candidates(inp) <==> CalledFor(o, inp)
    ensures CalledFor(o, inp) ==> o.tier != 1
  {
    CandidateMembers(inp, o);
    MatchesCalledFor(inp, o);
    DebtsCalledFor(inp, o);
    FundCalledFor(inp, o);
    HeadroomsCalledFor(inp, o);
    GoalsCalledFor(inp, o);
    TaxableCalledFor(inp, o);
  }

  lemma ShownAreCalledFor(out: seq<Opt>, inp: Inputs, muted: set<string>)
    requires IsRanking(out, inp, muted) && !HeldBack(inp, muted)
    ensures ShowsWhatIsCalledFor(out, inp, muted)
  {
    RankingIsExactlyTheUnmuted(out, inp, muted);
    forall o
      ensures o in out <==> CalledFor(o, inp) && o.key !in muted
      ensures o in out ==> o.tier != 1
    {
      CandidatesCalledFor(inp, o);
    }
  }

  lemma DebtTiersDiffer(inp: Inputs, high: Debt, other: Debt)
    requires high.apr.Some? && high.apr.value > inp.hurdle
    requires other.apr.Some? ==> other.apr.value <= inp.hurdle
    ensures SortTier(DebtOption(inp, high)) == TIER_DEBT_ABOVE
    ensures SortTier(DebtOption(inp, other)) == if other.apr.Some? then TIER_TRADEOFF else TIER_UNRANKED_END
  {
  }

  lemma RankingIsSorted(out: seq<Opt>, inp: Inputs, muted: set<string>)
    requires IsRanking(out, inp, muted)
    ensures Sorted(out, Before)
  {
  }

  lemma AheadByTier(out: seq<Opt>, i: nat, j: nat)
    requires Sorted(out, Before) && i < |out| && j < |out| && SortTier(out[i]) < SortTier(out[j])
    ensures i < j
  {
    assert j < i ==> !Before(out[i], out[j]);
  }

  /**
   A debt above the hurdle is shown ahead of every debt at or below it, and
   a debt with no known rate after both, whatever its balance.
   */
  lemma DebtsByTheHurdle(out: seq<Opt>, inp: Inputs, muted: set<string>, i: nat, j: nat, high: Debt, other: Debt)
    requires IsRanking(out, inp, muted) && i < |out| && j < |out|
    requires out[i] == DebtOption(inp, high) && out[j] == DebtOption(inp, other)
    requires high.apr.Some? && high.apr.value > inp.hurdle
    requires other.apr.Some? ==> other.apr.value <= inp.hurdle
    ensures i < j
    ensures other.apr.None? ==> SortTier(out[j]) > TIER_TRADEOFF
  {
    DebtTiersDiffer(inp, high, other);
    RankingIsSorted(out, inp, muted);
    AheadByTier(out, i, j);
  }

  /** No two different options in the list sit in the same place. */
  ghost predicate AllPlacesDiffer(options: seq<Opt>) {
    forall a, b :: a in options && b in options && SamePlace(a, b) ==> a == b
  }

  lemma AllPlacesDifferIsNoTies(options: seq<Opt>)
    ensures AllPlacesDiffer(options) <==> NoTies(options, Before)
  {
    forall a, b
      ensures Tie(a, b, Before) <==> a != b && SamePlace(a, b)
    {
      TiesExactlyWhen(a, b);
    }
  }

  lemma GoalTitles(g: Goal, h: Goal)
    ensures Text.Less("Put it toward " + g.name, "Put it toward " + h.name) <==> Text.Less(g.name, h.name)
  {
    Text.LessAfterPrefix("Put it toward ", g.name, h.name);
  }

  /**
   Goals are ranked by how far the slack brings them forward: one is ahead
   when, for some number of months, the slack takes that many off its schedule
   and not off the other's; or no such number tells them apart and its name
   comes first.
   */
  lemma GoalsOrderedExactlyWhen(inp: Inputs, g: Goal, h: Goal)
    requires g.remaining > 0.0 && h.remaining > 0.0 && inp.slack > 0.0
    ensures Before(GoalOption(inp, g).value, GoalOption(inp, h).value)
       <==> || (exists j: nat :: j >= 1 && BringsForward(inp.slack, g, j) && !BringsForward(inp.slack, h, j))
            || ((forall j: nat :: j >= 1 ==> (BringsForward(inp.slack, g, j) <==> BringsForward(inp.slack, h, j)))
                && Text.Less(g.name, h.name))
  {
    GoalTitles(g, h);
    BroughtFurtherExactlyWhen(inp.slack, g, h);
    BroughtFurtherExactlyWhen(inp.slack, h, g);
  }

  /**
   The rule promises the goal furthest behind its date first. On exact
   schedules the goal further behind is in fact first only if the slack makes
   up more whole months of its time left, at its larger pace, or as many with
   the earlier name; so one due no later than the other leads by name alone.
   */
  lemma FurthestBehindFirstExactlyWhen(inp: Inputs, g: Goal, h: Goal)
    requires g.remaining > 0.0 && h.remaining > 0.0 && inp.slack > 0.0 && OnSchedule(g) && OnSchedule(h)
    requires Shortfall(inp.surplus, g) > Shortfall(inp.surplus, h)
    ensures RequiredMonthly(g) > RequiredMonthly(h)
    ensures var a := MonthsGained(g.monthsLeft, RequiredMonthly(g), inp.slack);
            var b := MonthsGained(h.monthsLeft, RequiredMonthly(h), inp.slack);
            && (Before(GoalOption(inp, g).value, GoalOption(inp, h).value) <==>
                  a > b || (a == b && Text.Less(g.name, h.name)))
            && (g.monthsLeft <= h.monthsLeft ==> a <= b)
  {
    GoalTitles(g, h);
    FurtherBehindNeedsMore(inp.surplus, g, h);
    GainedOnSchedule(inp.slack, g);
    GainedOnSchedule(inp.slack, h);
    if g.monthsLeft <= h.monthsLeft { FurtherBehindGainsNoMore(inp.surplus, inp.slack, g, h); }
  }

  /**
   A household with a surplus of 90 and 100 to spare: the goal 810 a month
   behind is shown after the one 10 behind, whose date the same money moves further.
   */
  lemma FurthestBehindCanComeLast(inp: Inputs)
    requires inp.surplus == 90.0 && inp.slack == 100.0
    ensures var far, near := Goal("far", "House", 1800.0, 2), Goal("near", "Bike", 1200.0, 12);
            && Shortfall(inp.surplus, far) == 810.0 && Shortfall(inp.surplus, near) == 10.0
            && Before(GoalOption(inp, near).value, GoalOption(inp, far).value)
  {
    var far, near := Goal("far", "House", 1800.0, 2), Goal("near", "Bike", 1200.0, 12);
    WholePace(1800.0, 2, 900);
    WholePace(1200.0, 12, 100);
    assert 810.0 == Cents(81000) && 10.0 == Cents(1000);
    Round2Fixed(810.0);
    Round2Fixed(10.0);
    WholeMonths(1200.0, 100.0, 12);
    WholeMonths(1200.0, 200.0, 6);
    WholeMonths(1800.0, 900.0, 2);
    MonthsNonNegative(1800.0, 1000.0);
  }

  /** The same household, its matches, debts, headroom and goals read back in any order. */
  ghost predicate IsRereading(again: Inputs, inp: Inputs) {
    && again == inp.(matches := again.matches, debts := again.debts, headroom := again.headroom, goals := again.goals)
    && multiset(again.matches) == multiset(inp.matches) && multiset(again.debts) == multiset(inp.debts)
    && multiset(again.headroom) == multiset(inp.headroom) && multiset(again.goals) == multiset(inp.goals)
  }

  lemma {:induction false} OfferedAppends<T>(s: seq<T>, t: seq<T>, offer: T -> Option<Opt>)
    ensures Offered(s + t, offer) == Offered(s, offer) + Offered(t, offer)
  {
    if |t| == 0 {
      assert s + t == s;
    } else {
      var init, last := t[..|t| - 1], t[|t| - 1];
      OfferedAppends(s, init, offer);
      assert (s + t)[..|s + t| - 1] == s + init && (s + t)[|s + t| - 1] == last;
      Regrouped(Offered(s, offer), Offered(init, offer), AsSeq(offer(last)));
    }
  }

  lemma OfferedWithout<T>(xs: seq<T>, x: T, ys: seq<T>, offer: T -> Option<Opt>)
    ensures multiset(Offered(xs + [x] + ys, offer)) == multiset(Offered(xs + ys, offer)) + multiset(AsSeq(offer(x)))
  {
    OfferedAppends(xs + [x], ys, offer);
    OfferedAppends(xs, ys, offer);
    assert (xs + [x])[..|xs|] == xs;
  }

  /** What is offered does not depend on the order of the inputs. */
  lemma {:induction false} OfferedPermuted<T(!new)>(xs: seq<T>, ys: seq<T>, offer: T -> Option<Opt>)
    requires multiset(xs) == multiset(ys)
    ensures multiset(Offered(xs, offer)) == multiset(Offered(ys, offer))
  {
    if |xs| == 0 {
      assert |ys| == |multiset(ys)|;
    } else {
      var init, last := xs[..|xs| - 1], xs[|xs| - 1];
      assert xs == init + [last] && last in multiset(ys);
      var j :| 0 <= j < |ys| && ys[j] == last;
      assert ys == ys[..j] + [last] + ys[j + 1..];
      TakenOut(ys[..j], last, ys[j + 1..], init);
      OfferedPermuted(init, ys[..j] + ys[j + 1..], offer);
      OfferedWithout(ys[..j], last, ys[j + 1..], offer);
    }
  }

  lemma {:induction false} OfferedAlike<T>(xs: seq<T>, f: T -> Option<Opt>, g: T -> Option<Opt>)
    requires forall x :: x in xs ==> f(x) == g(x)
    ensures Offered(xs, f) == Offered(xs, g)
  {
    if |xs| > 0 {
      assert forall x :: x in xs[..|xs| - 1] ==> x in xs;
      OfferedAlike(xs[..|xs| - 1], f, g);
    }
  }

  lemma OfferedReread<T(!new)>(xs: seq<T>, ys: seq<T>, f: T -> Option<Opt>, g: T -> Option<Opt>)
    requires multiset(xs) == multiset(ys) && forall x :: x in xs ==> f(x) == g(x)
    ensures multiset(Offered(xs, f)) == multiset(Offered(ys, g))
  {
    OfferedAlike(xs, f, g);
    OfferedPermuted(xs, ys, g);
  }

  lemma DebtsReread(inp: Inputs, again: Inputs)
    requires IsRereading(again, inp)
    ensures multiset(Offered(inp.debts, DebtOffers(inp))) == multiset(Offered(again.debts, DebtOffers(again)))
  {
    assert forall d :: DebtOption(inp, d) == DebtOption(again, d);
    OfferedReread(inp.debts, again.debts, DebtOffers(inp), DebtOffers(again));
  }

  lemma GoalsReread(inp: Inputs, again: Inputs)
    requires IsRereading(again, inp)
    ensures multiset(Offered(inp.goals, GoalOffers(inp))) == multiset(Offered(again.goals, GoalOffers(again)))
  {
    assert forall g :: GoalOption(inp, g) == GoalOption(again, g);
    OfferedReread(inp.goals, again.goals, GoalOffers(inp), GoalOffers(again));
  }

  lemma MatchesReread(inp: Inputs, again: Inputs)
    requires IsRereading(again, inp)
    ensures multiset(Offered(inp.matches, MatchOffers(inp))) == multiset(Offered(again.matches, MatchOffers(again)))
  {
    assert forall m :: MatchOption(inp, m) == MatchOption(again, m);
    OfferedReread(inp.matches, again.matches, MatchOffers(inp), MatchOffers(again));
  }

  lemma OthersReread(inp: Inputs, again: Inputs)
    requires IsRereading(again, inp)
    ensures multiset(Offered(inp.headroom, HeadroomOffers())) == multiset(Offered(again.headroom, HeadroomOffers()))
    ensures FullFundOption(inp) == FullFundOption(again) && TaxableOption(inp) == TaxableOption(again)
  {
    OfferedReread(inp.headroom, again.headroom, HeadroomOffers(), HeadroomOffers());
  }

  /** Reading the household back in another order offers the same options. */
  lemma CandidatesReread(inp: Inputs, again: Inputs)
    requires IsRereading(again, inp)
    ensures multiset(Candidates(inp)) == multiset(Candidates(again))
  {
    MatchesReread(inp, again);
    DebtsReread(inp, again);
    GoalsReread(inp, again);
    OthersReread(inp, again);
    TogetherElements(inp);
    TogetherElements(again);
  }

  lemma TogetherElements(inp: Inputs)
    ensures multiset(Candidates(inp))
         == multiset(Offered(inp.matches, MatchOffers(inp))) + multiset(Offered(inp.debts, DebtOffers(inp)))
            + multiset(AsSeq(FullFundOption(inp))) + multiset(Offered(inp.headroom, HeadroomOffers()))
            + multiset(Offered(inp.goals, GoalOffers(inp))) + multiset(AsSeq(TaxableOption(inp)))
  {
    SixElements(Offered(inp.matches, MatchOffers(inp)), Offered(inp.debts, DebtOffers(inp)), AsSeq(FullFundOption(inp)),
                Offered(inp.headroom, HeadroomOffers()), Offered(inp.goals, GoalOffers(inp)), AsSeq(TaxableOption(inp)));
  }

  lemma SixElements<T>(a: seq<T>, b: seq<T>, c: seq<T>, d: seq<T>, e: seq<T>, f: seq<T>)
    ensures multiset(a + b + c + d + e + f)
         == multiset(a) + multiset(b) + multiset(c) + multiset(d) + multiset(e) + multiset(f)
  {
  }

  /** Two loads of the page agree whenever nothing ties, whatever order the household was read in. */
  lemma RankingIgnoresReadingOrder(x: seq<Opt>, y: seq<Opt>, inp: Inputs, again: Inputs, muted: set<string>)
    requires IsRereading(again, inp) && IsRanking(x, inp, muted) && IsRanking(y, again, muted)
    requires AllPlacesDiffer(Unmuted(Candidates(inp), muted))
    ensures x == y
  {
    assert StarterOption(inp) == StarterOption(again);
    if !HeldBack(inp, muted) {
      CandidatesReread(inp, again);
      KeepPermuted(Candidates(inp), Candidates(again), NotMuted(muted));
      AllPlacesDifferIsNoTies(Unmuted(Candidates(inp), muted));
      OneSortWithoutTies(Unmuted(Candidates(inp), muted), x, y, Before);
    }
  }

  /** The published list is determined exactly when no two different options sit in the same place. */
  lemma DeterminedExactlyWhen(inp: Inputs, muted: set<string>)
    requires !HeldBack(inp, muted)
    ensures (forall x, y :: IsRanking(x, inp, muted) && IsRanking(y, inp, muted) ==> x == y)
       <==> AllPlacesDiffer(Unmuted(Candidates(inp), muted))
  {
    var shown := Unmuted(Candidates(inp), muted);
    BeforeIsStrictWeakOrder();
    AllPlacesDifferIsNoTies(shown);
    if AllPlacesDiffer(shown) {
      forall x, y | IsRanking(x, inp, muted) && IsRanking(y, inp, muted)
        ensures x == y
      {
        OneSortWithoutTies(shown, x, y, Before);
      }
    } else {
      var x, y := TwoSortsWithTies(shown, Before);
      assert IsRanking(x, inp, muted) && IsRanking(y, inp, muted);
    }
  }

  /**
   So the claim that no two options compare equal does not hold: whenever a
   household has two debts of the same name whose rates nobody knows, two
   different lists satisfy the published rule.
   */
  lemma SameNameDebtsTie(inp: Inputs, muted: set<string>, d: Debt, e: Debt)
    requires !HeldBack(inp, muted) && d in inp.debts && e in inp.debts
    requires d.apr.None? && e.apr.None? && d.name == e.name && d.id != e.id
    requires DebtKey(d) !in muted && DebtKey(e) !in muted
    ensures exists x, y :: IsRanking(x, inp, muted) && IsRanking(y, inp, muted) && x != y
  {
    var a, b := DebtOption(inp, d), DebtOption(inp, e);
    DebtKeysDiffer(d, e);
    OfferedMembers(inp.debts, DebtOffers(inp), a);
    OfferedMembers(inp.debts, DebtOffers(inp), b);
    assert a in Candidates(inp) && b in Candidates(inp);
    assert SamePlace(a, b);
    DeterminedExactlyWhen(inp, muted);
  }

  lemma DebtKeysDiffer(d: Debt, e: Debt)
    requires d.id != e.id
    ensures DebtKey(d) != DebtKey(e)
  {
    var kind := "debt_paydown";
    assert d.id != "" ==> DebtKey(d)[|kind| + 1..] == d.id;
    assert e.id != "" ==> DebtKey(e)[|kind| + 1..] == e.id;
  }

  lemma {:induction false} KeepTwice<T(!new)>(s: seq<T>, p: T -> bool, q: T -> bool, both: T -> bool)
    requires forall e :: both(e) <==> p(e) && q(e)
    ensures Keep(Keep(s, p), q) == Keep(s, both)
  {
    if |s| > 0 {
      KeepTwice(s[..|s| - 1], p, q, both);
      if p(s[|s| - 1]) {
        KeepAppends(Keep(s[..|s| - 1], p), [s[|s| - 1]], q);
        assert [s[|s| - 1]][..0] == [];
      }
    }
  }

  function OtherThan(key: string): Opt -> bool {
    (o: Opt) => o.key != key
  }

  lemma MutedToo(options: seq<Opt>, muted: set<string>, key: string)
    ensures Unmuted(options, muted + {key}) == Keep(Unmuted(options, muted), OtherThan(key))
  {
    KeepTwice(options, NotMuted(muted), OtherThan(key), NotMuted(muted + {key}));
  }

  lemma RankingUnlessHeldBack(inp: Inputs, muted: set<string>)
    requires !HeldBack(inp, muted)
    ensures forall out :: IsRanking(out, inp, muted) <==> SortedPermutation(out, Unmuted(Candidates(inp), muted), Before)
  {
  }

  lemma MutedFromSort(options: seq<Opt>, before: seq<Opt>, muted: set<string>, key: string)
    requires SortedPermutation(before, Unmuted(options, muted), Before)
    ensures SortedPermutation(Keep(before, OtherThan(key)), Unmuted(options, muted + {key}), Before)
    ensures (forall after :: SortedPermutation(after, Unmuted(options, muted + {key}), Before) ==>
                               after == Keep(before, OtherThan(key)))
       <==> AllPlacesDiffer(Unmuted(options, muted + {key}))
  {
    var shown := Unmuted(options, muted);
    MutedToo(options, muted, key);
    BeforeIsStrictWeakOrder();
    AllPlacesDifferIsNoTies(Keep(shown, OtherThan(key)));
    KeepCommutesWithSort(shown, before, OtherThan(key), Before);
    KeptSortDeterminedExactlyWhen(shown, before, OtherThan(key), Before);
  }

  lemma RankingWhileHeldBack(inp: Inputs, muted: set<string>)
    requires HeldBack(inp, muted)
    ensures forall out :: IsRanking(out, inp, muted) <==> out == [StarterOption(inp).value]
  {
  }

  lemma MutingWhileHeldBack(before: seq<Opt>, inp: Inputs, muted: set<string>, key: string)
    requires HeldBack(inp, muted) && IsRanking(before, inp, muted) && StarterOption(inp).value.key != key
    ensures forall after :: IsRanking(after, inp, muted + {key}) <==> after == Keep(before, OtherThan(key))
  {
    RankingWhileHeldBack(inp, muted);
    RankingWhileHeldBack(inp, muted + {key});
    KeepOne(StarterOption(inp), OtherThan(key));
  }

  lemma MutingInTheWaterfall(before: seq<Opt>, inp: Inputs, muted: set<string>, key: string)
    requires !HeldBack(inp, muted) && IsRanking(before, inp, muted)
    ensures IsRanking(Keep(before, OtherThan(key)), inp, muted + {key})
    ensures (forall after :: IsRanking(after, inp, muted + {key}) ==> after == Keep(before, OtherThan(key)))
       <==> AllPlacesDiffer(Unmuted(Candidates(inp), muted + {key}))
  {
    RankingUnlessHeldBack(inp, muted);
    RankingUnlessHeldBack(inp, muted + {key});
    MutedFromSort(Candidates(inp), before, muted, key);
  }

  /**
   Muting an option takes it out of the list and leaves the rest a list that
   may be shown; and that is the list shown, whichever was shown before,
   exactly when no two of the options left sit in the same place.
   */
  lemma MutingRemovesOnlyThat(before: seq<Opt>, inp: Inputs, muted: set<string>, key: string)
    requires IsRanking(before, inp, muted)
    requires HeldBack(inp, muted) ==> StarterOption(inp).value.key != key
    ensures IsRanking(Keep(before, OtherThan(key)), inp, muted + {key})
    ensures (forall after :: IsRanking(after, inp, muted + {key}) ==> after == Keep(before, OtherThan(key)))
       <==> HeldBack(inp, muted) || AllPlacesDiffer(Unmuted(Candidates(inp), muted + {key}))
  {
    if HeldBack(inp, muted) {
      MutingWhileHeldBack(before, inp, muted, key);
    } else {
      MutingInTheWaterfall(before, inp, muted, key);
    }
  }
}
