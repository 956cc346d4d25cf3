/**
 Saved plans: a request written out as decimal strings and read back. Money and
 percentages are written to the cent, rates in full, and what was absent stays
 absent.
 */
module SavedPlans {
  import opened Decimals
  import opened Wrappers
  import opened Text
  import PlanInputs

  /** A decimal: coef with that many digits after the point. */
  datatype Dec = Dec(coef: int, places: nat)

  function Pow10(n: nat): (p: nat)
    ensures p > 0
  {
    if n == 0 then 1 else 10 * Pow10(n - 1)
  }

  function Amount(d: Dec): real {
    d.coef as real / Pow10(d.places) as real
  }

  /** The same amount without trailing zeros after the point. */
  function Normal(d: Dec): Dec
    decreases d.places
  {
    if d.places > 0 && d.coef % 10 == 0 then Normal(Dec(d.coef / 10, d.places - 1)) else d
  }

  /** The nearest amount in cents. */
  function ToCents(d: Dec): Dec {
    Dec(Nearest(Amount(d) * 100.0), 2)
  }

  // ------------------------------------------------------------ writing and reading

  /** The last so many digits of a number, zeros included. */
  function Padded(n: nat, width: nat): (s: string)
    ensures |s| == width && AllDigits(s)
  {
    if width == 0 then [] else Padded(n / 10, width - 1) + [DigitChar(n % 10)]
  }

  /** What is left of a number without its last so many digits. */
  function Dropped(n: nat, width: nat): nat {
    if width == 0 then n else Dropped(n / 10, width - 1)
  }

  function WriteUnsigned(n: nat, places: nat): string {
    if places == 0 then Digits(n) else Digits(Dropped(n, places)) + ['.'] + Padded(n, places)
  }

  function Write(d: Dec): string {
    if d.coef < 0 then ['-'] + WriteUnsigned(-d.coef, d.places) else WriteUnsigned(d.coef, d.places)
  }

  /** To the cent, always two digits after the point. */
  function StringFixed2(d: Dec): string {
    Write(ToCents(d))
  }

  /** In full, without trailing zeros. */
  function String(d: Dec): string {
    Write(Normal(d))
  }

  predicate IsSign(c: char) {
    c == '-' || c == '+'
  }

  /** Where the point is, or the end. */
  function DotAt(s: string): (i: nat)
    ensures i <= |s| && (i < |s| ==> s[i] == '.') && forall k :: 0 <= k < i ==> s[k] != '.'
  {
    if |s| == 0 || s[0] == '.' then 0 else 1 + DotAt(s[1..])
  }

  function ParseUnsigned(s: string): Option<Dec> {
    var dot := DotAt(s);
    var fraction := if dot < |s| then s[dot + 1..] else [];
    if s[..dot] + fraction == [] || !AllDigits(s[..dot] + fraction) then None
    else Some(Dec(Value(s[..dot] + fraction), |fraction|))
  }

  function Parse(s: string): Option<Dec> {
    if |s| > 0 && IsSign(s[0]) then
      var d := ParseUnsigned(s[1..]);
      if s[0] == '-' && d.Some? then Some(Dec(-d.value.coef, d.value.places)) else d
    else ParseUnsigned(s)
  }

  lemma ValueOneMore(s: string, d: nat)
    requires AllDigits(s) && d < 10
    ensures Value(s + [DigitChar(d)]) == Value(s) * 10 + d
  {
    assert (s + [DigitChar(d)])[..|s|] == s;
  }

  /** The digits before the point and those after it make up the number. */
  lemma {:induction false} ValueAcrossPoint(n: nat, width: nat)
    ensures Value(Digits(Dropped(n, width)) + Padded(n, width)) == n
  {
    if width == 0 {
      DigitsRoundTrip(n);
      assert Digits(n) + [] == Digits(n);
    } else {
      var init := Digits(Dropped(n / 10, width - 1)) + Padded(n / 10, width - 1);
      ValueAcrossPoint(n / 10, width - 1);
      assert Digits(Dropped(n, width)) + Padded(n, width) == init + [DigitChar(n % 10)];
      ValueOneMore(init, n % 10);
    }
  }

  /** Digits around a point are read as one number with that many places. */
  lemma ParseAcrossPoint(whole: string, fraction: string)
    requires |whole| > 0 && AllDigits(whole) && AllDigits(fraction)
    ensures ParseUnsigned(whole + ['.'] + fraction) == Some(Dec(Value(whole + fraction), |fraction|))
  {
    var s := whole + ['.'] + fraction;
    assert DotAt(s) == |whole| by {
      assert s[|whole|] == '.';
      assert forall k :: 0 <= k < |whole| ==> IsDigit(s[k]);
    }
    assert s[..|whole|] == whole && s[|whole| + 1..] == fraction;
  }

  lemma ParseWrittenUnsigned(n: nat, places: nat)
    ensures ParseUnsigned(WriteUnsigned(n, places)) == Some(Dec(n, places))
  {
    if places == 0 {
      var s := Digits(n);
      DigitsRoundTrip(n);
      assert DotAt(s) == |s|;
      assert s[..|s|] + [] == s;
    } else {
      ParseAcrossPoint(Digits(Dropped(n, places)), Padded(n, places));
      ValueAcrossPoint(n, places);
    }
  }

  lemma WrittenStartsWithDigit(n: nat, places: nat)
    ensures |WriteUnsigned(n, places)| > 0 && IsDigit(WriteUnsigned(n, places)[0])
  {
  }

  /** Reading what was written gives the decimal back, digit for digit. */
  lemma ParseWritten(d: Dec)
    ensures Parse(Write(d)) == Some(d)
  {
    var n := if d.coef < 0 then -d.coef else d.coef;
    ParseWrittenUnsigned(n, d.places);
    WrittenStartsWithDigit(n, d.places);
    if d.coef < 0 {
      assert Write(d)[1..] == WriteUnsigned(n, d.places);
    }
  }

  lemma {:induction false} NormalSameAmount(d: Dec)
    ensures Amount(Normal(d)) == Amount(d)
    decreases d.places
  {
    if d.places > 0 && d.coef % 10 == 0 {
      NormalSameAmount(Dec(d.coef / 10, d.places - 1));
      CancelTen(d.coef / 10, Pow10(d.places - 1));
    }
  }

  lemma CancelTen(k: int, p: nat)
    requires p > 0
    ensures (10 * k) as real / (10 * p) as real == k as real / p as real
  {
    var q := k as real / p as real;
    assert q * p as real == k as real;
    assert (10 * k) as real == q * (10 * p) as real;
  }

  lemma {:induction false} NormalIdempotent(d: Dec)
    ensures Normal(Normal(d)) == Normal(d)
    decreases d.places
  {
    if d.places > 0 && d.coef % 10 == 0 { NormalIdempotent(Dec(d.coef / 10, d.places - 1)); }
  }

  lemma ToCentsIsRound2(d: Dec)
    ensures Amount(ToCents(d)) == Round2(Amount(d))
  {
    assert Pow10(2) == 10 * Pow10(1) == 100;
  }

  lemma ToCentsIdempotent(d: Dec)
    ensures ToCents(ToCents(d)) == ToCents(d)
  {
    ToCentsIsRound2(d);
    var n := Nearest(Amount(d) * 100.0);
    assert Amount(ToCents(d)) * 100.0 == n as real;
    NearestOfInt(n);
  }

  /** Writing to the cent loses nothing exactly when there is nothing below a cent. */
  lemma CentsKeptExactlyWhen(d: Dec)
    ensures Amount(ToCents(d)) == Amount(d) <==> WholeCents(Amount(d))
  {
    ToCentsIsRound2(d);
    Round2Near(Amount(d));
    if WholeCents(Amount(d)) { Round2Fixed(Amount(d)); }
  }

  // ------------------------------------------------------------------- saved plans

  type AccountId = PlanInputs.AccountId

  datatype Line = Line(account: AccountId, lumpPct: Dec, monthlyPct: Dec, rate: Option<Dec>)

  datatype Request = Request(
    lump: Dec, monthly: Dec, horizonYears: int, target: Option<Dec>, familyHsa: bool, lines: seq<Line>)

  datatype StoredLine = StoredLine(account: AccountId, lumpPct: string, monthlyPct: string, rate: Option<string>)

  datatype Stored = Stored(
    lump: string, monthly: string, horizonYears: int, target: Option<string>, familyHsa: bool, lines: seq<StoredLine>)

  function StoreLine(l: Line): StoredLine {
    StoredLine(l.account, StringFixed2(l.lumpPct), StringFixed2(l.monthlyPct),
               if l.rate.Some? then Some(String(l.rate.value)) else None)
  }

  function StoreLines(lines: seq<Line>): (s: seq<StoredLine>)
    ensures |s| == |lines| && forall i :: 0 <= i < |s| ==> s[i] == StoreLine(lines[i])
  {
    seq(|lines|, i requires 0 <= i < |lines| => StoreLine(lines[i]))
  }

  function StoreOf(req: Request): Stored {
    Stored(StringFixed2(req.lump), StringFixed2(req.monthly), req.horizonYears,
           if req.target.Some? then Some(StringFixed2(req.target.value)) else None,
           req.familyHsa, StoreLines(req.lines))
  }

  /** Reads back with two decimals, as the amount rounded to the cent. */
  predicate WritesMoney(text: string, d: Dec) {
    Parse(text).Some? && Parse(text).value.places == 2 && Amount(Parse(text).value) == Round2(Amount(d))
  }

  /** Reads back as exactly the amount. */
  predicate WritesInFull(text: string, d: Dec) {
    Parse(text).Some? && Amount(Parse(text).value) == Amount(d)
  }

  predicate WritesLine(s: StoredLine, l: Line) {
    && s.account == l.account && WritesMoney(s.lumpPct, l.lumpPct) && WritesMoney(s.monthlyPct, l.monthlyPct)
    && (s.rate.Some? <==> l.rate.Some?) && (l.rate.Some? ==> WritesInFull(s.rate.value, l.rate.value))
  }

  /** The saved plan, field by field: money and percentages to the cent, rates in full, what is absent absent. */
  predicate WritesPlan(saved: Stored, req: Request) {
    && WritesMoney(saved.lump, req.lump) && WritesMoney(saved.monthly, req.monthly)
    && saved.horizonYears == req.horizonYears && saved.familyHsa == req.familyHsa
    && (saved.target.Some? <==> req.target.Some?) && (req.target.Some? ==> WritesMoney(saved.target.value, req.target.value))
    && |saved.lines| == |req.lines| && forall i :: 0 <= i < |req.lines| ==> WritesLine(saved.lines[i], req.lines[i])
  }

  lemma MoneyIsWritten(d: Dec)
    ensures WritesMoney(StringFixed2(d), d)
  {
    ParseWritten(ToCents(d));
    ToCentsIsRound2(d);
  }

  lemma FullIsWritten(d: Dec)
    ensures WritesInFull(String(d), d)
  {
    ParseWritten(Normal(d));
    NormalSameAmount(d);
  }

  lemma LineIsWritten(l: Line)
    ensures WritesLine(StoreLine(l), l)
  {
    MoneyIsWritten(l.lumpPct);
    MoneyIsWritten(l.monthlyPct);
    if l.rate.Some? { FullIsWritten(l.rate.value); }
  }

  lemma PlanIsWritten(req: Request, saved: Stored)
    requires saved == StoreOf(req)
    ensures WritesPlan(saved, req)
  {
    MoneyIsWritten(req.lump);
    MoneyIsWritten(req.monthly);
    if req.target.Some? { MoneyIsWritten(req.target.value); }
    forall i | 0 <= i < |req.lines|
      ensures WritesLine(saved.lines[i], req.lines[i])
    {
      LineIsWritten(req.lines[i]);
    }
  }

  method WriteLine(l: Line) returns (out: StoredLine)
    ensures out == StoreLine(l)
  {
    var rate: Option<string> := None;
    if l.rate.Some? { rate := Some(String(l.rate.value)); }
    out := StoredLine(l.account, StringFixed2(l.lumpPct), StringFixed2(l.monthlyPct), rate);
  }

  method WriteLines(lines: seq<Line>) returns (out: seq<StoredLine>)
    ensures out == StoreLines(lines)
  {
    out := [];
    for i := 0 to |lines|
      invariant |out| == i && forall k :: 0 <= k < i ==> out[k] == StoreLine(lines[k])
    {
      var line := WriteLine(lines[i]);
      out := out + [line];
    }
  }

  method Store(req: Request) returns (out: Stored)
    ensures out == StoreOf(req)
    ensures WritesPlan(out, req)
  {
    var lines := WriteLines(req.lines);
    var target: Option<string> := None;
    if req.target.Some? { target := Some(StringFixed2(req.target.value)); }
    out := Stored(StringFixed2(req.lump), StringFixed2(req.monthly), req.horizonYears, target, req.familyHsa, lines);
    PlanIsWritten(req, out);
  }

  /** Which figure of a saved plan cannot be read. */
  datatype Field = LumpField | MonthlyField | TargetField | LumpPctField(i: nat) | MonthlyPctField(i: nat) | RateField(i: nat)

  datatype Fault = WrongVersion(found: int) | Unreadable | Missing(at: Field) | NotDecimal(at: Field)

  datatype Loaded<+T> = Loaded(value: T) | Refused(fault: Fault)

  function ParseMoney(raw: string, at: Field): Loaded<Dec> {
    if raw == "" then Refused(Missing(at))
    else
      match Parse(raw)
      case None => Refused(NotDecimal(at))
      case Some(d) => Loaded(d)
  }

  function ParseOptional(raw: Option<string>, at: Field): Loaded<Option<Dec>> {
    match raw
    case None => Loaded(None)
    case Some(s) =>
      match ParseMoney(s, at)
      case Refused(fault) => Refused(fault)
      case Loaded(d) => Loaded(Some(d))
  }

  function LoadLine(l: StoredLine, i: nat): Loaded<Line> {
    var lump, monthly, rate :=
      ParseMoney(l.lumpPct, LumpPctField(i)), ParseMoney(l.monthlyPct, MonthlyPctField(i)), ParseOptional(l.rate, RateField(i));
    if lump.Refused? then Refused(lump.fault)
    else if monthly.Refused? then Refused(monthly.fault)
    else if rate.Refused? then Refused(rate.fault)
    else Loaded(Line(l.account, lump.value, monthly.value, rate.value))
  }

  /** The first n lines read in order, or the first fault. */
  function LoadAll<S, T>(xs: seq<S>, load: (S, nat) -> Loaded<T>, n: nat): Loaded<seq<T>>
    requires n <= |xs|
  {
    if n == 0 then Loaded([])
    else
      match LoadAll(xs, load, n - 1)
      case Refused(fault) => Refused(fault)
      case Loaded(before) =>
        match load(xs[n - 1], n - 1)
        case Refused(fault) => Refused(fault)
        case Loaded(x) => Loaded(before + [x])
  }

  function RequestOf(saved: Stored): Loaded<Request> {
    var lump, monthly, target :=
      ParseMoney(saved.lump, LumpField), ParseMoney(saved.monthly, MonthlyField), ParseOptional(saved.target, TargetField);
    if lump.Refused? then Refused(lump.fault)
    else if monthly.Refused? then Refused(monthly.fault)
    else if target.Refused? then Refused(target.fault)
    else
      match LoadAll(saved.lines, LoadLine, |saved.lines|)
      case Refused(fault) => Refused(fault)
      case Loaded(lines) =>
        Loaded(Request(lump.value, monthly.value, saved.horizonYears, target.value, saved.familyHsa, lines))
  }

  lemma {:induction false} FaultStands<S, T>(xs: seq<S>, load: (S, nat) -> Loaded<T>, n: nat, m: nat)
    requires n <= m <= |xs| && LoadAll(xs, load, n).Refused?
    ensures LoadAll(xs, load, m) == LoadAll(xs, load, n)
  {
    if n < m { FaultStands(xs, load, n, m - 1); }
  }

  /** The text a field is read from, if the plan has that field. */
  function TextAt(saved: Stored, at: Field): Option<string> {
    match at
    case LumpField => Some(saved.lump)
    case MonthlyField => Some(saved.monthly)
    case TargetField => saved.target
    case LumpPctField(i) => if i < |saved.lines| then Some(saved.lines[i].lumpPct) else None
    case MonthlyPctField(i) => if i < |saved.lines| then Some(saved.lines[i].monthlyPct) else None
    case RateField(i) => if i < |saved.lines| then saved.lines[i].rate else None
  }

  /** The order fields are read in. */
  function ReadingOrder(at: Field): nat {
    match at
    case LumpField => 0
    case MonthlyField => 1
    case TargetField => 2
    case LumpPctField(i) => 3 * i + 3
    case MonthlyPctField(i) => 3 * i + 4
    case RateField(i) => 3 * i + 5
  }

  /** Absent where it may be, or a decimal. */
  predicate Readable(text: Option<string>) {
    text.Some? ==> text.value != "" && Parse(text.value).Some?
  }

  ghost predicate ReadableBefore(saved: Stored, n: nat) {
    forall f :: ReadingOrder(f) < n ==> Readable(TextAt(saved, f))
  }

  /** The first field that cannot be read: left empty, or not a decimal. */
  ghost predicate IsFirstFault(saved: Stored, fault: Fault) {
    && (fault.Missing? || fault.NotDecimal?)
    && TextAt(saved, fault.at).Some? && !Readable(TextAt(saved, fault.at))
    && (fault.Missing? <==> TextAt(saved, fault.at).value == "")
    && ReadableBefore(saved, ReadingOrder(fault.at))
  }

  lemma ReadField(saved: Stored, at: Field, text: string)
    requires TextAt(saved, at) == Some(text) && ReadableBefore(saved, ReadingOrder(at))
    ensures ParseMoney(text, at).Loaded? <==> Readable(Some(text))
    ensures ParseMoney(text, at).Refused? ==> IsFirstFault(saved, ParseMoney(text, at).fault)
  {
  }

  lemma ReadOptionalField(saved: Stored, at: Field)
    requires ReadableBefore(saved, ReadingOrder(at))
    ensures ParseOptional(TextAt(saved, at), at).Loaded? <==> Readable(TextAt(saved, at))
    ensures ParseOptional(TextAt(saved, at), at).Refused? ==>
              IsFirstFault(saved, ParseOptional(TextAt(saved, at), at).fault)
  {
    if TextAt(saved, at).Some? { ReadField(saved, at, TextAt(saved, at).value); }
  }

  lemma OneMoreReadable(saved: Stored, at: Field)
    requires ReadableBefore(saved, ReadingOrder(at)) && Readable(TextAt(saved, at))
    ensures ReadableBefore(saved, ReadingOrder(at) + 1)
  {
  }

  lemma ReadableInLine(saved: Stored, i: nat)
    requires ReadableBefore(saved, 3 * i + 3) && Readable(TextAt(saved, LumpPctField(i)))
    ensures ReadableBefore(saved, 3 * i + 4)
    ensures Readable(TextAt(saved, MonthlyPctField(i))) ==> ReadableBefore(saved, 3 * i + 5)
  {
    OneMoreReadable(saved, LumpPctField(i));
    if Readable(TextAt(saved, MonthlyPctField(i))) { OneMoreReadable(saved, MonthlyPctField(i)); }
  }

  lemma LineFault(saved: Stored, i: nat)
    requires i < |saved.lines| && ReadableBefore(saved, 3 * i + 3) && LoadLine(saved.lines[i], i).Refused?
    ensures IsFirstFault(saved, LoadLine(saved.lines[i], i).fault)
  {
    var l := saved.lines[i];
    ReadField(saved, LumpPctField(i), l.lumpPct);
    if ParseMoney(l.lumpPct, LumpPctField(i)).Loaded? {
      ReadableInLine(saved, i);
      ReadField(saved, MonthlyPctField(i), l.monthlyPct);
      if ParseMoney(l.monthlyPct, MonthlyPctField(i)).Loaded? {
        ReadOptionalField(saved, RateField(i));
      }
    }
  }

  ghost predicate AllLoaded<S, T>(xs: seq<S>, load: (S, nat) -> Loaded<T>, n: nat)
    requires n <= |xs|
  {
    forall i: nat :: i < n ==> load(xs[i], i).Loaded?
  }

  /** The k-th is the first that does not load, and this is its fault. */
  ghost predicate RefusesFirst<S, T>(xs: seq<S>, load: (S, nat) -> Loaded<T>, k: nat, fault: Fault) {
    k < |xs| && AllLoaded(xs, load, k) && load(xs[k], k).Refused? && load(xs[k], k).fault == fault
  }

  lemma {:induction false} FirstRefused<S, T>(xs: seq<S>, load: (S, nat) -> Loaded<T>, n: nat)
    requires n <= |xs|
    ensures LoadAll(xs, load, n).Loaded? ==> AllLoaded(xs, load, n)
    ensures LoadAll(xs, load, n).Refused? ==> exists k: nat :: RefusesFirst(xs, load, k, LoadAll(xs, load, n).fault)
  {
    if n > 0 {
      FirstRefused(xs, load, n - 1);
      if LoadAll(xs, load, n - 1).Loaded? && load(xs[n - 1], n - 1).Refused? {
        assert RefusesFirst(xs, load, n - 1, load(xs[n - 1], n - 1).fault);
      }
    }
  }

  /** All three of a line's figures. */
  predicate LineReadable(saved: Stored, i: nat) {
    Readable(TextAt(saved, LumpPctField(i))) && Readable(TextAt(saved, MonthlyPctField(i))) && Readable(TextAt(saved, RateField(i)))
  }

  lemma LoadedLineReadable(saved: Stored, i: nat)
    requires i < |saved.lines| && LoadLine(saved.lines[i], i).Loaded?
    ensures LineReadable(saved, i)
  {
  }

  lemma ReadableLines(saved: Stored, n: nat)
    requires ReadableBefore(saved, 3) && forall i: nat :: i < n ==> LineReadable(saved, i)
    ensures ReadableBefore(saved, 3 * n + 3)
  {
    forall f | ReadingOrder(f) < 3 * n + 3
      ensures Readable(TextAt(saved, f))
    {
      match f
      case LumpPctField(i) => assert LineReadable(saved, i);
      case MonthlyPctField(i) => assert LineReadable(saved, i);
      case RateField(i) => assert LineReadable(saved, i);
      case _ => assert ReadingOrder(f) < 3;
    }
  }

  lemma LoadedLinesReadable(saved: Stored, n: nat)
    requires n <= |saved.lines| && ReadableBefore(saved, 3) && AllLoaded(saved.lines, LoadLine, n)
    ensures ReadableBefore(saved, 3 * n + 3)
  {
    forall i: nat | i < n
      ensures LineReadable(saved, i)
    {
      LoadedLineReadable(saved, i);
    }
    ReadableLines(saved, n);
  }

  lemma LinesRead(saved: Stored, lines: Loaded<seq<Line>>)
    requires ReadableBefore(saved, 3) && lines == LoadAll(saved.lines, LoadLine, |saved.lines|)
    ensures if lines.Loaded? then ReadableBefore(saved, 3 * |saved.lines| + 3) else IsFirstFault(saved, lines.fault)
  {
    FirstRefused(saved.lines, LoadLine, |saved.lines|);
    if lines.Loaded? {
      LoadedLinesReadable(saved, |saved.lines|);
    } else {
      var k: nat :| RefusesFirst(saved.lines, LoadLine, k, lines.fault);
      LoadedLinesReadable(saved, k);
      LineFault(saved, k);
    }
  }

  lemma LinesReadable(saved: Stored)
    requires ReadableBefore(saved, 3 * |saved.lines| + 3)
    ensures forall f :: Readable(TextAt(saved, f))
  {
    forall f
      ensures Readable(TextAt(saved, f))
    {
      if ReadingOrder(f) >= 3 * |saved.lines| + 3 { assert TextAt(saved, f) == None; }
    }
  }

  lemma FirstFieldsRead(saved: Stored)
    ensures var lump, monthly, target := ParseMoney(saved.lump, LumpField), ParseMoney(saved.monthly, MonthlyField),
                                         ParseOptional(saved.target, TargetField);
            && (lump.Refused? ==> IsFirstFault(saved, lump.fault))
            && (lump.Loaded? && monthly.Refused? ==> IsFirstFault(saved, monthly.fault))
            && (lump.Loaded? && monthly.Loaded? && target.Refused? ==> IsFirstFault(saved, target.fault))
            && (lump.Loaded? && monthly.Loaded? && target.Loaded? ==> ReadableBefore(saved, 3))
  {
    ReadField(saved, LumpField, saved.lump);
    if Readable(Some(saved.lump)) {
      OneMoreReadable(saved, LumpField);
      ReadField(saved, MonthlyField, saved.monthly);
      if Readable(Some(saved.monthly)) {
        OneMoreReadable(saved, MonthlyField);
        ReadOptionalField(saved, TargetField);
        if Readable(saved.target) { OneMoreReadable(saved, TargetField); }
      }
    }
  }

  /** A saved plan loads exactly when every field it has can be read, and otherwise the first that cannot is reported. */
  lemma LoadsOrFirstFault(saved: Stored)
    ensures RequestOf(saved).Loaded? ==> forall f :: Readable(TextAt(saved, f))
    ensures RequestOf(saved).Refused? ==> IsFirstFault(saved, RequestOf(saved).fault)
  {
    FirstFieldsRead(saved);
    if ReadableBefore(saved, 3) {
      LinesRead(saved, LoadAll(saved.lines, LoadLine, |saved.lines|));
      if RequestOf(saved).Loaded? { LinesReadable(saved); }
    }
  }

  method ReadAll<S, T>(xs: seq<S>, load: (S, nat) -> Loaded<T>) returns (out: Loaded<seq<T>>)
    ensures out == LoadAll(xs, load, |xs|)
  {
    var loaded: seq<T> := [];
    for i := 0 to |xs|
      invariant LoadAll(xs, load, i) == Loaded(loaded)
    {
      var x := load(xs[i], i);
      if x.Refused? {
        FaultStands(xs, load, i + 1, |xs|);
        return Refused(x.fault);
      }
      loaded := loaded + [x.value];
    }
    out := Loaded(loaded);
  }

  method ToRequest(saved: Stored) returns (out: Loaded<Request>)
    ensures out == RequestOf(saved)
    ensures out.Loaded? <==> forall f :: Readable(TextAt(saved, f))
    ensures out.Refused? ==> IsFirstFault(saved, out.fault)
  {
    LoadsOrFirstFault(saved);
    var lump := ParseMoney(saved.lump, LumpField);
    if lump.Refused? { return Refused(lump.fault); }
    var monthly := ParseMoney(saved.monthly, MonthlyField);
    if monthly.Refused? { return Refused(monthly.fault); }
    var target := ParseOptional(saved.target, TargetField);
    if target.Refused? { return Refused(target.fault); }
    var lines := ReadAll(saved.lines, LoadLine);
    if lines.Refused? { return Refused(lines.fault); }
    out := Loaded(Request(lump.value, monthly.value, saved.horizonYears, target.value, saved.familyHsa, lines.value));
  }

  const CURRENT_VERSION := 1

  /** Only the version this build knows is read; saved is what the blob decodes to, if it does. */
  method Load(saved: Option<Stored>, version: int) returns (out: Loaded<Request>)
    ensures version != CURRENT_VERSION ==> out == Refused(WrongVersion(version))
    ensures version == CURRENT_VERSION ==> out == if saved.Some? then RequestOf(saved.value) else Refused(Unreadable)
  {
    if version != CURRENT_VERSION { return Refused(WrongVersion(version)); }
    if saved.None? { return Refused(Unreadable); }
    out := ToRequest(saved.value);
  }

  // ------------------------------------------------------------------- round trips

  function CentsLine(l: Line): Line {
    Line(l.account, ToCents(l.lumpPct), ToCents(l.monthlyPct), if l.rate.Some? then Some(Normal(l.rate.value)) else None)
  }

  function CentsLines(lines: seq<Line>): (s: seq<Line>)
    ensures |s| == |lines| && forall i :: 0 <= i < |s| ==> s[i] == CentsLine(lines[i])
  {
    seq(|lines|, i requires 0 <= i < |lines| => CentsLine(lines[i]))
  }

  /** A request with its money and percentages to the cent and its rates without trailing zeros. */
  function CentsOf(req: Request): Request {
    Request(ToCents(req.lump), ToCents(req.monthly), req.horizonYears,
            if req.target.Some? then Some(ToCents(req.target.value)) else None, req.familyHsa, CentsLines(req.lines))
  }

  lemma WrittenIsNotEmpty(d: Dec)
    ensures Write(d) != ""
  {
    var n := if d.coef < 0 then -d.coef else d.coef;
    WrittenStartsWithDigit(n, d.places);
  }

  lemma ParseMoneyWritten(d: Dec, at: Field)
    ensures ParseMoney(Write(d), at) == Loaded(d)
  {
    WrittenIsNotEmpty(d);
    ParseWritten(d);
  }

  lemma LineRoundTrip(l: Line, i: nat)
    ensures LoadLine(StoreLine(l), i) == Loaded(CentsLine(l))
  {
    ParseMoneyWritten(ToCents(l.lumpPct), LumpPctField(i));
    ParseMoneyWritten(ToCents(l.monthlyPct), MonthlyPctField(i));
    if l.rate.Some? { ParseMoneyWritten(Normal(l.rate.value), RateField(i)); }
  }

  lemma {:induction false} AllLoad<S, T>(xs: seq<S>, load: (S, nat) -> Loaded<T>, loaded: seq<T>, n: nat)
    requires n <= |xs| == |loaded|
    requires forall i :: 0 <= i < |xs| ==> load(xs[i], i) == Loaded(loaded[i])
    ensures LoadAll(xs, load, n) == Loaded(loaded[..n])
  {
    if n > 0 {
      AllLoad(xs, load, loaded, n - 1);
      assert loaded[..n] == loaded[..n - 1] + [loaded[n - 1]];
    }
  }

  lemma LinesRoundTrip(lines: seq<Line>)
    ensures LoadAll(StoreLines(lines), LoadLine, |lines|) == Loaded(CentsLines(lines))
  {
    var stored, again := StoreLines(lines), CentsLines(lines);
    forall i | 0 <= i < |lines|
      ensures LoadLine(stored[i], i) == Loaded(again[i])
    {
      LineRoundTrip(lines[i], i);
    }
    AllLoad(stored, LoadLine, again, |lines|);
    assert again[..|lines|] == again;
  }

  /** Saving and reopening any request gives it back to the cent, and never fails. */
  lemma SaveThenLoad(req: Request)
    ensures RequestOf(StoreOf(req)) == Loaded(CentsOf(req))
  {
    ParseMoneyWritten(ToCents(req.lump), LumpField);
    ParseMoneyWritten(ToCents(req.monthly), MonthlyField);
    if req.target.Some? { ParseMoneyWritten(ToCents(req.target.value), TargetField); }
    LinesRoundTrip(req.lines);
  }

  lemma LineStoredAgain(l: Line)
    ensures StoreLine(CentsLine(l)) == StoreLine(l)
  {
    ToCentsIdempotent(l.lumpPct);
    ToCentsIdempotent(l.monthlyPct);
    if l.rate.Some? { NormalIdempotent(l.rate.value); }
  }

  /** Saving what was reopened writes the same blob. */
  lemma SaveLoadSave(req: Request)
    ensures RequestOf(StoreOf(req)).Loaded? && StoreOf(RequestOf(StoreOf(req)).value) == StoreOf(req)
  {
    SaveThenLoad(req);
    ToCentsIdempotent(req.lump);
    ToCentsIdempotent(req.monthly);
    if req.target.Some? { ToCentsIdempotent(req.target.value); }
    var again, once := StoreOf(CentsOf(req)).lines, StoreOf(req).lines;
    forall i | 0 <= i < |req.lines|
      ensures again[i] == once[i]
    {
      LineStoredAgain(req.lines[i]);
    }
    assert again == once;
  }

  predicate SameAmount(a: Dec, b: Dec) {
    Amount(a) == Amount(b)
  }

  predicate SameOptional(a: Option<Dec>, b: Option<Dec>) {
    if a.Some? && b.Some? then SameAmount(a.value, b.value) else a.None? && b.None?
  }

  predicate SameLine(a: Line, b: Line) {
    a.account == b.account && SameAmount(a.lumpPct, b.lumpPct) && SameAmount(a.monthlyPct, b.monthlyPct)
    && SameOptional(a.rate, b.rate)
  }

  ghost predicate SameLines(a: seq<Line>, b: seq<Line>) {
    |a| == |b| && forall i :: 0 <= i < |a| ==> SameLine(a[i], b[i])
  }

  /** Every figure of one stands for the same number as the other's. */
  ghost predicate SameRequest(a: Request, b: Request) {
    && SameAmount(a.lump, b.lump) && SameAmount(a.monthly, b.monthly)
    && a.horizonYears == b.horizonYears && SameOptional(a.target, b.target) && a.familyHsa == b.familyHsa
    && SameLines(a.lines, b.lines)
  }

  ghost predicate LineInCents(l: Line) {
    WholeCents(Amount(l.lumpPct)) && WholeCents(Amount(l.monthlyPct))
  }

  ghost predicate LinesInCents(lines: seq<Line>) {
    forall i :: 0 <= i < |lines| ==> LineInCents(lines[i])
  }

  /** Money and percentages have at most two decimals; rates may have any number. */
  ghost predicate InCents(req: Request) {
    && WholeCents(Amount(req.lump)) && WholeCents(Amount(req.monthly))
    && (req.target.Some? ==> WholeCents(Amount(req.target.value)))
    && LinesInCents(req.lines)
  }

  lemma LineKeptExactlyWhen(l: Line)
    ensures SameLine(CentsLine(l), l) <==> LineInCents(l)
  {
    CentsKeptExactlyWhen(l.lumpPct);
    CentsKeptExactlyWhen(l.monthlyPct);
    if l.rate.Some? { NormalSameAmount(l.rate.value); }
  }

  lemma LinesKeptExactlyWhen(lines: seq<Line>)
    ensures SameLines(CentsLines(lines), lines) <==> LinesInCents(lines)
  {
    var again := CentsLines(lines);
    forall i | 0 <= i < |lines|
      ensures SameLine(again[i], lines[i]) <==> LineInCents(lines[i])
    {
      LineKeptExactlyWhen(lines[i]);
    }
  }

  lemma RequestKeptExactlyWhen(req: Request)
    ensures SameRequest(CentsOf(req), req) <==> InCents(req)
  {
    CentsKeptExactlyWhen(req.lump);
    CentsKeptExactlyWhen(req.monthly);
    if req.target.Some? { CentsKeptExactlyWhen(req.target.value); }
    LinesKeptExactlyWhen(req.lines);
  }

  /** A reopened plan is the plan that was saved exactly when its money and percentages had two decimals. */
  lemma PlanKeptExactlyWhen(req: Request)
    ensures RequestOf(StoreOf(req)).Loaded?
    ensures SameRequest(RequestOf(StoreOf(req)).value, req) <==> InCents(req)
  {
    SaveThenLoad(req);
    RequestKeptExactlyWhen(req);
  }

  // ------------------------------------------------------ is a reopened plan accepted

  function PlanSplit(l: Line): PlanInputs.Split {
    PlanInputs.Split(l.account, Amount(l.lumpPct), Amount(l.monthlyPct),
                     if l.rate.Some? then Some(Amount(l.rate.value)) else None)
  }

  function PlanSplits(lines: seq<Line>): (s: seq<PlanInputs.Split>)
    ensures |s| == |lines| && forall i :: 0 <= i < |s| ==> s[i] == PlanSplit(lines[i])
  {
    seq(|lines|, i requires 0 <= i < |lines| => PlanSplit(lines[i]))
  }

  /** The request as the planner computes with it. */
  function Planned(req: Request): PlanInputs.Request {
    PlanInputs.Request(Amount(req.lump), Amount(req.monthly), req.horizonYears, PlanSplits(req.lines))
  }

  function LumpTotal(req: Request): real {
    PlanInputs.Sum(PlanInputs.LumpPcts(Planned(req).splits))
  }

  function MonthlyTotal(req: Request): real {
    PlanInputs.Sum(PlanInputs.MonthlyPcts(Planned(req).splits))
  }

  lemma {:induction false} PctAt(splits: seq<PlanInputs.Split>, i: nat)
    requires i < |splits|
    ensures PlanInputs.LumpPcts(splits)[i] == splits[i].lumpPct
    ensures PlanInputs.MonthlyPcts(splits)[i] == splits[i].monthlyPct
  {
    var init := splits[..|splits| - 1];
    if i < |init| {
      PctAt(init, i);
      assert init[i] == splits[i];
    }
  }

  function HalfCents(n: nat): real {
    n as real * HALF_CENT
  }

  /** Totals of figures that each move by at most half a cent. */
  lemma {:induction false} SumNear(xs: seq<real>, ys: seq<real>)
    requires |xs| == |ys| && forall i :: 0 <= i < |xs| ==> xs[i] - HALF_CENT <= ys[i] <= xs[i] + HALF_CENT
    ensures PlanInputs.Sum(xs) - HalfCents(|xs|) <= PlanInputs.Sum(ys) <= PlanInputs.Sum(xs) + HalfCents(|xs|)
  {
    if |xs| > 0 {
      SumNear(xs[..|xs| - 1], ys[..|ys| - 1]);
    }
  }

  lemma CentsNear(d: Dec)
    ensures Amount(d) - HALF_CENT <= Amount(ToCents(d)) <= Amount(d) + HALF_CENT
    ensures Amount(d) >= 0.0 ==> Amount(ToCents(d)) >= 0.0
  {
    ToCentsIsRound2(d);
    Round2Near(Amount(d));
    Round2Sign(Amount(d));
  }

  /** Saving moves a percentage total by at most half a cent a line. */
  lemma TotalsMoveAtMost(req: Request)
    ensures LumpTotal(req) - HalfCents(|req.lines|) <= LumpTotal(CentsOf(req)) <= LumpTotal(req) + HalfCents(|req.lines|)
    ensures MonthlyTotal(req) - HalfCents(|req.lines|) <= MonthlyTotal(CentsOf(req)) <= MonthlyTotal(req) + HalfCents(|req.lines|)
  {
    var before, after := PlanSplits(req.lines), PlanSplits(CentsLines(req.lines));
    forall i | 0 <= i < |req.lines|
      ensures var x, y := PlanInputs.LumpPcts(before)[i], PlanInputs.LumpPcts(after)[i];
              x - HALF_CENT <= y <= x + HALF_CENT
      ensures var x, y := PlanInputs.MonthlyPcts(before)[i], PlanInputs.MonthlyPcts(after)[i];
              x - HALF_CENT <= y <= x + HALF_CENT
    {
      PctAt(before, i);
      PctAt(after, i);
      CentsNear(req.lines[i].lumpPct);
      CentsNear(req.lines[i].monthlyPct);
    }
    SumNear(PlanInputs.LumpPcts(before), PlanInputs.LumpPcts(after));
    SumNear(PlanInputs.MonthlyPcts(before), PlanInputs.MonthlyPcts(after));
  }

  lemma GoodLinesStayGood(buckets: seq<PlanInputs.Bucket>, lines: seq<Line>)
    requires PlanInputs.GoodLines(buckets, PlanSplits(lines))
    ensures PlanInputs.GoodLines(buckets, PlanSplits(CentsLines(lines)))
  {
    var before, after := PlanSplits(lines), PlanSplits(CentsLines(lines));
    forall i | 0 <= i < |lines|
      ensures PlanInputs.GoodLine(buckets, after[i]) && after[i].account == before[i].account
    {
      assert PlanInputs.GoodLine(buckets, before[i]);
      CentsNear(lines[i].lumpPct);
      CentsNear(lines[i].monthlyPct);
    }
  }

  /** A reopened plan that was accepted when saved is accepted exactly when its rounded totals are within the tolerance. */
  lemma ReopenedAcceptedExactlyWhen(buckets: seq<PlanInputs.Bucket>, req: Request)
    requires PlanInputs.SharedOut(buckets, Planned(req)).Accepted?
    ensures PlanInputs.SharedOut(buckets, Planned(CentsOf(req))).Accepted?
       <==> LumpTotal(CentsOf(req)) <= 100.01 && MonthlyTotal(CentsOf(req)) <= 100.01
  {
    PlanInputs.AcceptedExactlyWhen(buckets, Planned(req));
    PlanInputs.AcceptedExactlyWhen(buckets, Planned(CentsOf(req)));
    GoodLinesStayGood(buckets, req.lines);
    CentsNear(req.lump);
    CentsNear(req.monthly);
  }

  /** Half a cent a line below the tolerance is room enough. */
  lemma ReopenedStillAccepted(buckets: seq<PlanInputs.Bucket>, req: Request)
    requires PlanInputs.SharedOut(buckets, Planned(req)).Accepted?
    requires LumpTotal(req) <= 100.01 - HalfCents(|req.lines|) && MonthlyTotal(req) <= 100.01 - HalfCents(|req.lines|)
    ensures PlanInputs.SharedOut(buckets, Planned(CentsOf(req))).Accepted?
  {
    TotalsMoveAtMost(req);
    ReopenedAcceptedExactlyWhen(buckets, req);
  }

  function Third(account: AccountId): Line {
    Line(account, Dec(33335, 3), Dec(0, 0), None)
  }

  /** Three lines of a third each, at three decimals. */
  function Thirds(): Request {
    Request(Dec(90000, 0), Dec(0, 0), 10, None, false, [Third(0), Third(1), Third(2)])
  }

  lemma SumOfThree(a: real, b: real, c: real)
    ensures PlanInputs.Sum([a, b, c]) == a + b + c
  {
    assert [a, b, c] == [a, b] + [c] && [a, b] == [a] + [b] && [a] == [] + [a];
    PlanInputs.OneMorePct(0.0, [], a);
    PlanInputs.OneMorePct(0.0, [a], b);
    PlanInputs.OneMorePct(0.0, [a, b], c);
  }

  lemma TotalsOfThree(req: Request)
    requires |req.lines| == 3
    ensures LumpTotal(req) == Amount(req.lines[0].lumpPct) + Amount(req.lines[1].lumpPct) + Amount(req.lines[2].lumpPct)
    ensures MonthlyTotal(req) == Amount(req.lines[0].monthlyPct) + Amount(req.lines[1].monthlyPct) + Amount(req.lines[2].monthlyPct)
  {
    var splits := PlanSplits(req.lines);
    PctAt(splits, 0);
    PctAt(splits, 1);
    PctAt(splits, 2);
    var lump, monthly := PlanInputs.LumpPcts(splits), PlanInputs.MonthlyPcts(splits);
    assert lump == [lump[0], lump[1], lump[2]] && monthly == [monthly[0], monthly[1], monthly[2]];
    SumOfThree(lump[0], lump[1], lump[2]);
    SumOfThree(monthly[0], monthly[1], monthly[2]);
  }

  lemma ThirdRoundsUp()
    ensures Amount(Dec(33335, 3)) == 33.335 && Amount(ToCents(Dec(33335, 3))) == 33.34
  {
    assert Pow10(3) == 10 * Pow10(2) == 100 * Pow10(1) == 1000;
    ToCentsIsRound2(Dec(33335, 3));
    NearestIs(3333.5);
  }

  lemma ThirdsTotals()
    ensures LumpTotal(Thirds()) == 100.005 && MonthlyTotal(Thirds()) == 0.0
    ensures LumpTotal(CentsOf(Thirds())) == 100.02
  {
    ThirdRoundsUp();
    TotalsOfThree(Thirds());
    TotalsOfThree(CentsOf(Thirds()));
  }

  /**
   Without that room it need not be: a plan can be accepted, saved, and then
   refused when it is reopened, because its percentages were rounded up.
   */
  lemma ReopenedCanBeRefused(buckets: seq<PlanInputs.Bucket>)
    requires PlanInputs.BucketById(buckets, 0).Some?
    requires PlanInputs.BucketById(buckets, 1).Some? && PlanInputs.BucketById(buckets, 2).Some?
    ensures PlanInputs.SharedOut(buckets, Planned(Thirds())).Accepted?
    ensures !PlanInputs.SharedOut(buckets, Planned(CentsOf(Thirds()))).Accepted?
  {
    ThirdRoundsUp();
    ThirdsTotals();
    ThirdsAccepted(buckets);
    ReopenedAcceptedExactlyWhen(buckets, Thirds());
  }

  lemma ThirdsAccepted(buckets: seq<PlanInputs.Bucket>)
    requires PlanInputs.BucketById(buckets, 0).Some?
    requires PlanInputs.BucketById(buckets, 1).Some? && PlanInputs.BucketById(buckets, 2).Some?
    ensures PlanInputs.SharedOut(buckets, Planned(Thirds())).Accepted?
  {
    ThirdsTotals();
    ThirdIsGood(buckets, 0);
    ThirdIsGood(buckets, 1);
    ThirdIsGood(buckets, 2);
    PlanInputs.AcceptedExactlyWhen(buckets, Planned(Thirds()));
  }

  lemma ThirdIsGood(buckets: seq<PlanInputs.Bucket>, id: AccountId)
    requires PlanInputs.BucketById(buckets, id).Some?
    ensures PlanInputs.GoodLine(buckets, PlanSplit(Third(id)))
  {
  }
}
