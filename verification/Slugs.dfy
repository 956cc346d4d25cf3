/** Category slugs: deriving one from a name, and finding one that is free. */
module Slugs {
  import opened Text

  predicate IsAlphanumeric(c: char) {
    'a' <= c <= 'z' || IsDigit(c)
  }

  // ------------------------------------------------------------------ slugify

  /** Letters and digits kept, every run of anything else after the first of them one hyphen. */
  function Collapsed(lower: string): string {
    if |lower| == 0 then ""
    else
      var b, c := Collapsed(lower[..|lower| - 1]), lower[|lower| - 1];
      if IsAlphanumeric(c) then b + [c]
      else if |b| > 0 && b[|b| - 1] != '-' then b + "-"
      else b
  }

  function TrimLeft(s: string): string {
    if |s| > 0 && s[0] == '-' then TrimLeft(s[1..]) else s
  }

  function TrimRight(s: string): string {
    if |s| > 0 && s[|s| - 1] == '-' then TrimRight(s[..|s| - 1]) else s
  }

  function SlugOf(lower: string): string {
    TrimRight(TrimLeft(Collapsed(lower)))
  }

  method Slugify(lower: string) returns (slug: string)
    ensures slug == SlugOf(lower)
  {
    var b := "";
    var lastHyphen := false;
    for i := 0 to |lower|
      invariant b == Collapsed(lower[..i])
      invariant lastHyphen <==> |b| > 0 && b[|b| - 1] == '-'
    {
      assert lower[..i + 1][..i] == lower[..i];
      if IsAlphanumeric(lower[i]) {
        b := b + [lower[i]];
        lastHyphen := false;
      } else if !lastHyphen && |b| > 0 {
        b := b + "-";
        lastHyphen := true;
      }
    }
    assert lower[..|lower|] == lower;
    slug := b;
    while |slug| > 0 && slug[0] == '-'
      invariant TrimRight(TrimLeft(slug)) == SlugOf(lower)
    {
      slug := slug[1..];
    }
    while |slug| > 0 && slug[|slug| - 1] == '-'
      invariant TrimRight(slug) == SlugOf(lower)
    {
      slug := slug[..|slug| - 1];
    }
  }

  /** Only letters, digits and hyphens, no hyphen first, none doubled. */
  predicate IsSlugPrefix(s: string) {
    && (forall i :: 0 <= i < |s| ==> IsAlphanumeric(s[i]) || s[i] == '-')
    && (|s| > 0 ==> s[0] != '-')
    && (forall i :: 0 < i < |s| ==> s[i - 1] != '-' || s[i] != '-')
  }

  predicate IsSlug(s: string) {
    IsSlugPrefix(s) && (|s| > 0 ==> s[|s| - 1] != '-')
  }

  lemma {:induction false} CollapsedIsPrefix(lower: string)
    ensures IsSlugPrefix(Collapsed(lower))
  {
    if |lower| > 0 { CollapsedIsPrefix(lower[..|lower| - 1]); }
  }

  lemma TrimmedIsSlug(b: string)
    requires IsSlugPrefix(b)
    ensures TrimLeft(b) == b
    ensures TrimRight(b) == if |b| > 0 && b[|b| - 1] == '-' then b[..|b| - 1] else b
    ensures IsSlug(TrimRight(b))
  {
  }

  /** Whatever the name, the result is a slug. */
  lemma SlugOfIsSlug(lower: string)
    ensures IsSlug(SlugOf(lower))
  {
    CollapsedIsPrefix(lower);
    TrimmedIsSlug(Collapsed(lower));
  }

  lemma {:induction false} CollapsedFixesSlugs(s: string)
    requires IsSlugPrefix(s)
    ensures Collapsed(s) == s
  {
    if |s| > 0 {
      CollapsedFixesSlugs(s[..|s| - 1]);
      assert s == s[..|s| - 1] + [s[|s| - 1]];
    }
  }

  /** A slug is its own slug, so slugifying twice changes nothing. */
  lemma SlugOfIdempotent(lower: string)
    ensures SlugOf(SlugOf(lower)) == SlugOf(lower)
    ensures IsSlug(lower) ==> SlugOf(lower) == lower
  {
    SlugOfIsSlug(lower);
    var s := SlugOf(lower);
    CollapsedFixesSlugs(s);
    TrimmedIsSlug(s);
    if IsSlug(lower) {
      CollapsedFixesSlugs(lower);
      TrimmedIsSlug(lower);
    }
  }

  /** The letters and digits of a string, in order. */
  function Alphanumerics(s: string): string {
    if |s| == 0 then ""
    else Alphanumerics(s[..|s| - 1]) + if IsAlphanumeric(s[|s| - 1]) then [s[|s| - 1]] else ""
  }

  lemma {:induction false} CollapsedKeepsLetters(lower: string)
    ensures Alphanumerics(Collapsed(lower)) == Alphanumerics(lower)
  {
    if |lower| > 0 {
      var b, c := Collapsed(lower[..|lower| - 1]), lower[|lower| - 1];
      CollapsedKeepsLetters(lower[..|lower| - 1]);
      assert (b + [c])[..|b|] == b && (b + "-")[..|b|] == b;
      assert Alphanumerics(b) + "" == Alphanumerics(b);
    }
  }

  /** No letter or digit of the name is lost or moved. */
  lemma SlugKeepsLetters(lower: string)
    ensures Alphanumerics(SlugOf(lower)) == Alphanumerics(lower)
  {
    CollapsedIsPrefix(lower);
    CollapsedKeepsLetters(lower);
    var b := Collapsed(lower);
    TrimmedIsSlug(b);
    if |b| > 0 && b[|b| - 1] == '-' {
      assert Alphanumerics(b) == Alphanumerics(b[..|b| - 1]) + "";
    }
  }

  predicate IsSeparator(s: string) {
    |s| > 0 && forall i :: 0 <= i < |s| ==> !IsAlphanumeric(s[i])
  }

  lemma {:induction false} CollapsedThenSeparator(x: string, sep: string)
    requires Collapsed(x) != "" && IsSeparator(sep)
    ensures Collapsed(x + sep) == SlugOf(x) + "-" && SlugOf(x) != ""
  {
    var init, b := sep[..|sep| - 1], Collapsed(x);
    CollapsedIsPrefix(x);
    TrimmedIsSlug(b);
    assert (x + sep)[..|x + sep| - 1] == x + init;
    if init == "" {
      assert x + init == x;
      if b[|b| - 1] == '-' { assert b == b[..|b| - 1] + "-"; }
    } else {
      CollapsedThenSeparator(x, init);
    }
  }

  lemma {:induction false} CollapsedAfterHyphen(w: string, y: string)
    requires Collapsed(w) != "" && Collapsed(w)[|Collapsed(w)| - 1] == '-'
    ensures Collapsed(w + y) == Collapsed(w) + Collapsed(y)
  {
    if y == "" {
      assert w + y == w;
    } else {
      var init, c := y[..|y| - 1], y[|y| - 1];
      CollapsedAfterHyphen(w, init);
      assert (w + y)[..|w + y| - 1] == w + init && (w + y)[|w + y| - 1] == c;
      var b := Collapsed(init);
      assert (Collapsed(w) + b) + [c] == Collapsed(w) + (b + [c]);
      assert (Collapsed(w) + b) + "-" == Collapsed(w) + (b + "-");
      if b == "" { assert Collapsed(w) + b == Collapsed(w); }
    }
  }

  lemma TrimmedPart(p: string, b: string)
    requires b != "" && IsSlugPrefix(b)
    ensures TrimRight(p + b) == p + TrimRight(b) && TrimRight(b) != ""
  {
    var s := p + b;
    TrimmedIsSlug(b);
    assert s[|s| - 1] == b[|b| - 1];
    if b[|b| - 1] == '-' {
      assert |b| >= 2 && b[|b| - 2] != '-';
      assert s[..|s| - 1] == p + b[..|b| - 1];
      assert s[..|s| - 1][|s| - 2] == b[|b| - 2];
    }
  }

  /**
   Whatever stands between two parts of a name that hold letters or digits
   becomes one hyphen between their slugs.
   */
  lemma SlugJoins(x: string, sep: string, y: string)
    requires IsSeparator(sep) && SlugOf(x) != "" && SlugOf(y) != ""
    ensures SlugOf(x + sep + y) == SlugOf(x) + "-" + SlugOf(y)
  {
    assert Collapsed(x) != "" && Collapsed(y) != "";
    CollapsedIsPrefix(y);
    CollapsedIsPrefix(x + sep + y);
    CollapsedThenSeparator(x, sep);
    CollapsedAfterHyphen(x + sep, y);
    TrimmedIsSlug(Collapsed(x + sep + y));
    TrimmedIsSlug(Collapsed(y));
    TrimmedPart(SlugOf(x) + "-", Collapsed(y));
  }

  // -------------------------------------------------------------- a free slug

  const FALLBACK := "category"

  /** The k-th slug tried: the base, then base-2, base-3 and so on. */
  function Candidate(base: string, k: nat): string {
    if k == 0 then base else base + "-" + Digits(k + 1)
  }

  lemma CandidatesDiffer(base: string, j: nat, k: nat)
    requires j != k
    ensures Candidate(base, j) != Candidate(base, k)
  {
    if Candidate(base, j) == Candidate(base, k) {
      assert |Candidate(base, j)| == |Candidate(base, k)|;
      assert j > 0 && k > 0;
      assert Candidate(base, j)[|base| + 1..] == Digits(j + 1);
      assert Candidate(base, k)[|base| + 1..] == Digits(k + 1);
      DigitsRoundTrip(j + 1);
      DigitsRoundTrip(k + 1);
    }
  }

  /** The first k candidates are k different strings. */
  lemma {:induction false} TriedAreDistinct(base: string, k: nat)
    ensures |set j | 0 <= j < k :: Candidate(base, j)| == k
  {
    var tried := set j | 0 <= j < k :: Candidate(base, j);
    if k == 0 {
      assert tried == {};
    } else {
      TriedAreDistinct(base, k - 1);
      var before := set j | 0 <= j < k - 1 :: Candidate(base, j);
      assert Candidate(base, k - 1) !in before by {
        forall j | 0 <= j < k - 1
          ensures Candidate(base, j) != Candidate(base, k - 1)
        {
          CandidatesDiffer(base, j, k - 1);
        }
      }
      assert tried == before + {Candidate(base, k - 1)};
    }
  }

  /** If the first k candidates are all taken, at least k slugs are taken. */
  lemma TakenAtLeast(base: string, k: nat, taken: set<string>)
    requires forall j :: 0 <= j < k ==> Candidate(base, j) in taken
    ensures k <= |taken|
  {
    TriedAreDistinct(base, k);
    SubsetSize(set j | 0 <= j < k :: Candidate(base, j), taken);
  }

  lemma {:induction false} SubsetSize(a: set<string>, b: set<string>)
    requires a <= b
    ensures |a| <= |b|
    decreases a
  {
    if a != {} {
      var x :| x in a;
      SubsetSize(a - {x}, b - {x});
    }
  }

  /** Finds the first candidate nobody has taken, after at most one lookup more than there are taken slugs. */
  method UniqueCategorySlug(lower: string, taken: set<string>) returns (slug: string, ghost lookups: nat)
    ensures slug !in taken
    ensures 1 <= lookups <= |taken| + 1
    ensures var base := if SlugOf(lower) == "" then FALLBACK else SlugOf(lower);
            && slug == Candidate(base, lookups - 1)
            && forall j :: 0 <= j < lookups - 1 ==> Candidate(base, j) in taken
    ensures var base := if SlugOf(lower) == "" then "category" else SlugOf(lower);
            if base !in taken then slug == base
            else slug == base + "-" + Digits(lookups) && lookups >= 2
                 && forall i :: 2 <= i < lookups ==> base + "-" + Digits(i) in taken
  {
    var base := Slugify(lower);
    if base == "" {
      base := FALLBACK;
    }
    slug := base;
    var i := 2;
    lookups := 1;
    while slug in taken
      invariant i == lookups + 1 && lookups >= 1
      invariant slug == Candidate(base, lookups - 1)
      invariant forall j :: 0 <= j < lookups - 1 ==> Candidate(base, j) in taken
      invariant lookups - 1 <= |taken|
      decreases |taken| - lookups + 1
    {
      TakenAtLeast(base, lookups, taken);
      slug := base + "-" + Digits(i);
      i := i + 1;
      lookups := lookups + 1;
    }
    assert Candidate(base, 0) == base;
    forall n | 2 <= n < lookups
      ensures base + "-" + Digits(n) in taken
    {
      assert Candidate(base, n - 1) in taken;
    }
  }
}
