/**
 find_tools: pulling extra tools into a turn that is already under way. The
 turn's tool list only grows, and by at most six tools over all its calls.
 */
module ToolGrant {
  import opened Wrappers
  import opened Sorting

  const TOOL_FINDER := "find_tools"
  const MAX_GRANTED := 6

  datatype Tool = Tool(name: string, description: string)

  /** What one call asks for: a need in words, and exact names. */
  datatype Query = Query(need: string, names: seq<string>)

  /** How well a tool answers the need; 0 when it does not. */
  type Score = (string, Tool) -> nat

  /** A requested name means this tool. */
  type SameName = (string, string) -> bool

  ghost predicate DistinctNames(tools: seq<Tool>) {
    forall i, j :: 0 <= i < j < |tools| ==> tools[i].name != tools[j].name
  }

  function Names(tools: seq<Tool>): set<string> {
    set i | 0 <= i < |tools| :: tools[i].name
  }

  // ----------------------------------------------------------------- ranking

  datatype Scored = Scored(tool: Tool, score: nat, order: nat)

  /** A better score first, the catalogue's order between equals. */
  predicate Ahead(a: Scored, b: Scored) {
    a.score > b.score || (a.score == b.score && a.order < b.order)
  }

  /** The matching tools of the catalogue's first n, with their scores and places. */
  function Matching(need: string, catalogue: seq<Tool>, score: Score, n: nat): (m: seq<Scored>)
    requires n <= |catalogue|
    ensures forall e :: e in m <==> e.order < n && e == Scored(catalogue[e.order], score(need, catalogue[e.order]), e.order)
                                    && e.score > 0
  {
    if n == 0 then [] else
    var s := score(need, catalogue[n - 1]);
    Matching(need, catalogue, score, n - 1) + if s > 0 then [Scored(catalogue[n - 1], s, n - 1)] else []
  }

  function ToolsOf(ranked: seq<Scored>): (tools: seq<Tool>)
    ensures |tools| == |ranked| && forall i :: 0 <= i < |tools| ==> tools[i] == ranked[i].tool
  {
    seq(|ranked|, i requires 0 <= i < |ranked| => ranked[i].tool)
  }

  /** The matching tools, best first. */
  function Ranking(need: string, catalogue: seq<Tool>, score: Score): seq<Tool> {
    ToolsOf(SortOf(Matching(need, catalogue, score, |catalogue|), Ahead))
  }

  method Unscored(ranked: seq<Scored>) returns (out: seq<Tool>)
    ensures out == ToolsOf(ranked)
  {
    out := [];
    for i := 0 to |ranked|
      invariant out == ToolsOf(ranked[..i])
    {
      out := out + [ranked[i].tool];
    }
    assert ranked[..|ranked|] == ranked;
  }

  /** Tool out[i] stands at places[i] in the catalogue; a better score is first, and the catalogue breaks ties. */
  ghost predicate RankedFrom(out: seq<Tool>, places: seq<nat>, need: string, catalogue: seq<Tool>, score: Score) {
    && |places| == |out|
    && (forall i :: 0 <= i < |out| ==>
          places[i] < |catalogue| && out[i] == catalogue[places[i]] && score(need, out[i]) > 0)
    && (forall i, j :: 0 <= i < j < |out| ==>
          || score(need, out[i]) > score(need, out[j])
          || (score(need, out[i]) == score(need, out[j]) && places[i] < places[j]))
  }

  ghost predicate InOrderOfNeed(out: seq<Tool>, need: string, catalogue: seq<Tool>, score: Score) {
    exists places :: RankedFrom(out, places, need, catalogue, score)
  }

  function OrdersOf(ranked: seq<Scored>): (places: seq<nat>)
    ensures |places| == |ranked| && forall i :: 0 <= i < |places| ==> places[i] == ranked[i].order
  {
    seq(|ranked|, i requires 0 <= i < |ranked| => ranked[i].order)
  }

  lemma TwoRanked(x: Scored, y: Scored)
    requires !Ahead(y, x) && x.order != y.order
    ensures x.score > y.score || (x.score == y.score && x.order < y.order)
  {
  }

  ghost predicate PlacesAscend(m: seq<Scored>) {
    forall i, j :: 0 <= i < j < |m| ==> m[i].order < m[j].order
  }

  lemma {:induction false} MatchingPlaces(need: string, catalogue: seq<Tool>, score: Score, n: nat)
    requires n <= |catalogue|
    ensures PlacesAscend(Matching(need, catalogue, score, n))
  {
    if n > 0 {
      var before := Matching(need, catalogue, score, n - 1);
      MatchingPlaces(need, catalogue, score, n - 1);
      assert forall e :: e in before ==> e.order < n - 1;
      OneMorePlace(before, Scored(catalogue[n - 1], score(need, catalogue[n - 1]), n - 1));
    }
  }

  lemma OneMorePlace(m: seq<Scored>, last: Scored)
    requires PlacesAscend(m) && forall e :: e in m ==> e.order < last.order
    ensures PlacesAscend(m + [last]) && PlacesAscend(m + [])
  {
    assert forall i :: 0 <= i < |m| ==> m[i] in m;
    assert m + [] == m;
  }

  lemma {:induction false} OnceInOrder(m: seq<Scored>, e: Scored)
    requires PlacesAscend(m)
    ensures multiset(m)[e] <= 1
  {
    if |m| > 0 {
      var init, last := m[..|m| - 1], m[|m| - 1];
      assert m == init + [last];
      OnceInOrder(init, e);
      if e == last { assert e !in init; }
    }
  }

  lemma TwiceCounted<T>(s: seq<T>, i: nat, j: nat)
    requires i < j < |s| && s[i] == s[j]
    ensures multiset(s)[s[i]] >= 2
  {
    assert s == s[..j] + [s[j]] + s[j + 1..];
    assert multiset(s) == multiset(s[..j]) + multiset{s[j]} + multiset(s[j + 1..]);
    assert s[..j][i] == s[i] && s[i] in s[..j];
  }

  /** However they are permuted, no two matching tools stand at one place of the catalogue. */
  lemma PlacesStayDistinct(s: seq<Scored>, m: seq<Scored>, i: nat, j: nat)
    requires multiset(s) == multiset(m) && i < j < |s| && PlacesAscend(m)
    ensures s[i].order != s[j].order
  {
    assert s[i] in multiset(m) && s[j] in multiset(m);
    var a: nat :| a < |m| && m[a] == s[i];
    var b: nat :| b < |m| && m[b] == s[j];
    if a == b {
      TwiceCounted(s, i, j);
      OnceInOrder(m, s[i]);
    }
  }

  lemma SortedByPlace(s: seq<Scored>, m: seq<Scored>, i: nat, j: nat)
    requires SortedPermutation(s, m, Ahead) && i < j < |s| && PlacesAscend(m)
    ensures s[i].score > s[j].score || (s[i].score == s[j].score && s[i].order < s[j].order)
  {
    PlacesStayDistinct(s, m, i, j);
    TwoRanked(s[i], s[j]);
  }

  /** The ranking is in that order. */
  lemma RankingInOrder(need: string, catalogue: seq<Tool>, score: Score)
    ensures InOrderOfNeed(Ranking(need, catalogue, score), need, catalogue, score)
  {
    var m := Matching(need, catalogue, score, |catalogue|);
    var s := SortOf(m, Ahead);
    MatchingPlaces(need, catalogue, score, |catalogue|);
    SortOfSorts(m, Ahead);
    RankedAreMatching(need, catalogue, score);
    SortedIsRanked(s, m, need, catalogue, score);
  }

  lemma SortedIsRanked(s: seq<Scored>, m: seq<Scored>, need: string, catalogue: seq<Tool>, score: Score)
    requires SortedPermutation(s, m, Ahead) && PlacesAscend(m)
    requires forall i :: 0 <= i < |s| ==> IsEntry(s[i], need, catalogue, score)
    ensures InOrderOfNeed(ToolsOf(s), need, catalogue, score)
  {
    forall i, j | 0 <= i < j < |s|
      ensures s[i].score > s[j].score || (s[i].score == s[j].score && s[i].order < s[j].order)
    {
      SortedByPlace(s, m, i, j);
    }
    assert RankedFrom(ToolsOf(s), OrdersOf(s), need, catalogue, score);
  }

  predicate IsEntry(e: Scored, need: string, catalogue: seq<Tool>, score: Score) {
    e.order < |catalogue| && e.tool == catalogue[e.order] && e.score == score(need, e.tool) && e.score > 0
  }

  method ScoreAll(need: string, catalogue: seq<Tool>, score: Score) returns (matching: seq<Scored>)
    ensures matching == Matching(need, catalogue, score, |catalogue|)
  {
    matching := [];
    for i := 0 to |catalogue|
      invariant matching == Matching(need, catalogue, score, i)
    {
      var s := score(need, catalogue[i]);
      if s > 0 {
        matching := matching + [Scored(catalogue[i], s, i)];
      }
    }
  }

  method RankToolsByNeed(need: string, catalogue: seq<Tool>, score: Score) returns (out: seq<Tool>)
    ensures out == Ranking(need, catalogue, score)
  {
    var matching := ScoreAll(need, catalogue, score);
    var ranked := InsertionSort(matching, Ahead);
    RankingIsUnique(need, catalogue, score, ranked);
    out := Unscored(ranked);
  }

  /** However the matching tools are sorted, the same need gives the same order. */
  lemma RankingIsUnique(need: string, catalogue: seq<Tool>, score: Score, x: seq<Scored>)
    requires SortedPermutation(x, Matching(need, catalogue, score, |catalogue|), Ahead)
    ensures x == SortOf(Matching(need, catalogue, score, |catalogue|), Ahead)
  {
    var m := Matching(need, catalogue, score, |catalogue|);
    forall a, b | a in x && b in x
      ensures !Tie(a, b, Ahead)
    {
      assert a in multiset(x) && b in multiset(x);
      assert a in m && b in m;
    }
    SortOfSorts(m, Ahead);
    SortIsUnique(x, SortOf(m, Ahead), Ahead);
  }

  lemma RankedAreMatching(need: string, catalogue: seq<Tool>, score: Score)
    ensures var m, s := Matching(need, catalogue, score, |catalogue|), SortOf(Matching(need, catalogue, score, |catalogue|), Ahead);
            && Sorted(s, Ahead)
            && (forall i :: 0 <= i < |s| ==> s[i] in m)
            && (forall e :: e in m ==> e in s)
  {
    var m := Matching(need, catalogue, score, |catalogue|);
    var s := SortOf(m, Ahead);
    SortOfSorts(m, Ahead);
    forall i | 0 <= i < |s|
      ensures s[i] in m
    {
      assert s[i] in multiset(s);
    }
    forall e | e in m
      ensures e in s
    {
      assert e in multiset(s);
    }
  }

  lemma MatchingTool(need: string, catalogue: seq<Tool>, score: Score, t: Tool)
    ensures (exists e :: e in Matching(need, catalogue, score, |catalogue|) && e.tool == t)
       <==> t in catalogue && score(need, t) > 0
  {
    var m := Matching(need, catalogue, score, |catalogue|);
    if t in catalogue && score(need, t) > 0 {
      var k: nat :| k < |catalogue| && catalogue[k] == t;
      assert Scored(t, score(need, t), k) in m;
    }
  }

  lemma ToolsOfMembers(ranked: seq<Scored>, t: Tool)
    ensures t in ToolsOf(ranked) <==> exists e :: e in ranked && e.tool == t
  {
    if e :| e in ranked && e.tool == t {
      var i: nat :| i < |ranked| && ranked[i] == e;
      assert ToolsOf(ranked)[i] == t;
    }
  }

  /** Exactly the tools that answer the need are ranked. */
  lemma RankingIsComplete(need: string, catalogue: seq<Tool>, score: Score)
    ensures forall t :: t in Ranking(need, catalogue, score) <==> t in catalogue && score(need, t) > 0
  {
    var m := Matching(need, catalogue, score, |catalogue|);
    var s := SortOf(m, Ahead);
    RankedAreMatching(need, catalogue, score);
    assert forall e :: e in s <==> e in m;
    forall t
      ensures t in ToolsOf(s) <==> t in catalogue && score(need, t) > 0
    {
      ToolsOfMembers(s, t);
      MatchingTool(need, catalogue, score, t);
    }
  }

  /** A tool that answers the need better is never ranked behind one that answers it worse. */
  lemma RankingIsBestFirst(need: string, catalogue: seq<Tool>, score: Score)
    ensures var r := Ranking(need, catalogue, score);
            forall i, j :: 0 <= i < j < |r| ==> score(need, r[i]) >= score(need, r[j])
  {
    var m := Matching(need, catalogue, score, |catalogue|);
    var s := SortOf(m, Ahead);
    RankedAreMatching(need, catalogue, score);
    forall i, j | 0 <= i < j < |s|
      ensures s[i].score >= s[j].score
    {
      assert !Ahead(s[j], s[i]);
    }
    assert forall i :: 0 <= i < |s| ==> s[i] in m && s[i].score == score(need, s[i].tool);
  }

  // ---------------------------------------------------------------- granting

  /** Takes one more tool unless the turn is full, has it already or has just taken it. */
  function Take(picked: seq<Tool>, t: Tool, available: set<string>, room: int): seq<Tool> {
    if |picked| >= room || t.name in available || t.name in Names(picked) then picked else picked + [t]
  }

  function TakeAll(wishes: seq<Tool>, available: set<string>, room: int): (picked: seq<Tool>) {
    if |wishes| == 0 then []
    else Take(TakeAll(wishes[..|wishes| - 1], available, room), wishes[|wishes| - 1], available, room)
  }

  /** The first catalogue tool a requested name means. */
  function Named(want: string, catalogue: seq<Tool>, same: SameName): seq<Tool> {
    if |catalogue| == 0 then []
    else if same(want, catalogue[0].name) then [catalogue[0]]
    else Named(want, catalogue[1..], same)
  }

  /** The tools asked for by name, in the order asked. */
  function NamedAll(names: seq<string>, catalogue: seq<Tool>, same: SameName): seq<Tool> {
    if |names| == 0 then []
    else NamedAll(names[..|names| - 1], catalogue, same) + Named(names[|names| - 1], catalogue, same)
  }

  lemma NamesGrow(picked: seq<Tool>, t: Tool)
    ensures Names(picked + [t]) == Names(picked) + {t.name}
  {
    forall n | n in Names(picked) + {t.name}
      ensures n in Names(picked + [t])
    {
      if n == t.name {
        assert (picked + [t])[|picked|].name == n;
      } else {
        var i :| 0 <= i < |picked| && picked[i].name == n;
        assert (picked + [t])[i].name == n;
      }
    }
  }

  /** No more than there is room for, none the turn already has, none twice. */
  lemma {:induction false} TakenWithinLimits(wishes: seq<Tool>, available: set<string>, room: int)
    ensures var picked := TakeAll(wishes, available, room);
            && |picked| <= (if room > 0 then room else 0)
            && Names(picked) !! available
            && DistinctNames(picked)
            && (forall t :: t in picked ==> t in wishes)
  {
    if |wishes| > 0 {
      TakenWithinLimits(wishes[..|wishes| - 1], available, room);
      NamesGrow(TakeAll(wishes[..|wishes| - 1], available, room), wishes[|wishes| - 1]);
    }
  }

  /** A wish is passed over only if the turn has that tool or is full; earlier wishes come first. */
  lemma {:induction false} WishesInOrder(wishes: seq<Tool>, available: set<string>, room: int, n: nat)
    requires n <= |wishes|
    ensures TakeAll(wishes[..n], available, room) <= TakeAll(wishes, available, room)
    ensures |TakeAll(wishes, available, room)| < room ==>
              forall t :: t in wishes ==> t.name in available + Names(TakeAll(wishes, available, room))
  {
    if |wishes| > 0 {
      var init, last := wishes[..|wishes| - 1], wishes[|wishes| - 1];
      assert wishes == init + [last];
      WishesInOrder(init, available, room, if n < |wishes| then n else n - 1);
      NamesGrow(TakeAll(init, available, room), last);
      if n < |wishes| {
        assert wishes[..n] == init[..n];
      } else {
        assert wishes[..n] == wishes;
      }
    }
  }

  /** Requested names first, in the order asked, then the tools that answer the need, best first. */
  function Wishes(q: Query, catalogue: seq<Tool>, score: Score, same: SameName): seq<Tool> {
    NamedAll(q.names, catalogue, same) + Ranking(q.need, catalogue, score)
  }

  function Granted(q: Query, catalogue: seq<Tool>, available: set<string>, granted: nat, score: Score, same: SameName)
    : seq<Tool>
  {
    TakeAll(Wishes(q, catalogue, score, same), available, MAX_GRANTED - granted)
  }

  /** The first tool of the catalogue that the requested name means. */
  ghost predicate IsMeant(want: string, t: Tool, catalogue: seq<Tool>, same: SameName) {
    exists c :: 0 <= c < |catalogue| && catalogue[c] == t && same(want, t.name)
                && forall d :: 0 <= d < c ==> !same(want, catalogue[d].name)
  }

  /** Tool ts[i] is what the request's name number at[i] means, in the order asked. */
  ghost predicate NamedAt(ts: seq<Tool>, at: seq<nat>, names: seq<string>, catalogue: seq<Tool>, same: SameName) {
    && |at| == |ts|
    && (forall i :: 0 <= i < |ts| ==> at[i] < |names| && IsMeant(names[at[i]], ts[i], catalogue, same))
    && (forall i, j :: 0 <= i < j < |ts| ==> at[i] < at[j])
  }

  ghost predicate AsNamed(ts: seq<Tool>, names: seq<string>, catalogue: seq<Tool>, same: SameName) {
    exists at :: NamedAt(ts, at, names, catalogue, same)
  }

  /**
   The tools picked are some asked for by name, in the order asked, and then
   some that answer the need, best first; and none of the second kind while one
   of the first is missing from the turn.
   */
  ghost predicate NamesThenNeed(picked: seq<Tool>, q: Query, catalogue: seq<Tool>, available: set<string>,
                                score: Score, same: SameName) {
    exists n: nat :: n <= |picked| && SplitAt(picked, n, q, catalogue, available, score, same)
  }

  ghost predicate SplitAt(picked: seq<Tool>, n: nat, q: Query, catalogue: seq<Tool>, available: set<string>,
                          score: Score, same: SameName)
    requires n <= |picked|
  {
    && AsNamed(picked[..n], q.names, catalogue, same)
    && InOrderOfNeed(picked[n..], q.need, catalogue, score)
    && (n < |picked| ==> NamedOn(available + Names(picked[..n]), q.names, catalogue, same))
  }

  /** Every tool asked for by name is on the turn. */
  ghost predicate NamedOn(on: set<string>, names: seq<string>, catalogue: seq<Tool>, same: SameName) {
    forall w, t :: w in names && IsMeant(w, t, catalogue, same) ==> t.name in on
  }

  /** A tool the call asks for: by name, or because it answers the need. */
  ghost predicate IsWanted(t: Tool, q: Query, catalogue: seq<Tool>, score: Score, same: SameName) {
    || (exists w :: w in q.names && IsMeant(w, t, catalogue, same))
    || (t in catalogue && score(q.need, t) > 0)
  }

  lemma {:induction false} NamedIsMeant(want: string, catalogue: seq<Tool>, same: SameName)
    ensures |Named(want, catalogue, same)| <= 1
    ensures forall t :: t in Named(want, catalogue, same) <==> IsMeant(want, t, catalogue, same)
  {
    if |catalogue| > 0 && !same(want, catalogue[0].name) {
      var rest := catalogue[1..];
      NamedIsMeant(want, rest, same);
      forall t
        ensures IsMeant(want, t, catalogue, same) <==> IsMeant(want, t, rest, same)
      {
        MeantInRest(want, t, catalogue, same);
      }
    } else if |catalogue| > 0 {
      assert IsMeant(want, catalogue[0], catalogue, same);
    }
  }

  lemma MeantInRest(want: string, t: Tool, catalogue: seq<Tool>, same: SameName)
    requires |catalogue| > 0 && !same(want, catalogue[0].name)
    ensures IsMeant(want, t, catalogue, same) <==> IsMeant(want, t, catalogue[1..], same)
  {
    var rest := catalogue[1..];
    assert forall d :: 0 <= d < |rest| ==> rest[d] == catalogue[d + 1];
    if c :| 0 <= c < |catalogue| && catalogue[c] == t && same(want, t.name)
            && forall d :: 0 <= d < c ==> !same(want, catalogue[d].name) {
      assert rest[c - 1] == t;
      assert forall d :: 0 <= d < c - 1 ==> !same(want, rest[d].name);
    }
    if c :| 0 <= c < |rest| && rest[c] == t && same(want, t.name)
            && forall d :: 0 <= d < c ==> !same(want, rest[d].name) {
      assert catalogue[c + 1] == t;
      forall d | 0 <= d < c + 1
        ensures !same(want, catalogue[d].name)
      {
        if d > 0 { assert rest[d - 1] == catalogue[d]; }
      }
    }
  }

  lemma {:induction false} NamedWishes(names: seq<string>, catalogue: seq<Tool>, same: SameName)
    ensures forall w, t :: w in names && IsMeant(w, t, catalogue, same) ==> t in NamedAll(names, catalogue, same)
  {
    if |names| > 0 {
      var init, last := names[..|names| - 1], names[|names| - 1];
      assert names == init + [last];
      NamedWishes(init, catalogue, same);
      NamedIsMeant(last, catalogue, same);
    }
  }

  lemma MeantTool(want: string, catalogue: seq<Tool>, same: SameName)
    requires Named(want, catalogue, same) != []
    ensures var named := Named(want, catalogue, same); named == [named[0]] && IsMeant(want, named[0], catalogue, same)
  {
    NamedIsMeant(want, catalogue, same);
    assert Named(want, catalogue, same)[0] in Named(want, catalogue, same);
  }

  lemma {:induction false} TakenAsNamed(names: seq<string>, catalogue: seq<Tool>, available: set<string>, room: int, same: SameName)
    ensures AsNamed(TakeAll(NamedAll(names, catalogue, same), available, room), names, catalogue, same)
  {
    if |names| == 0 {
      assert NamedAt([], [], names, catalogue, same);
    } else {
      var init, last := names[..|names| - 1], names[|names| - 1];
      var wishes, more := NamedAll(init, catalogue, same), Named(last, catalogue, same);
      var ts := TakeAll(wishes, available, room);
      TakenAsNamed(init, catalogue, available, room, same);
      StillAsNamed(ts, init, last, catalogue, same);
      assert names == init + [last];
      if more == [] {
        assert wishes + more == wishes;
      } else {
        MeantTool(last, catalogue, same);
        TakeOneMore(wishes, more[0], available, room);
        AsNamedToo(ts, more[0], init, last, catalogue, same);
      }
    }
  }

  lemma StillAsNamed(ts: seq<Tool>, names: seq<string>, last: string, catalogue: seq<Tool>, same: SameName)
    requires AsNamed(ts, names, catalogue, same)
    ensures AsNamed(ts, names + [last], catalogue, same)
  {
    var at: seq<nat> :| NamedAt(ts, at, names, catalogue, same);
    assert NamedAt(ts, at, names + [last], catalogue, same);
  }

  lemma AsNamedToo(ts: seq<Tool>, t: Tool, names: seq<string>, last: string, catalogue: seq<Tool>, same: SameName)
    requires AsNamed(ts, names, catalogue, same) && IsMeant(last, t, catalogue, same)
    ensures AsNamed(ts + [t], names + [last], catalogue, same)
  {
    var at: seq<nat> :| NamedAt(ts, at, names, catalogue, same);
    assert NamedAt(ts + [t], at + [|names|], names + [last], catalogue, same);
  }

  /** ts are some of the first k of all, in their order. */
  ghost predicate ChosenFrom(ts: seq<Tool>, at: seq<nat>, all: seq<Tool>, k: nat)
    requires k <= |all|
  {
    && |at| == |ts|
    && (forall i :: 0 <= i < |ts| ==> at[i] < k && ts[i] == all[at[i]])
    && (forall i, j :: 0 <= i < j < |ts| ==> at[i] < at[j])
  }

  /** Some of the first k of all, in their order, were taken after these. */
  ghost predicate TakenAfter(first: seq<Tool>, taken: seq<Tool>, all: seq<Tool>, k: nat)
    requires k <= |all|
  {
    first <= taken && exists at :: ChosenFrom(taken[|first|..], at, all, k)
  }

  lemma TakenOneMore(first: seq<Tool>, taken: seq<Tool>, all: seq<Tool>, k: nat, next: seq<Tool>)
    requires k < |all| && TakenAfter(first, taken, all, k) && (next == taken || next == taken + [all[k]])
    ensures TakenAfter(first, next, all, k + 1)
  {
    var at: seq<nat> :| ChosenFrom(taken[|first|..], at, all, k);
    if next == taken {
      assert ChosenFrom(next[|first|..], at, all, k + 1);
    } else {
      assert next[|first|..] == taken[|first|..] + [all[k]];
      assert ChosenFrom(next[|first|..], at + [k], all, k + 1);
    }
  }

  /** What is taken after the first wishes are is some of the later ones, in their order. */
  lemma {:induction false} TakenLater(first: seq<Tool>, later: seq<Tool>, k: nat, available: set<string>, room: int)
    requires k <= |later|
    ensures TakenAfter(TakeAll(first, available, room), TakeAll(first + later[..k], available, room), later, k)
  {
    var before := TakeAll(first, available, room);
    if k == 0 {
      assert first + later[..0] == first;
      assert ChosenFrom(before[|before|..], [], later, 0);
    } else {
      TakenLater(first, later, k - 1, available, room);
      assert first + later[..k] == (first + later[..k - 1]) + [later[k - 1]];
      TakeOneMore(first + later[..k - 1], later[k - 1], available, room);
      TakenOneMore(before, TakeAll(first + later[..k - 1], available, room), later, k - 1,
                   TakeAll(first + later[..k], available, room));
    }
  }

  lemma ChosenStayRanked(ts: seq<Tool>, at: seq<nat>, ranked: seq<Tool>, places: seq<nat>, need: string,
                         catalogue: seq<Tool>, score: Score)
    requires RankedFrom(ranked, places, need, catalogue, score) && ChosenFrom(ts, at, ranked, |ranked|)
    ensures InOrderOfNeed(ts, need, catalogue, score)
  {
    var mine: seq<nat> := seq(|ts|, i requires 0 <= i < |ts| => places[at[i]]);
    assert RankedFrom(ts, mine, need, catalogue, score);
  }

  lemma AllNamedOn(names: seq<string>, catalogue: seq<Tool>, available: set<string>, room: int, same: SameName)
    ensures var first := TakeAll(NamedAll(names, catalogue, same), available, room);
            |first| < room ==> NamedOn(available + Names(first), names, catalogue, same)
  {
    var named := NamedAll(names, catalogue, same);
    WishesInOrder(named, available, room, |named|);
    NamedWishes(names, catalogue, same);
  }

  lemma LaterInOrderOfNeed(first: seq<Tool>, picked: seq<Tool>, ranked: seq<Tool>, need: string, catalogue: seq<Tool>, score: Score)
    requires TakenAfter(first, picked, ranked, |ranked|) && InOrderOfNeed(ranked, need, catalogue, score)
    ensures InOrderOfNeed(picked[|first|..], need, catalogue, score)
  {
    var places: seq<nat> :| RankedFrom(ranked, places, need, catalogue, score);
    var at: seq<nat> :| ChosenFrom(picked[|first|..], at, ranked, |ranked|);
    ChosenStayRanked(picked[|first|..], at, ranked, places, need, catalogue, score);
  }

  lemma NamesBeforeNeed(q: Query, catalogue: seq<Tool>, available: set<string>, room: int, score: Score, same: SameName)
    ensures NamesThenNeed(TakeAll(Wishes(q, catalogue, score, same), available, room), q, catalogue, available, score, same)
  {
    var named, ranked := NamedAll(q.names, catalogue, same), Ranking(q.need, catalogue, score);
    var first, picked := TakeAll(named, available, room), TakeAll(named + ranked, available, room);
    TakenAsNamed(q.names, catalogue, available, room, same);
    RankingInOrder(q.need, catalogue, score);
    TakenLater(named, ranked, |ranked|, available, room);
    assert ranked[..|ranked|] == ranked;
    LaterInOrderOfNeed(first, picked, ranked, q.need, catalogue, score);
    TakenWithinLimits(named + ranked, available, room);
    AllNamedOn(q.names, catalogue, available, room, same);
    SplitThere(picked, first, q, catalogue, available, score, same);
  }

  lemma SplitThere(picked: seq<Tool>, first: seq<Tool>, q: Query, catalogue: seq<Tool>, available: set<string>,
                   score: Score, same: SameName)
    requires first <= picked && AsNamed(first, q.names, catalogue, same)
    requires InOrderOfNeed(picked[|first|..], q.need, catalogue, score)
    requires |first| < |picked| ==> NamedOn(available + Names(first), q.names, catalogue, same)
    ensures NamesThenNeed(picked, q, catalogue, available, score, same)
  {
    assert picked[..|first|] == first;
    assert SplitAt(picked, |first|, q, catalogue, available, score, same);
  }

  method TakeWished(q: Query, catalogue: seq<Tool>, available: set<string>, room: int, score: Score, same: SameName)
    returns (picked: seq<Tool>)
    ensures picked == TakeAll(Wishes(q, catalogue, score, same), available, room)
  {
    var named := TakeNamed(q.names, catalogue, available, room, same);
    var byNeed := RankToolsByNeed(q.need, catalogue, score);
    picked := TakeRanked(byNeed, NamedAll(q.names, catalogue, same), named, available, room);
  }

  /** One find_tools call. */
  method GrantTools(q: Query, catalogue: seq<Tool>, available: set<string>, granted: nat, score: Score, same: SameName)
    returns (picked: seq<Tool>, remaining: seq<Tool>)
    ensures picked == Granted(q, catalogue, available, granted, score, same)
    ensures IsRemaining(remaining, catalogue, available, picked)
  {
    picked := TakeWished(q, catalogue, available, MAX_GRANTED - granted, score, same);
    remaining := RemainingBriefs(catalogue, available, picked);
  }

  /** A call grants what it names, in the order asked, before what answers its need, best first. */
  lemma NamesGrantedFirst(q: Query, catalogue: seq<Tool>, available: set<string>, granted: nat, score: Score, same: SameName)
    ensures NamesThenNeed(Granted(q, catalogue, available, granted, score, same), q, catalogue, available, score, same)
  {
    NamesBeforeNeed(q, catalogue, available, MAX_GRANTED - granted, score, same);
  }

  /** And while there is room, everything it asks for is on the turn. */
  lemma AllGrantedWithRoom(q: Query, catalogue: seq<Tool>, available: set<string>, granted: nat, score: Score, same: SameName,
                           t: Tool)
    requires granted + |Granted(q, catalogue, available, granted, score, same)| < MAX_GRANTED
    requires IsWanted(t, q, catalogue, score, same)
    ensures t.name in available + Names(Granted(q, catalogue, available, granted, score, same))
  {
    var wishes := Wishes(q, catalogue, score, same);
    WishesInOrder(wishes, available, MAX_GRANTED - granted, |wishes|);
    WantedIsWished(t, q, catalogue, score, same);
  }

  lemma WantedIsWished(t: Tool, q: Query, catalogue: seq<Tool>, score: Score, same: SameName)
    requires IsWanted(t, q, catalogue, score, same)
    ensures t in Wishes(q, catalogue, score, same)
  {
    if w :| w in q.names && IsMeant(w, t, catalogue, same) {
      NamedWishes(q.names, catalogue, same);
      assert t in NamedAll(q.names, catalogue, same);
    } else {
      RankingIsComplete(q.need, catalogue, score);
    }
  }

  /** A call never takes the turn past its limit, and grants only catalogue tools the turn did not have. */
  lemma GrantWithinLimits(q: Query, catalogue: seq<Tool>, available: set<string>, granted: nat,
                          score: Score, same: SameName)
    ensures IsFairGrant(Granted(q, catalogue, available, granted, score, same), catalogue, available, granted)
  {
    TakenWithinLimits(Wishes(q, catalogue, score, same), available, MAX_GRANTED - granted);
    NamedInCatalogue(q.names, catalogue, same);
    RankingIsComplete(q.need, catalogue, score);
  }

  method TakeRanked(byNeed: seq<Tool>, ghost named: seq<Tool>, picked0: seq<Tool>, available: set<string>, room: int)
    returns (picked: seq<Tool>)
    requires picked0 == TakeAll(named, available, room)
    ensures picked == TakeAll(named + byNeed, available, room)
  {
    picked := picked0;
    assert named + byNeed[..0] == named;
    for i := 0 to |byNeed|
      invariant picked == TakeAll(named + byNeed[..i], available, room)
    {
      assert named + byNeed[..i + 1] == (named + byNeed[..i]) + [byNeed[i]];
      TakeOneMore(named + byNeed[..i], byNeed[i], available, room);
      picked := Take(picked, byNeed[i], available, room);
    }
    assert byNeed[..|byNeed|] == byNeed;
  }

  method TakeNamed(names: seq<string>, catalogue: seq<Tool>, available: set<string>, room: int, same: SameName)
    returns (picked: seq<Tool>)
    ensures picked == TakeAll(NamedAll(names, catalogue, same), available, room)
  {
    picked := [];
    for i := 0 to |names|
      invariant picked == TakeAll(NamedAll(names[..i], catalogue, same), available, room)
    {
      assert names[..i + 1][..i] == names[..i];
      var j := 0;
      while j < |catalogue| && !same(names[i], catalogue[j].name)
        invariant j <= |catalogue|
        invariant Named(names[i], catalogue[j..], same) == Named(names[i], catalogue, same)
      {
        j := j + 1;
      }
      ghost var before := NamedAll(names[..i], catalogue, same);
      if j < |catalogue| {
        TakeOneMore(before, catalogue[j], available, room);
        picked := Take(picked, catalogue[j], available, room);
      } else {
        assert before + [] == before;
      }
    }
    assert names[..|names|] == names;
  }

  lemma {:induction false} NamedInCatalogue(names: seq<string>, catalogue: seq<Tool>, same: SameName)
    ensures forall t :: t in NamedAll(names, catalogue, same) ==> t in catalogue
  {
    if |names| > 0 {
      NamedInCatalogue(names[..|names| - 1], catalogue, same);
      OneNamedInCatalogue(names[|names| - 1], catalogue, same);
    }
  }

  lemma {:induction false} OneNamedInCatalogue(want: string, catalogue: seq<Tool>, same: SameName)
    ensures forall t :: t in Named(want, catalogue, same) ==> t in catalogue
  {
    if |catalogue| > 0 { OneNamedInCatalogue(want, catalogue[1..], same); }
  }

  lemma TakeOneMore(wishes: seq<Tool>, t: Tool, available: set<string>, room: int)
    ensures TakeAll(wishes + [t], available, room) == Take(TakeAll(wishes, available, room), t, available, room)
  {
    assert (wishes + [t])[..|wishes|] == wishes;
  }

  function StillOnOffer(available: set<string>, picked: seq<Tool>): Tool -> bool {
    (t: Tool) => t.name !in available && t.name !in Names(picked)
  }

  /** The catalogue, in its own order, without the tools the turn has or was just given. */
  predicate IsRemaining(remaining: seq<Tool>, catalogue: seq<Tool>, available: set<string>, picked: seq<Tool>) {
    remaining == Keep(catalogue, StillOnOffer(available, picked))
  }

  method RemainingBriefs(catalogue: seq<Tool>, available: set<string>, picked: seq<Tool>) returns (out: seq<Tool>)
    ensures IsRemaining(out, catalogue, available, picked)
  {
    out := [];
    for i := 0 to |catalogue|
      invariant out == Keep(catalogue[..i], StillOnOffer(available, picked))
    {
      assert catalogue[..i + 1][..i] == catalogue[..i];
      if catalogue[i].name !in available && catalogue[i].name !in Names(picked) {
        out := out + [catalogue[i]];
      }
    }
    assert catalogue[..|catalogue|] == catalogue;
  }

  /** Every catalogue tool is on the turn, was just picked, or is still on offer: exactly one of the three. */
  lemma EveryToolAccountedFor(catalogue: seq<Tool>, available: set<string>, granted: nat, picked: seq<Tool>, remaining: seq<Tool>)
    requires IsFairGrant(picked, catalogue, available, granted) && IsRemaining(remaining, catalogue, available, picked)
    ensures Names(picked) !! available && Names(remaining) !! available && Names(remaining) !! Names(picked)
    ensures forall t :: t in catalogue ==> t.name in available || t.name in Names(picked) || t.name in Names(remaining)
  {
    forall t | t in catalogue && t.name !in available && t.name !in Names(picked)
      ensures t.name in Names(remaining)
    {
      assert StillOnOffer(available, picked)(t);
      var i :| 0 <= i < |remaining| && remaining[i] == t;
    }
    forall n | n in Names(remaining)
      ensures n !in available && n !in Names(picked)
    {
      var i :| 0 <= i < |remaining| && remaining[i].name == n;
      assert remaining[i] in remaining;
    }
  }

  // ------------------------------------------------------- what callers rely on

  /** grantTools as its caller sees it: the call's raw input, the names on the turn, and how many were granted so far. */
  type Grant = (string, set<string>, nat) -> Result<seq<Tool>>

  /** find_tools over a catalogue; input that cannot be decoded is an error. */
  function FindTools(catalogue: seq<Tool>, decode: string -> Result<Query>, score: Score, same: SameName): Grant {
    (input: string, available: set<string>, granted: nat) =>
      match decode(input)
      case Ok(q) => Ok(Granted(q, catalogue, available, granted, score, same))
      case Err(e) => Err(e)
  }

  /** Grants only catalogue tools, no more than the turn has room for, none it has, none twice. */
  ghost predicate WithinLimits(grant: Grant, catalogue: seq<Tool>) {
    forall input, available, granted :: grant(input, available, granted).Ok? ==>
      IsFairGrant(grant(input, available, granted).value, catalogue, available, granted)
  }

  ghost predicate IsFairGrant(picked: seq<Tool>, catalogue: seq<Tool>, available: set<string>, granted: nat) {
    && (granted <= MAX_GRANTED ==> granted + |picked| <= MAX_GRANTED)
    && Names(picked) !! available && DistinctNames(picked)
    && forall t :: t in picked ==> t in catalogue
  }

  lemma FindToolsWithinLimits(catalogue: seq<Tool>, decode: string -> Result<Query>, score: Score, same: SameName)
    ensures WithinLimits(FindTools(catalogue, decode, score, same), catalogue)
  {
    var grant := FindTools(catalogue, decode, score, same);
    forall input, available: set<string>, granted: nat | grant(input, available, granted).Ok?
      ensures IsFairGrant(grant(input, available, granted).value, catalogue, available, granted)
    {
      GrantWithinLimits(decode(input).value, catalogue, available, granted, score, same);
    }
  }
}
