/** Choosing a turn's tool set from the words of the conversation. */
module Keywords {
  import opened Wrappers

  // ------------------------------------------------------- words in a string

  predicate OccursAt(s: string, w: string, i: int) {
    0 <= i <= i + |w| <= |s| && s[i..i + |w|] == w
  }

  /** A letter or digit; anything else, and anything outside the string, is a boundary. */
  predicate IsWordByte(s: string, i: int) {
    0 <= i < |s| && ('a' <= s[i] <= 'z' || '0' <= s[i] <= '9')
  }

  /** w stands at i with a boundary on both sides. */
  predicate WordAt(s: string, w: string, i: int) {
    OccursAt(s, w, i) && !IsWordByte(s, i - 1) && !IsWordByte(s, i + |w|)
  }

  predicate Contains(s: string, w: string) {
    exists i :: 0 <= i <= |s| && OccursAt(s, w, i)
  }

  predicate ContainsAsWord(s: string, w: string) {
    exists i :: 0 <= i <= |s| && WordAt(s, w, i)
  }

  /** The first occurrence at or after from, or -1. */
  method IndexFrom(s: string, w: string, from: nat) returns (at: int)
    requires from <= |s|
    ensures at == -1 || (from <= at && OccursAt(s, w, at))
    ensures forall i :: from <= i && (at == -1 || i < at) ==> !OccursAt(s, w, i)
  {
    at := from;
    while at + |w| <= |s|
      invariant from <= at
      invariant forall i :: from <= i < at ==> !OccursAt(s, w, i)
    {
      if s[at..at + |w|] == w {
        return;
      }
      at := at + 1;
    }
    at := -1;
  }

  /** True for any whole-word occurrence, whatever rejected ones precede or overlap it. */
  method ContainsWord(s: string, w: string) returns (found: bool)
    ensures found <==> ContainsAsWord(s, w)
  {
    var from := 0;
    while from + |w| <= |s|
      invariant 0 <= from
      invariant forall i :: 0 <= i < from ==> !WordAt(s, w, i)
    {
      var start := IndexFrom(s, w, from);
      if start < 0 {
        return false;
      }
      if !IsWordByte(s, start - 1) && !IsWordByte(s, start + |w|) {
        assert WordAt(s, w, start);
        return true;
      }
      from := start + 1;
    }
    found := false;
  }

  /** kw stands at i, and if it is an acronym no letter or digit touches it. */
  predicate CountsAt(lower: string, kw: string, wholeWords: set<string>, i: int) {
    && 0 <= i <= i + |kw| <= |lower| && lower[i..i + |kw|] == kw
    && (kw in wholeWords ==> !IsWordByte(lower, i - 1) && !IsWordByte(lower, i + |kw|))
  }

  lemma MatchesExactlyWhen(lower: string, kw: string, wholeWords: set<string>)
    ensures Matches(lower, kw, wholeWords) <==> exists i :: 0 <= i <= |lower| && CountsAt(lower, kw, wholeWords, i)
  {
    if kw in wholeWords {
      assert forall i :: WordAt(lower, kw, i) <==> CountsAt(lower, kw, wholeWords, i);
    } else {
      assert forall i :: OccursAt(lower, kw, i) <==> CountsAt(lower, kw, wholeWords, i);
    }
  }

  /** Acronyms match as whole words, everything else anywhere. */
  predicate Matches(lower: string, kw: string, wholeWords: set<string>) {
    if kw in wholeWords then ContainsAsWord(lower, kw) else Contains(lower, kw)
  }

  method MatchesKeyword(lower: string, kw: string, wholeWords: set<string>) returns (b: bool)
    ensures b <==> Matches(lower, kw, wholeWords)
    ensures b <==> exists i :: 0 <= i <= |lower| && CountsAt(lower, kw, wholeWords, i)
  {
    MatchesExactlyWhen(lower, kw, wholeWords);
    if kw !in wholeWords {
      var at := IndexFrom(lower, kw, 0);
      return at >= 0;
    }
    b := ContainsWord(lower, kw);
  }

  /** An acronym inside a longer word does not match, even though the letters are there. */
  lemma AcronymInsideWord()
    ensures Contains("april", "apr") && !ContainsAsWord("april", "apr")
    ensures ContainsAsWord("april, 0% apr", "apr")
  {
    assert OccursAt("april", "apr", 0);
    forall i | 0 <= i <= 5
      ensures !WordAt("april", "apr", i)
    {
      if OccursAt("april", "apr", i) { assert "april"[i..i + 3][0] == "april"[i] && "april"[i..i + 3][1] == "april"[i + 1]; }
    }
    assert WordAt("april, 0% apr", "apr", 10);
  }

  // --------------------------------------------------------------- the tool set

  datatype ToolSet = Likelihood | Modelling | Planning | Spending

  /** Most specific first. */
  const CHECK_ORDER := [Likelihood, Modelling, Planning, Spending]

  datatype Rules = Rules(keywords: ToolSet -> seq<string>, wholeWords: set<string>, toLower: string -> string)

  predicate Selects(message: string, set_: ToolSet, rules: Rules) {
    exists kw :: kw in rules.keywords(set_) && Matches(rules.toLower(message), kw, rules.wholeWords)
  }

  /** The first set, from the i-th most specific on, with a keyword in the message. */
  function ExplicitFrom(message: string, rules: Rules, i: nat): Option<ToolSet>
    decreases |CHECK_ORDER| - i
  {
    if i >= |CHECK_ORDER| then None
    else if Selects(message, CHECK_ORDER[i], rules) then Some(CHECK_ORDER[i])
    else ExplicitFrom(message, rules, i + 1)
  }

  function Explicit(message: string, rules: Rules): Option<ToolSet> {
    ExplicitFrom(message, rules, 0)
  }

  /** One of the set's keywords counts somewhere in the message. */
  predicate Mentions(message: string, set_: ToolSet, rules: Rules) {
    var lower := rules.toLower(message);
    exists kw, i :: kw in rules.keywords(set_) && 0 <= i <= |lower| && CountsAt(lower, kw, rules.wholeWords, i)
  }

  lemma SelectsWhatIsMentioned(message: string, set_: ToolSet, rules: Rules)
    ensures Selects(message, set_, rules) <==> Mentions(message, set_, rules)
  {
    var lower := rules.toLower(message);
    forall kw | kw in rules.keywords(set_)
      ensures Matches(lower, kw, rules.wholeWords)
         <==> exists i :: 0 <= i <= |lower| && CountsAt(lower, kw, rules.wholeWords, i)
    {
      MatchesExactlyWhen(lower, kw, rules.wholeWords);
    }
  }

  /** Likelihood before modelling, modelling before planning, planning before spending. */
  lemma MostSpecificFirst(message: string, rules: Rules)
    ensures Explicit(message, rules)
         == if Mentions(message, Likelihood, rules) then Some(Likelihood)
            else if Mentions(message, Modelling, rules) then Some(Modelling)
            else if Mentions(message, Planning, rules) then Some(Planning)
            else if Mentions(message, Spending, rules) then Some(Spending)
            else None
  {
    SelectsWhatIsMentioned(message, Likelihood, rules);
    SelectsWhatIsMentioned(message, Modelling, rules);
    SelectsWhatIsMentioned(message, Planning, rules);
    SelectsWhatIsMentioned(message, Spending, rules);
    FourSets(message, rules);
  }

  lemma FourSets(message: string, rules: Rules)
    ensures |CHECK_ORDER| == 4 && ExplicitFrom(message, rules, 4) == None
    ensures CHECK_ORDER[0] == Likelihood && CHECK_ORDER[1] == Modelling
    ensures CHECK_ORDER[2] == Planning && CHECK_ORDER[3] == Spending
    ensures Explicit(message, rules)
         == if Selects(message, CHECK_ORDER[0], rules) then Some(CHECK_ORDER[0]) else ExplicitFrom(message, rules, 1)
    ensures ExplicitFrom(message, rules, 1)
         == if Selects(message, CHECK_ORDER[1], rules) then Some(CHECK_ORDER[1]) else ExplicitFrom(message, rules, 2)
    ensures ExplicitFrom(message, rules, 2)
         == if Selects(message, CHECK_ORDER[2], rules) then Some(CHECK_ORDER[2]) else ExplicitFrom(message, rules, 3)
    ensures ExplicitFrom(message, rules, 3)
         == if Selects(message, CHECK_ORDER[3], rules) then Some(CHECK_ORDER[3]) else ExplicitFrom(message, rules, 4)
  {
  }

  method ClassifyExplicit(message: string, rules: Rules) returns (r: Option<ToolSet>)
    ensures r == Explicit(message, rules)
    ensures r == if Mentions(message, Likelihood, rules) then Some(Likelihood)
                 else if Mentions(message, Modelling, rules) then Some(Modelling)
                 else if Mentions(message, Planning, rules) then Some(Planning)
                 else if Mentions(message, Spending, rules) then Some(Spending)
                 else None
  {
    MostSpecificFirst(message, rules);
    var lower := rules.toLower(message);
    for i := 0 to |CHECK_ORDER|
      invariant Explicit(message, rules) == ExplicitFrom(message, rules, i)
    {
      var kws := rules.keywords(CHECK_ORDER[i]);
      for k := 0 to |kws|
        invariant forall kw :: kw in kws[..k] ==> !Matches(lower, kw, rules.wholeWords)
      {
        var hit := MatchesKeyword(lower, kws[k], rules.wholeWords);
        if hit {
          assert kws[k] in kws && Selects(message, CHECK_ORDER[i], rules);
          return Some(CHECK_ORDER[i]);
        }
      }
      assert kws[..|kws|] == kws;
    }
    r := None;
  }

  datatype ChatMessage = ChatMessage(role: string, content: string)

  const HISTORY_WINDOW := 8

  /** The user's turns, most recent first. */
  function UserTurns(ms: seq<ChatMessage>): seq<string> {
    if |ms| == 0 then []
    else
      var last := ms[|ms| - 1];
      (if last.role == "assistant" then [] else [last.content]) + UserTurns(ms[..|ms| - 1])
  }

  method LastUserMessage(ms: seq<ChatMessage>) returns (m: string)
    ensures m == if UserTurns(ms) == [] then "" else UserTurns(ms)[0]
  {
    var i := |ms|;
    assert ms[..i] == ms;
    while i > 0
      invariant 0 <= i <= |ms| && UserTurns(ms) == UserTurns(ms[..i])
    {
      assert ms[..i][..i - 1] == ms[..i - 1];
      if ms[i - 1].role != "assistant" {
        return ms[i - 1].content;
      }
      i := i - 1;
      assert [] + UserTurns(ms[..i]) == UserTurns(ms[..i]);
    }
    m := "";
  }

  /** The set of the first turn that names one, or spending. */
  function FirstExplicit(turns: seq<string>, explicit: string -> Option<ToolSet>): ToolSet {
    if |turns| == 0 then Spending
    else if explicit(turns[0]).Some? then explicit(turns[0]).value
    else FirstExplicit(turns[1..], explicit)
  }

  /** The user's turns that count: the last eight. */
  function Recent(ms: seq<ChatMessage>): seq<string> {
    var turns := UserTurns(ms);
    if |turns| > HISTORY_WINDOW then turns[..HISTORY_WINDOW] else turns
  }

  /** How many user messages come after message i. */
  function UserMessagesAfter(ms: seq<ChatMessage>, i: nat): nat
    requires i < |ms|
  {
    if i == |ms| - 1 then 0
    else UserMessagesAfter(ms[..|ms| - 1], i) + if ms[|ms| - 1].role == "assistant" then 0 else 1
  }

  /** Message i is one of the last eight the user wrote. */
  predicate IsRecentUserMessage(ms: seq<ChatMessage>, i: nat) {
    i < |ms| && ms[i].role != "assistant" && UserMessagesAfter(ms, i) < 8
  }

  /** The nearest of the last eight user messages that names a set names this one; or none of them names any. */
  ghost predicate IsChosen(r: ToolSet, ms: seq<ChatMessage>, explicit: string -> Option<ToolSet>) {
    || (exists i: nat :: IsRecentUserMessage(ms, i) && explicit(ms[i].content) == Some(r)
                         && forall j: nat :: i < j && IsRecentUserMessage(ms, j) ==> explicit(ms[j].content).None?)
    || (r == Spending && forall i: nat :: IsRecentUserMessage(ms, i) ==> explicit(ms[i].content).None?)
  }

  /** The user's turns, by where they stand. */
  lemma {:induction false} TurnOfMessage(ms: seq<ChatMessage>, i: nat)
    requires i < |ms| && ms[i].role != "assistant"
    ensures UserMessagesAfter(ms, i) < |UserTurns(ms)| && UserTurns(ms)[UserMessagesAfter(ms, i)] == ms[i].content
  {
    if i < |ms| - 1 { TurnOfMessage(ms[..|ms| - 1], i); }
  }

  lemma {:induction false} MessageOfTurn(ms: seq<ChatMessage>, k: nat) returns (i: nat)
    requires k < |UserTurns(ms)|
    ensures i < |ms| && ms[i].role != "assistant" && UserMessagesAfter(ms, i) == k
  {
    var init, last := ms[..|ms| - 1], ms[|ms| - 1];
    if last.role != "assistant" && k == 0 {
      i := |ms| - 1;
    } else {
      i := MessageOfTurn(init, if last.role == "assistant" then k else k - 1);
    }
  }

  lemma {:induction false} LaterMeansFewerAfter(ms: seq<ChatMessage>, i: nat, j: nat)
    requires i < j < |ms| && ms[j].role != "assistant"
    ensures UserMessagesAfter(ms, j) < UserMessagesAfter(ms, i)
  {
    if j < |ms| - 1 { LaterMeansFewerAfter(ms[..|ms| - 1], i, j); }
  }

  lemma RecentMessage(ms: seq<ChatMessage>, i: nat)
    requires IsRecentUserMessage(ms, i)
    ensures UserMessagesAfter(ms, i) < |Recent(ms)| && Recent(ms)[UserMessagesAfter(ms, i)] == ms[i].content
  {
    TurnOfMessage(ms, i);
  }

  lemma ChosenByNearest(ms: seq<ChatMessage>, explicit: string -> Option<ToolSet>)
    ensures IsChosen(FirstExplicit(Recent(ms), explicit), ms, explicit)
  {
    var turns, r := Recent(ms), FirstExplicit(Recent(ms), explicit);
    NearestTurnDecides(turns, explicit, r);
    if k: nat :| k < |turns| && IsNearest(turns, explicit, k) && explicit(turns[k]) == Some(r) {
      var i := MessageOfTurn(ms, k);
      RecentMessage(ms, i);
      forall j: nat | i < j && IsRecentUserMessage(ms, j)
        ensures explicit(ms[j].content).None?
      {
        LaterMeansFewerAfter(ms, i, j);
        RecentMessage(ms, j);
      }
    } else {
      forall i: nat | IsRecentUserMessage(ms, i)
        ensures explicit(ms[i].content).None?
      {
        RecentMessage(ms, i);
      }
    }
  }

  /**
   The set named by the most recent of the last eight user turns that names
   one, and spending when none does.
   */
  method ClassifyFromMessages(ms: seq<ChatMessage>, explicit: string -> Option<ToolSet>) returns (r: ToolSet)
    ensures UserTurns(ms) != [] ==> r == FirstExplicit(Recent(ms), explicit)
    ensures UserTurns(ms) == [] ==> r == FirstExplicit([""], explicit)
    ensures (exists i :: 0 <= i < |ms| && ms[i].role != "assistant") ==> IsChosen(r, ms, explicit)
    ensures (forall i :: 0 <= i < |ms| ==> ms[i].role == "assistant") ==>
              r == if explicit("").Some? then explicit("").value else Spending
  {
    ChosenByNearest(ms, explicit);
    UserMessagesMakeTurns(ms);
    r := ClassifyTurns(ms, explicit);
  }

  lemma UserMessagesMakeTurns(ms: seq<ChatMessage>)
    ensures UserTurns(ms) != [] <==> exists i :: 0 <= i < |ms| && ms[i].role != "assistant"
  {
    if i: nat :| i < |ms| && ms[i].role != "assistant" { TurnOfMessage(ms, i); }
    if UserTurns(ms) != [] { var i := MessageOfTurn(ms, 0); }
  }

  lemma OneTurnBack(ms: seq<ChatMessage>, i: nat)
    requires i < |ms|
    ensures UserTurns(ms[..i + 1])
         == if ms[i].role == "assistant" then UserTurns(ms[..i]) else [ms[i].content] + UserTurns(ms[..i])
  {
    assert ms[..i + 1][..i] == ms[..i];
    assert [] + UserTurns(ms[..i]) == UserTurns(ms[..i]);
  }

  lemma NextTurn(all: seq<string>, turns: nat, first: string, rest: seq<string>)
    requires turns <= |all| && all[turns..] == [first] + rest
    ensures turns < |all| && all[turns] == first && all[turns + 1..] == rest
  {
    assert all[turns] == all[turns..][0];
    assert all[turns + 1..] == all[turns..][1..];
  }

  method ClassifyTurns(ms: seq<ChatMessage>, explicit: string -> Option<ToolSet>) returns (r: ToolSet)
    ensures UserTurns(ms) != [] ==> r == FirstExplicit(Recent(ms), explicit)
    ensures UserTurns(ms) == [] ==> r == FirstExplicit([""], explicit)
  {
    var last := LastUserMessage(ms);
    var named := explicit(last);
    if named.Some? {
      return named.value;
    }
    ghost var all := UserTurns(ms);
    var turns := 0;
    var i := |ms|;
    assert ms[..i] == ms && all[0..] == all;
    while i > 0
      invariant 0 <= i <= |ms| && 0 <= turns <= |all| && turns <= HISTORY_WINDOW
      invariant UserTurns(ms[..i]) == all[turns..]
      invariant all != [] ==> FirstExplicit(Recent(ms), explicit) == FirstExplicit(Recent(ms)[turns..], explicit)
    {
      i := i - 1;
      OneTurnBack(ms, i);
      if ms[i].role == "assistant" {
        continue;
      }
      NextTurn(all, turns, ms[i].content, UserTurns(ms[..i]));
      turns := turns + 1;
      if turns == 1 {
        continue;
      }
      if turns > HISTORY_WINDOW {
        return Spending;
      }
      named := explicit(ms[i].content);
      if named.Some? {
        return named.value;
      }
    }
    r := Spending;
  }

  /** Turn k names a set and no nearer one does. */
  predicate IsNearest(turns: seq<string>, explicit: string -> Option<ToolSet>, k: nat) {
    && k < |turns| && explicit(turns[k]).Some?
    && forall j :: 0 <= j < k ==> explicit(turns[j]).None?
  }

  /** The nearest turn that names a set decides, whatever farther ones name; spending only when none does. */
  lemma {:induction false} NearestTurnDecides(turns: seq<string>, explicit: string -> Option<ToolSet>, set_: ToolSet)
    ensures FirstExplicit(turns, explicit) == set_ <==>
              || (exists k :: 0 <= k < |turns| && IsNearest(turns, explicit, k) && explicit(turns[k]) == Some(set_))
              || (set_ == Spending && forall j :: 0 <= j < |turns| ==> explicit(turns[j]).None?)
  {
    if |turns| > 0 {
      var rest := turns[1..];
      NearestTurnDecides(rest, explicit, set_);
      if explicit(turns[0]).Some? {
        assert IsNearest(turns, explicit, 0);
      } else {
        assert forall k :: 0 <= k < |rest| ==> rest[k] == turns[k + 1];
        forall k | 0 <= k < |rest|
          ensures IsNearest(rest, explicit, k) <==> IsNearest(turns, explicit, k + 1)
        {
          assert forall j :: 0 <= j < k ==> rest[j] == turns[j + 1];
        }
        if k :| 0 <= k < |turns| && IsNearest(turns, explicit, k) && explicit(turns[k]) == Some(set_) {
          assert IsNearest(rest, explicit, k - 1);
        }
      }
    }
  }
}
