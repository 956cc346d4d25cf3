/**
 Moving one household's rows onto rewritten merchant keys. Rows whose keys
 collapse onto one destination are deleted together and the winner is inserted
 there, one destination at a time, in a table that holds at most one row per
 household and key.
 */
module KeyRewrite {
  import opened Text

  type Household = nat
  type Key = string

  datatype Slot = Slot(household: Household, key: Key)

  /** One row as it was read, with the key it was read under. */
  datatype Member<V> = Member(key: Key, value: V)

  /** A destination and the rows converging on it, in the order they were read. */
  datatype Group<V> = Group(target: Key, members: seq<Member<V>>)

  // ---------------------------------------------------------------- the table

  /** A table with UNIQUE (household, key). */
  class KeyedTable<V> {
    var rows: map<Slot, V>

    constructor ()
      ensures rows == map[]
    {
      rows := map[];
    }

    /** Reads one household's rows, in whatever order they come back. */
    method Select(h: Household) returns (all: seq<Member<V>>)
      ensures Lists(all, rows, h)
    {
      all := [];
      var left := set s | s in rows && s.household == h;
      while left != {}
        invariant forall s :: s in left ==> s in rows && s.household == h
        invariant forall i :: 0 <= i < |all| ==>
                    var s := Slot(h, all[i].key); s in rows && s !in left && rows[s] == all[i].value
        invariant forall i, j :: 0 <= i < j < |all| ==> all[i].key != all[j].key
        invariant forall s :: s in rows && s.household == h && s !in left ==> HoldsKey(all, s.key)
        decreases |left|
      {
        ghost var before := all;
        var s :| s in left;
        left := left - {s};
        all := all + [Member(s.key, rows[s])];
        assert all[|before|].key == s.key;
        assert forall k :: HoldsKey(before, k) ==> HoldsKey(all, k) by { HoldsKeyGrows(before, Member(s.key, rows[s])); }
      }
    }

    method Delete(h: Household, keys: seq<Key>)
      modifies this
      ensures rows == map s | s in old(rows) && !(s.household == h && s.key in keys) :: old(rows)[s]
    {
      rows := map s | s in rows && !(s.household == h && s.key in keys) :: rows[s];
    }

    /** Refuses a second row on the same key. */
    method Insert(s: Slot, v: V) returns (ok: bool)
      modifies this
      ensures ok <==> s !in old(rows)
      ensures rows == if ok then old(rows)[s := v] else old(rows)
    {
      ok := s !in rows;
      if ok {
        rows := rows[s := v];
      }
    }
  }

  ghost predicate HoldsKey<V>(all: seq<Member<V>>, k: Key) {
    exists i :: 0 <= i < |all| && all[i].key == k
  }

  lemma HoldsKeyGrows<V>(all: seq<Member<V>>, m: Member<V>)
    ensures forall k :: HoldsKey(all, k) ==> HoldsKey(all + [m], k)
  {
    forall k | HoldsKey(all, k)
      ensures HoldsKey(all + [m], k)
    {
      var i :| 0 <= i < |all| && all[i].key == k;
      assert (all + [m])[i].key == k;
    }
  }

  /** all is every row of the household, each once. */
  ghost predicate Lists<V>(all: seq<Member<V>>, rows: map<Slot, V>, h: Household) {
    && (forall i :: 0 <= i < |all| ==> Slot(h, all[i].key) in rows && rows[Slot(h, all[i].key)] == all[i].value)
    && (forall i, j :: 0 <= i < j < |all| ==> all[i].key != all[j].key)
    && (forall s :: s in rows && s.household == h ==> HoldsKey(all, s.key))
  }

  // ------------------------------------------------------------- the grouping

  /** Where a key ends up; one that is not rewritten stays where it is. */
  function Target(mapping: map<Key, Key>, k: Key): Key {
    if k in mapping then mapping[k] else k
  }

  /** The rows converging on t, in reading order. */
  function Converging<V>(all: seq<Member<V>>, mapping: map<Key, Key>, t: Key): (ms: seq<Member<V>>)
    ensures forall i :: 0 <= i < |ms| ==> ms[i] in all && Target(mapping, ms[i].key) == t
    ensures forall i :: 0 <= i < |all| && Target(mapping, all[i].key) == t ==> all[i] in ms
  {
    if |all| == 0 then []
    else
      var before := Converging(all[..|all| - 1], mapping, t);
      var last := all[|all| - 1];
      assert all == all[..|all| - 1] + [last];
      if Target(mapping, last.key) == t then before + [last] else before
  }

  /** A lone row already on its destination needs no work. */
  predicate Settled<V>(t: Key, ms: seq<Member<V>>) {
    |ms| == 1 && ms[0].key == t
  }

  /** Rows converge on t and something has to move. */
  predicate Moves<V>(all: seq<Member<V>>, mapping: map<Key, Key>, t: Key) {
    var ms := Converging(all, mapping, t);
    |ms| > 0 && !Settled(t, ms)
  }

  /** The groups that need work: every one of them, once, in key order. */
  ghost predicate IsRegrouping<V>(groups: seq<Group<V>>, all: seq<Member<V>>, mapping: map<Key, Key>) {
    && (forall i :: 0 <= i < |groups| ==>
          Moves(all, mapping, groups[i].target) && groups[i].members == Converging(all, mapping, groups[i].target))
    && Ascending(groups)
    && (forall t :: Moves(all, mapping, t) ==> HasTarget(groups, t))
  }

  ghost predicate HasTarget<V>(groups: seq<Group<V>>, t: Key) {
    exists i :: 0 <= i < |groups| && groups[i].target == t
  }

  method Bucket<V>(all: seq<Member<V>>, mapping: map<Key, Key>) returns (byTarget: map<Key, seq<Member<V>>>)
    ensures forall t :: t in byTarget <==> |Converging(all, mapping, t)| > 0
    ensures forall t :: t in byTarget ==> byTarget[t] == Converging(all, mapping, t)
  {
    byTarget := map[];
    for i := 0 to |all|
      invariant forall t :: t in byTarget <==> |Converging(all[..i], mapping, t)| > 0
      invariant forall t :: t in byTarget ==> byTarget[t] == Converging(all[..i], mapping, t)
    {
      assert all[..i + 1][..i] == all[..i] && all[..i + 1][i] == all[i];
      var t := Target(mapping, all[i].key);
      byTarget := byTarget[t := (if t in byTarget then byTarget[t] else []) + [all[i]]];
    }
    assert all[..|all|] == all;
  }

  /** Groups in key order, one for each destination that needs work and is not left. */
  ghost predicate InKeyOrder<V>(groups: seq<Group<V>>, byTarget: map<Key, seq<Member<V>>>, left: set<Key>) {
    && Ascending(groups)
    && (forall i :: 0 <= i < |groups| ==> IsBucket(groups[i], byTarget, left))
    && (forall t :: t in byTarget && t !in left && !Settled(t, byTarget[t]) ==> HasTarget(groups, t))
  }

  predicate IsBucket<V(==)>(g: Group<V>, byTarget: map<Key, seq<Member<V>>>, left: set<Key>) {
    g.target !in left && g.target in byTarget && g.members == byTarget[g.target] && !Settled(g.target, g.members)
  }

  ghost predicate Ascending<V>(groups: seq<Group<V>>) {
    forall i, j :: 0 <= i < j < |groups| ==> Less(groups[i].target, groups[j].target)
  }

  method Regroup<V>(all: seq<Member<V>>, mapping: map<Key, Key>) returns (out: seq<Group<V>>)
    ensures IsRegrouping(out, all, mapping)
  {
    var byTarget := Bucket(all, mapping);
    out := [];
    var left := byTarget.Keys;
    while left != {}
      invariant left <= byTarget.Keys
      invariant InKeyOrder(out, byTarget, left)
      decreases |left|
    {
      var t :| t in left;
      if Settled(t, byTarget[t]) {
        SettledNeedsNoGroup(out, byTarget, left, t);
      } else {
        LeftHasNoGroup(out, byTarget, left, t);
        var at := PlaceFor(out, t);
        Inserted(out, byTarget, left, at, t);
        out := out[..at] + [Group(t, byTarget[t])] + out[at..];
      }
      left := left - {t};
    }
    OrderedIsRegrouping(out, byTarget, all, mapping);
  }

  lemma SettledNeedsNoGroup<V>(groups: seq<Group<V>>, byTarget: map<Key, seq<Member<V>>>, left: set<Key>, t: Key)
    requires InKeyOrder(groups, byTarget, left) && t in left && t in byTarget && Settled(t, byTarget[t])
    ensures InKeyOrder(groups, byTarget, left - {t})
  {
    forall i | 0 <= i < |groups|
      ensures IsBucket(groups[i], byTarget, left - {t})
    {
      assert IsBucket(groups[i], byTarget, left);
    }
  }

  lemma LeftHasNoGroup<V>(groups: seq<Group<V>>, byTarget: map<Key, seq<Member<V>>>, left: set<Key>, t: Key)
    requires InKeyOrder(groups, byTarget, left) && t in left
    ensures forall i :: 0 <= i < |groups| ==> groups[i].target != t
  {
    forall i | 0 <= i < |groups|
      ensures groups[i].target != t
    {
      assert IsBucket(groups[i], byTarget, left);
    }
  }

  lemma OrderedIsRegrouping<V>(groups: seq<Group<V>>, byTarget: map<Key, seq<Member<V>>>, all: seq<Member<V>>, mapping: map<Key, Key>)
    requires InKeyOrder(groups, byTarget, {})
    requires forall t :: t in byTarget <==> |Converging(all, mapping, t)| > 0
    requires forall t :: t in byTarget ==> byTarget[t] == Converging(all, mapping, t)
    ensures IsRegrouping(groups, all, mapping)
  {
    forall i | 0 <= i < |groups|
      ensures Moves(all, mapping, groups[i].target) && groups[i].members == Converging(all, mapping, groups[i].target)
    {
      assert IsBucket(groups[i], byTarget, {});
    }
  }

  /** Where a group for t belongs among groups already in key order. */
  method PlaceFor<V>(groups: seq<Group<V>>, t: Key) returns (at: nat)
    requires Ascending(groups)
    requires forall i :: 0 <= i < |groups| ==> groups[i].target != t
    ensures at <= |groups|
    ensures forall i :: 0 <= i < at ==> Less(groups[i].target, t)
    ensures forall i :: at <= i < |groups| ==> Less(t, groups[i].target)
  {
    at := 0;
    while at < |groups| && Less(groups[at].target, t)
      invariant at <= |groups|
      invariant forall i :: 0 <= i < at ==> Less(groups[i].target, t)
    {
      at := at + 1;
    }
    if at < |groups| {
      LessTotal(t, groups[at].target);
      forall i | at < i < |groups|
        ensures Less(t, groups[i].target)
      {
        LessTransitive(t, groups[at].target, groups[i].target);
      }
    }
  }

  lemma Inserted<V>(groups: seq<Group<V>>, byTarget: map<Key, seq<Member<V>>>, left: set<Key>, at: nat, t: Key)
    requires InKeyOrder(groups, byTarget, left) && at <= |groups|
    requires t in left && t in byTarget && !Settled(t, byTarget[t])
    requires forall i :: 0 <= i < at ==> Less(groups[i].target, t)
    requires forall i :: at <= i < |groups| ==> Less(t, groups[i].target)
    ensures InKeyOrder(groups[..at] + [Group(t, byTarget[t])] + groups[at..], byTarget, left - {t})
  {
    var g := Group(t, byTarget[t]);
    InsertedAscending(groups, at, g);
    InsertedTargets(groups, at, g);
    InsertedBuckets(groups, byTarget, left, at, t);
  }

  lemma InsertedBuckets<V>(groups: seq<Group<V>>, byTarget: map<Key, seq<Member<V>>>, left: set<Key>, at: nat, t: Key)
    requires at <= |groups| && forall i :: 0 <= i < |groups| ==> IsBucket(groups[i], byTarget, left)
    requires t in left && t in byTarget && !Settled(t, byTarget[t])
    ensures var after := groups[..at] + [Group(t, byTarget[t])] + groups[at..];
            forall i :: 0 <= i < |after| ==> IsBucket(after[i], byTarget, left - {t})
  {
    var g := Group(t, byTarget[t]);
    var after := groups[..at] + [g] + groups[at..];
    forall i | 0 <= i < |after|
      ensures IsBucket(after[i], byTarget, left - {t})
    {
      assert after[i] == if i < at then groups[i] else if i == at then g else groups[i - 1];
    }
  }

  lemma InsertedAscending<V>(groups: seq<Group<V>>, at: nat, g: Group<V>)
    requires Ascending(groups) && at <= |groups|
    requires forall i :: 0 <= i < at ==> Less(groups[i].target, g.target)
    requires forall i :: at <= i < |groups| ==> Less(g.target, groups[i].target)
    ensures Ascending(groups[..at] + [g] + groups[at..])
  {
  }

  lemma InsertedTargets<V>(groups: seq<Group<V>>, at: nat, g: Group<V>)
    requires at <= |groups|
    ensures forall u :: u == g.target || HasTarget(groups, u) ==> HasTarget(groups[..at] + [g] + groups[at..], u)
  {
    var after := groups[..at] + [g] + groups[at..];
    assert after[at] == g;
    forall u | HasTarget(groups, u)
      ensures HasTarget(after, u)
    {
      var i :| 0 <= i < |groups| && groups[i].target == u;
      assert after[if i < at then i else i + 1] == groups[i];
    }
  }

  // --------------------------------------------------------------- the winner

  /** Keeps the first row until a later one beats it. */
  function Winner<V>(ms: seq<Member<V>>, beats: (Member<V>, Member<V>) -> bool): (w: Member<V>)
    requires |ms| > 0
    ensures w in ms
  {
    if |ms| == 1 then ms[0]
    else
      var w := Winner(ms[..|ms| - 1], beats);
      var last := ms[|ms| - 1];
      if beats(last, w) then last else w
  }

  /** beats never contradicts itself: nothing beats itself, and beating carries over. */
  ghost predicate Precedence<V(!new)>(beats: (Member<V>, Member<V>) -> bool) {
    && (forall a :: !beats(a, a))
    && (forall a, b, c :: beats(a, b) && beats(b, c) ==> beats(a, c))
  }

  /** No row of the group beats the one that is kept. */
  lemma {:induction false} WinnerUnbeaten<V(!new)>(ms: seq<Member<V>>, beats: (Member<V>, Member<V>) -> bool)
    requires |ms| > 0 && Precedence(beats)
    ensures forall m :: m in ms ==> !beats(m, Winner(ms, beats))
  {
    if |ms| > 1 {
      WinnerUnbeaten(ms[..|ms| - 1], beats);
      assert ms == ms[..|ms| - 1] + [ms[|ms| - 1]];
    }
  }

  method PickWinner<V>(ms: seq<Member<V>>, beats: (Member<V>, Member<V>) -> bool) returns (winner: Member<V>)
    requires |ms| > 0
    ensures winner == Winner(ms, beats)
  {
    winner := ms[0];
    for i := 1 to |ms|
      invariant winner == Winner(ms[..i], beats)
    {
      assert ms[..i + 1][..i] == ms[..i];
      if beats(ms[i], winner) {
        winner := ms[i];
      }
    }
    assert ms[..|ms|] == ms;
  }

  // ----------------------------------------------- the simultaneous rewriting

  /** What the row on t holds once the rewrite is done. */
  function Outcome<V>(all: seq<Member<V>>, mapping: map<Key, Key>, t: Key,
                      beats: (Member<V>, Member<V>) -> bool, write: V -> V): V
    requires |Converging(all, mapping, t)| > 0
  {
    var ms := Converging(all, mapping, t);
    if Settled(t, ms) then ms[0].value else write(Winner(ms, beats).value)
  }

  /**
   after holds the household's rows with every key replaced by its target at
   once: a destination holds its group's winner, and nothing is left on a key
   no row converges on.
   */
  ghost predicate IsRemap<V>(after: map<Slot, V>, h: Household, all: seq<Member<V>>,
                             mapping: map<Key, Key>, beats: (Member<V>, Member<V>) -> bool, write: V -> V) {
    && (forall k :: Slot(h, k) in after <==> |Converging(all, mapping, k)| > 0)
    && (forall k :: Slot(h, k) in after ==> after[Slot(h, k)] == Outcome(all, mapping, k, beats, write))
  }

  // --------------------------------------------- what the reading order decides

  lemma SameRowsListed<V>(x: seq<Member<V>>, y: seq<Member<V>>, rows: map<Slot, V>, h: Household, m: Member<V>)
    requires Lists(x, rows, h) && Lists(y, rows, h) && m in x
    ensures m in y
  {
    var i :| 0 <= i < |x| && x[i] == m;
    assert HoldsKey(y, Slot(h, m.key).key);
    var j :| 0 <= j < |y| && y[j].key == m.key;
    assert y[j].value == rows[Slot(h, m.key)] == m.value;
  }

  lemma SameRowsConverge<V(!new)>(x: seq<Member<V>>, y: seq<Member<V>>, rows: map<Slot, V>, h: Household,
                            mapping: map<Key, Key>, t: Key)
    requires Lists(x, rows, h) && Lists(y, rows, h)
    ensures forall m :: m in Converging(x, mapping, t) <==> m in Converging(y, mapping, t)
  {
    forall m
      ensures m in Converging(x, mapping, t) <==> m in Converging(y, mapping, t)
    {
      if m in x { SameRowsListed(x, y, rows, h, m); }
      if m in y { SameRowsListed(y, x, rows, h, m); }
    }
  }

  ghost predicate DistinctKeys<V>(ms: seq<Member<V>>) {
    forall i, j :: 0 <= i < j < |ms| ==> ms[i].key != ms[j].key
  }

  lemma {:induction false} ConvergingDistinct<V>(all: seq<Member<V>>, mapping: map<Key, Key>, t: Key)
    requires DistinctKeys(all)
    ensures DistinctKeys(Converging(all, mapping, t))
  {
    if |all| > 0 {
      var init, last := all[..|all| - 1], all[|all| - 1];
      ConvergingDistinct(init, mapping, t);
      var before := Converging(init, mapping, t);
      forall i | 0 <= i < |before|
        ensures before[i].key != last.key
      {
        assert before[i] in init;
      }
    }
  }

  /** With one row a key, a group is settled exactly when all of it sits on its destination. */
  lemma SettledMeans<V>(t: Key, ms: seq<Member<V>>)
    requires DistinctKeys(ms) && |ms| > 0
    ensures Settled(t, ms) <==> forall m :: m in ms ==> m.key == t
  {
    assert ms[0] in ms;
    if |ms| > 1 { assert ms[1] in ms && ms[0].key != ms[1].key; }
  }

  /** A row of the group no other row beats. */
  ghost predicate Top<V>(ms: seq<Member<V>>, beats: (Member<V>, Member<V>) -> bool, m: Member<V>) {
    m in ms && forall x :: x in ms ==> !beats(x, m)
  }

  /** All the rows no other beats would be written alike. */
  ghost predicate TopsAgree<V(!new)>(ms: seq<Member<V>>, beats: (Member<V>, Member<V>) -> bool, write: V -> V) {
    forall a, b :: Top(ms, beats, a) && Top(ms, beats, b) ==> write(a.value) == write(b.value)
  }

  /** The same rows, row i read first. */
  function Front<V>(all: seq<Member<V>>, i: nat): (front: seq<Member<V>>)
    requires i < |all|
    ensures |front| == |all|
    ensures forall k :: 0 <= k < |front| ==> front[k] == all[if k == 0 then i else if k <= i then k - 1 else k]
  {
    [all[i]] + all[..i] + all[i + 1..]
  }

  lemma FrontLists<V>(all: seq<Member<V>>, i: nat, rows: map<Slot, V>, h: Household)
    requires Lists(all, rows, h) && i < |all|
    ensures Lists(Front(all, i), rows, h)
  {
    var front := Front(all, i);
    forall s | s in rows && s.household == h
      ensures HoldsKey(front, s.key)
    {
      assert HoldsKey(all, s.key);
      var j :| 0 <= j < |all| && all[j].key == s.key;
      assert front[if j == i then 0 else if j < i then j + 1 else j].key == s.key;
    }
  }

  lemma {:induction false} ConvergingHead<V>(all: seq<Member<V>>, mapping: map<Key, Key>, t: Key)
    requires |all| > 0 && Target(mapping, all[0].key) == t
    ensures |Converging(all, mapping, t)| > 0 && Converging(all, mapping, t)[0] == all[0]
  {
    if |all| > 1 {
      ConvergingHead(all[..|all| - 1], mapping, t);
    } else {
      assert Converging(all[..0], mapping, t) == [];
    }
  }

  lemma {:induction false} UnbeatenFirstWins<V>(ms: seq<Member<V>>, beats: (Member<V>, Member<V>) -> bool)
    requires |ms| > 0 && forall x :: x in ms ==> !beats(x, ms[0])
    ensures Winner(ms, beats) == ms[0]
  {
    if |ms| > 1 {
      assert forall x :: x in ms[..|ms| - 1] ==> x in ms;
      UnbeatenFirstWins(ms[..|ms| - 1], beats);
      assert ms[|ms| - 1] in ms;
    }
  }

  /** Read first, a row no other beats is the one that is kept. */
  lemma FrontWins<V(!new)>(all: seq<Member<V>>, i: nat, rows: map<Slot, V>, h: Household, mapping: map<Key, Key>,
                     beats: (Member<V>, Member<V>) -> bool)
    requires Lists(all, rows, h) && i < |all|
    requires Top(Converging(all, mapping, Target(mapping, all[i].key)), beats, all[i])
    ensures var ms := Converging(Front(all, i), mapping, Target(mapping, all[i].key));
            |ms| > 0 && Winner(ms, beats) == all[i]
  {
    var t := Target(mapping, all[i].key);
    FrontLists(all, i, rows, h);
    SameRowsConverge(all, Front(all, i), rows, h, mapping, t);
    ConvergingHead(Front(all, i), mapping, t);
    UnbeatenFirstWins(Converging(Front(all, i), mapping, t), beats);
  }

  /** Every order the rows can be read in leaves the same row on t. */
  ghost predicate OrderDoesNotMatter<V(!new)>(rows: map<Slot, V>, h: Household, mapping: map<Key, Key>, t: Key,
                                        beats: (Member<V>, Member<V>) -> bool, write: V -> V) {
    forall x, y :: Lists(x, rows, h) && Lists(y, rows, h)
                   && |Converging(x, mapping, t)| > 0 && |Converging(y, mapping, t)| > 0 ==>
      Outcome(x, mapping, t, beats, write) == Outcome(y, mapping, t, beats, write)
  }

  lemma SettledAlike<V(!new)>(x: seq<Member<V>>, y: seq<Member<V>>, rows: map<Slot, V>, h: Household,
                        mapping: map<Key, Key>, t: Key)
    requires Lists(x, rows, h) && Lists(y, rows, h) && |Converging(x, mapping, t)| > 0
    ensures |Converging(y, mapping, t)| > 0
    ensures Settled(t, Converging(x, mapping, t)) <==> Settled(t, Converging(y, mapping, t))
    ensures Settled(t, Converging(x, mapping, t)) ==> Converging(x, mapping, t) == Converging(y, mapping, t)
  {
    var mx, my := Converging(x, mapping, t), Converging(y, mapping, t);
    SameRowsConverge(x, y, rows, h, mapping, t);
    assert mx[0] in mx && mx[0] in my;
    ConvergingDistinct(x, mapping, t);
    ConvergingDistinct(y, mapping, t);
    SettledMeans(t, mx);
    SettledMeans(t, my);
    if Settled(t, mx) {
      assert my[0] in my && my[0] in mx;
    }
  }

  lemma TopsDecide<V(!new)>(x: seq<Member<V>>, y: seq<Member<V>>, rows: map<Slot, V>, h: Household,
                      mapping: map<Key, Key>, t: Key, beats: (Member<V>, Member<V>) -> bool, write: V -> V)
    requires Lists(x, rows, h) && Lists(y, rows, h) && Precedence(beats)
    requires |Converging(x, mapping, t)| > 0 && TopsAgree(Converging(x, mapping, t), beats, write)
    ensures |Converging(y, mapping, t)| > 0
    ensures Outcome(x, mapping, t, beats, write) == Outcome(y, mapping, t, beats, write)
  {
    var mx, my := Converging(x, mapping, t), Converging(y, mapping, t);
    SettledAlike(x, y, rows, h, mapping, t);
    SameRowsConverge(x, y, rows, h, mapping, t);
    WinnerUnbeaten(mx, beats);
    WinnerUnbeaten(my, beats);
    assert Top(mx, beats, Winner(mx, beats)) && Top(mx, beats, Winner(my, beats));
  }

  lemma TopCanWin<V(!new)>(all: seq<Member<V>>, rows: map<Slot, V>, h: Household, mapping: map<Key, Key>, t: Key,
                     beats: (Member<V>, Member<V>) -> bool, write: V -> V, a: Member<V>) returns (x: seq<Member<V>>)
    requires Lists(all, rows, h) && Top(Converging(all, mapping, t), beats, a)
    requires !Settled(t, Converging(all, mapping, t))
    ensures Lists(x, rows, h) && |Converging(x, mapping, t)| > 0
    ensures Outcome(x, mapping, t, beats, write) == write(a.value)
  {
    var i :| 0 <= i < |all| && all[i] == a;
    x := Front(all, i);
    FrontLists(all, i, rows, h);
    FrontWins(all, i, rows, h, mapping, beats);
    SettledAlike(all, x, rows, h, mapping, t);
  }

  lemma AgreeingTopsIgnoreOrder<V(!new)>(all: seq<Member<V>>, rows: map<Slot, V>, h: Household, mapping: map<Key, Key>,
                                   t: Key, beats: (Member<V>, Member<V>) -> bool, write: V -> V)
    requires Lists(all, rows, h) && Precedence(beats) && |Converging(all, mapping, t)| > 0
    requires TopsAgree(Converging(all, mapping, t), beats, write)
    ensures OrderDoesNotMatter(rows, h, mapping, t, beats, write)
  {
    forall x, y | Lists(x, rows, h) && Lists(y, rows, h)
                  && |Converging(x, mapping, t)| > 0 && |Converging(y, mapping, t)| > 0
      ensures Outcome(x, mapping, t, beats, write) == Outcome(y, mapping, t, beats, write)
    {
      TopsDecide(all, x, rows, h, mapping, t, beats, write);
      TopsDecide(all, y, rows, h, mapping, t, beats, write);
    }
  }

  lemma TwoTopsAlike<V(!new)>(all: seq<Member<V>>, rows: map<Slot, V>, h: Household, mapping: map<Key, Key>, t: Key,
                        beats: (Member<V>, Member<V>) -> bool, write: V -> V, a: Member<V>, b: Member<V>)
    requires Lists(all, rows, h) && OrderDoesNotMatter(rows, h, mapping, t, beats, write)
    requires !Settled(t, Converging(all, mapping, t))
    requires Top(Converging(all, mapping, t), beats, a) && Top(Converging(all, mapping, t), beats, b)
    ensures write(a.value) == write(b.value)
  {
    var x := TopCanWin(all, rows, h, mapping, t, beats, write, a);
    var y := TopCanWin(all, rows, h, mapping, t, beats, write, b);
  }

  lemma SettledTopsAgree<V(!new)>(t: Key, ms: seq<Member<V>>, beats: (Member<V>, Member<V>) -> bool, write: V -> V)
    requires Settled(t, ms)
    ensures TopsAgree(ms, beats, write)
  {
  }

  lemma IgnoredOrderHasAgreeingTops<V(!new)>(all: seq<Member<V>>, rows: map<Slot, V>, h: Household,
                                       mapping: map<Key, Key>, t: Key,
                                       beats: (Member<V>, Member<V>) -> bool, write: V -> V)
    requires Lists(all, rows, h) && OrderDoesNotMatter(rows, h, mapping, t, beats, write)
    ensures TopsAgree(Converging(all, mapping, t), beats, write)
  {
    var ms := Converging(all, mapping, t);
    if Settled(t, ms) {
      SettledTopsAgree(t, ms, beats, write);
    } else {
      forall a, b | Top(ms, beats, a) && Top(ms, beats, b)
        ensures write(a.value) == write(b.value)
      {
        TwoTopsAlike(all, rows, h, mapping, t, beats, write, a, b);
      }
    }
  }

  /** The order rows are read in decides nothing exactly when the rows no other beats would be written alike. */
  lemma ReadingOrderMattersExactlyWhen<V(!new)>(all: seq<Member<V>>, rows: map<Slot, V>, h: Household,
                                          mapping: map<Key, Key>, t: Key,
                                          beats: (Member<V>, Member<V>) -> bool, write: V -> V)
    requires Lists(all, rows, h) && Precedence(beats) && |Converging(all, mapping, t)| > 0
    ensures OrderDoesNotMatter(rows, h, mapping, t, beats, write)
       <==> TopsAgree(Converging(all, mapping, t), beats, write)
  {
    if TopsAgree(Converging(all, mapping, t), beats, write) {
      AgreeingTopsIgnoreOrder(all, rows, h, mapping, t, beats, write);
    }
    if OrderDoesNotMatter(rows, h, mapping, t, beats, write) {
      IgnoredOrderHasAgreeingTops(all, rows, h, mapping, t, beats, write);
    }
  }

  /** Of any two different rows one beats the other. */
  ghost predicate NoTiedRows<V(!new)>(ms: seq<Member<V>>, beats: (Member<V>, Member<V>) -> bool) {
    forall a, b :: a in ms && b in ms && a != b ==> beats(a, b) || beats(b, a)
  }

  /** Where of any two different rows one beats the other, the reading order decides nothing. */
  lemma OrderDecidesOnlyTies<V(!new)>(x: seq<Member<V>>, y: seq<Member<V>>, rows: map<Slot, V>, h: Household,
                                mapping: map<Key, Key>, t: Key, beats: (Member<V>, Member<V>) -> bool, write: V -> V)
    requires Lists(x, rows, h) && Lists(y, rows, h) && Precedence(beats)
    requires |Converging(x, mapping, t)| > 0 && NoTiedRows(Converging(x, mapping, t), beats)
    ensures |Converging(y, mapping, t)| > 0
    ensures Outcome(x, mapping, t, beats, write) == Outcome(y, mapping, t, beats, write)
  {
    assert TopsAgree(Converging(x, mapping, t), beats, write);
    TopsDecide(x, y, rows, h, mapping, t, beats, write);
  }

  /** Every row of the other households, unchanged. */
  ghost predicate OthersSame<V>(before: map<Slot, V>, after: map<Slot, V>, h: Household) {
    forall s: Slot :: s.household != h ==> SameAt(before, after, s)
  }

  ghost predicate SameAt<V>(before: map<Slot, V>, after: map<Slot, V>, s: Slot) {
    && (s in before <==> s in after)
    && (s in before ==> before[s] == after[s])
  }

  /**
   A row sits on a key another row moves onto, and itself moves to a key that
   sorts later: the destination is written before the row has left it.
   */
  ghost predicate Chained<V>(rows: map<Slot, V>, h: Household, mapping: map<Key, Key>) {
    exists mover, sitting ::
      Slot(h, mover) in rows && Slot(h, sitting) in rows && Blocks(mover, sitting, mapping)
  }

  predicate Blocks(mover: Key, sitting: Key, mapping: map<Key, Key>) {
    Target(mapping, mover) == sitting && Less(sitting, Target(mapping, sitting))
  }

  /** Destinations that are not rewritten themselves never block anything. */
  lemma ChainFree<V>(rows: map<Slot, V>, h: Household, mapping: map<Key, Key>)
    requires forall k :: k in mapping ==> Target(mapping, mapping[k]) == mapping[k]
    ensures !Chained(rows, h, mapping)
  {
    forall mover, sitting | Target(mapping, mover) == sitting
      ensures !Blocks(mover, sitting, mapping)
    {
      LessIrreflexive(sitting);
    }
  }

  // --------------------------------------------- the one-group-at-a-time run

  /** Which slots are filled once the groups for the keys in done have been written. */
  ghost predicate HalfwaySlots<V>(before: map<Slot, V>, now: map<Slot, V>, h: Household,
                                  mapping: map<Key, Key>, done: set<Key>) {
    && (forall s: Slot :: s.household != h ==> SameAt(before, now, s))
    && (forall k :: Slot(h, k) in now <==> k in done || (Slot(h, k) in before && Target(mapping, k) !in done))
    && (forall k :: k in done && Slot(h, k) in before ==>
          Target(mapping, k) in done && !Less(k, Target(mapping, k)))
  }

  /** What they hold: winners on the keys in done, the rows as read everywhere else. */
  ghost predicate HalfwayValues<V>(before: map<Slot, V>, now: map<Slot, V>, h: Household, all: seq<Member<V>>,
                                   mapping: map<Key, Key>, beats: (Member<V>, Member<V>) -> bool, write: V -> V,
                                   done: set<Key>) {
    forall k :: Slot(h, k) in now ==>
      if k in done then Moves(all, mapping, k) && now[Slot(h, k)] == Outcome(all, mapping, k, beats, write)
      else Slot(h, k) in before && now[Slot(h, k)] == before[Slot(h, k)]
  }

  function KeysOf<V>(ms: seq<Member<V>>): (keys: seq<Key>)
    ensures forall k :: k in keys <==> HoldsKey(ms, k)
  {
    var keys := seq(|ms|, i requires 0 <= i < |ms| => ms[i].key);
    assert forall i :: 0 <= i < |ms| ==> keys[i] == ms[i].key;
    keys
  }

  /** The table with one group's rows gone and v on its destination. */
  function Replaced<V>(rows: map<Slot, V>, h: Household, g: Group<V>, v: V): map<Slot, V> {
    var keys := KeysOf(g.members);
    (map s | s in rows && !(s.household == h && s.key in keys) :: rows[s])[Slot(h, g.target) := v]
  }

  /** Deletes a group's rows, then inserts the winner; refused if the destination is held by a row outside the group. */
  method ReplaceGroup<V>(table: KeyedTable<V>, h: Household, g: Group<V>, v: V) returns (ok: bool)
    modifies table
    ensures ok <==> Slot(h, g.target) !in old(table.rows) || HoldsKey(g.members, g.target)
    ensures ok ==> table.rows == Replaced(old(table.rows), h, g, v)
  {
    table.Delete(h, KeysOf(g.members));
    ok := table.Insert(Slot(h, g.target), v);
  }

  /** Picks a group's winner and writes it, or is refused. */
  method MoveGroup<V>(table: KeyedTable<V>, h: Household, ghost all: seq<Member<V>>, ghost mapping: map<Key, Key>,
                      beats: (Member<V>, Member<V>) -> bool, write: V -> V, groups: seq<Group<V>>, i: nat,
                      ghost before: map<Slot, V>)
    returns (ok: bool)
    requires Lists(all, before, h) && IsRegrouping(groups, all, mapping) && i < |groups|
    requires HalfwaySlots(before, table.rows, h, mapping, TargetsBefore(groups, i))
    requires HalfwayValues(before, table.rows, h, all, mapping, beats, write, TargetsBefore(groups, i))
    modifies table
    ensures !ok ==> Chained(before, h, mapping)
    ensures ok ==> HalfwaySlots(before, table.rows, h, mapping, TargetsBefore(groups, i + 1))
    ensures ok ==> HalfwayValues(before, table.rows, h, all, mapping, beats, write, TargetsBefore(groups, i + 1))
  {
    var g := groups[i];
    ghost var now, done := table.rows, TargetsBefore(groups, i);
    var winner := PickWinner(g.members, beats);
    assert winner.value == Winner(Converging(all, mapping, g.target), beats).value;
    ok := ReplaceGroup(table, h, g, write(winner.value));
    if ok {
      GroupWritten(before, now, h, all, mapping, beats, write, groups, i, done);
      OneMoreTarget(groups, i);
    } else {
      GroupRefused(before, now, h, all, mapping, groups, i, done);
    }
  }

  lemma OneMoreTarget<V>(groups: seq<Group<V>>, i: nat)
    requires i < |groups|
    ensures TargetsBefore(groups, i + 1) == TargetsBefore(groups, i) + {groups[i].target}
  {
  }

  /** Writes the groups one at a time, until one is refused. */
  method MoveGroups<V>(table: KeyedTable<V>, h: Household, ghost all: seq<Member<V>>, ghost mapping: map<Key, Key>,
                       beats: (Member<V>, Member<V>) -> bool, write: V -> V, groups: seq<Group<V>>)
    returns (ok: bool)
    requires Lists(all, table.rows, h) && IsRegrouping(groups, all, mapping)
    modifies table
    ensures !ok ==> Chained(old(table.rows), h, mapping)
    ensures ok ==> HalfwaySlots(old(table.rows), table.rows, h, mapping, TargetsBefore(groups, |groups|))
    ensures ok ==> HalfwayValues(old(table.rows), table.rows, h, all, mapping, beats, write, TargetsBefore(groups, |groups|))
  {
    ghost var before := table.rows;
    for i := 0 to |groups|
      invariant HalfwaySlots(before, table.rows, h, mapping, TargetsBefore(groups, i))
      invariant HalfwayValues(before, table.rows, h, all, mapping, beats, write, TargetsBefore(groups, i))
    {
      ok := MoveGroup(table, h, all, mapping, beats, write, groups, i, before);
      if !ok { return; }
    }
    ok := true;
  }

  method Remap<V>(table: KeyedTable<V>, h: Household, all: seq<Member<V>>, mapping: map<Key, Key>,
                  beats: (Member<V>, Member<V>) -> bool, write: V -> V)
    returns (ok: bool)
    requires Lists(all, table.rows, h)
    modifies table
    ensures ok <==> !Chained(old(table.rows), h, mapping)
    ensures ok ==> IsRemap(table.rows, h, all, mapping, beats, write)
    ensures ok ==> OthersSame(old(table.rows), table.rows, h)
  {
    var groups := Regroup(all, mapping);
    ok := MoveGroups(table, h, all, mapping, beats, write, groups);
    if ok {
      ghost var done := TargetsBefore(groups, |groups|);
      AllMoved(groups, all, mapping, done);
      FinishedMeansRemapped(old(table.rows), table.rows, h, all, mapping, beats, write, done);
    }
  }

  ghost function TargetsBefore<V>(groups: seq<Group<V>>, i: nat): set<Key>
    requires i <= |groups|
  {
    set j | 0 <= j < i :: groups[j].target
  }

  lemma DistinctTargets<V>(groups: seq<Group<V>>)
    requires Ascending(groups)
    ensures forall i, j :: 0 <= i < j < |groups| ==> groups[i].target != groups[j].target
  {
    forall i, j | 0 <= i < j < |groups|
      ensures groups[i].target != groups[j].target
    {
      LessAsymmetric(groups[i].target, groups[j].target);
    }
  }

  /** The keys converging on t are exactly the household's keys whose target is t. */
  lemma ConvergingHolds<V>(all: seq<Member<V>>, mapping: map<Key, Key>, rows: map<Slot, V>, h: Household, k: Key, t: Key)
    requires Lists(all, rows, h)
    ensures HoldsKey(Converging(all, mapping, t), k) <==> Slot(h, k) in rows && Target(mapping, k) == t
  {
    var ms := Converging(all, mapping, t);
    if Slot(h, k) in rows && Target(mapping, k) == t {
      assert HoldsKey(all, Slot(h, k).key);
      var i :| 0 <= i < |all| && all[i].key == k;
      assert all[i] in ms;
      var j :| 0 <= j < |ms| && ms[j] == all[i];
      assert ms[j].key == k;
    }
  }

  lemma ConvergingKeys<V>(all: seq<Member<V>>, mapping: map<Key, Key>, rows: map<Slot, V>, h: Household)
    requires Lists(all, rows, h)
    ensures forall k, t :: (HoldsKey(Converging(all, mapping, t), k) <==>
                              Slot(h, k) in rows && Target(mapping, k) == t)
    ensures forall k :: Slot(h, k) in rows ==> |Converging(all, mapping, Target(mapping, k))| > 0
  {
    forall k, t
      ensures HoldsKey(Converging(all, mapping, t), k) <==> Slot(h, k) in rows && Target(mapping, k) == t
    {
      ConvergingHolds(all, mapping, rows, h, k, t);
    }
    forall k | Slot(h, k) in rows
      ensures |Converging(all, mapping, Target(mapping, k))| > 0
    {
      assert HoldsKey(Converging(all, mapping, Target(mapping, k)), k);
    }
  }

  /** What deleting t's group leaves: everything but the rows whose target is t. */
  lemma ClearedSlots<V>(before: map<Slot, V>, now: map<Slot, V>, h: Household, all: seq<Member<V>>,
                        mapping: map<Key, Key>, done: set<Key>, t: Key)
    requires Lists(all, before, h) && t !in done
    requires HalfwaySlots(before, now, h, mapping, done)
    ensures forall k ::
              (Slot(h, k) in now && !HoldsKey(Converging(all, mapping, t), k))
                <==> (k in done || (Slot(h, k) in before && Target(mapping, k) !in done + {t}))
  {
    ConvergingKeys(all, mapping, before, h);
  }

  /** The table after t's group is deleted and its winner inserted. */
  function Rewritten<V>(now: map<Slot, V>, h: Household, all: seq<Member<V>>, mapping: map<Key, Key>, t: Key, v: V)
    : map<Slot, V>
  {
    Replaced(now, h, Group(t, Converging(all, mapping, t)), v)
  }

  /** Writing t's group moves the table one destination further. */
  lemma NextSlots<V>(before: map<Slot, V>, now: map<Slot, V>, h: Household, all: seq<Member<V>>,
                     mapping: map<Key, Key>, done: set<Key>, t: Key, v: V)
    requires Lists(all, before, h) && t !in done
    requires HalfwaySlots(before, now, h, mapping, done)
    requires Slot(h, t) in before ==> Target(mapping, t) in done + {t} && !Less(t, Target(mapping, t))
    ensures HalfwaySlots(before, Rewritten(now, h, all, mapping, t, v), h, mapping, done + {t})
  {
    ClearedSlots(before, now, h, all, mapping, done, t);
  }

  lemma NextValues<V>(before: map<Slot, V>, now: map<Slot, V>, h: Household, all: seq<Member<V>>,
                      mapping: map<Key, Key>, beats: (Member<V>, Member<V>) -> bool, write: V -> V,
                      done: set<Key>, t: Key)
    requires t !in done && Moves(all, mapping, t)
    requires HalfwayValues(before, now, h, all, mapping, beats, write, done)
    ensures HalfwayValues(before, Rewritten(now, h, all, mapping, t, Outcome(all, mapping, t, beats, write)),
                          h, all, mapping, beats, write, done + {t})
  {
  }

  lemma PositionOf<V>(groups: seq<Group<V>>, all: seq<Member<V>>, mapping: map<Key, Key>, i: nat, u: Key)
    requires IsRegrouping(groups, all, mapping) && i < |groups| && Moves(all, mapping, u)
    requires u !in TargetsBefore(groups, i) && u != groups[i].target
    ensures Less(groups[i].target, u)
  {
    assert HasTarget(groups, u);
    var j :| 0 <= j < |groups| && groups[j].target == u;
    assert j > i;
  }

  /** Inserting fails only on a row that is still waiting to move to a later destination. */
  lemma TrippedMeansChained<V>(before: map<Slot, V>, h: Household, all: seq<Member<V>>, mapping: map<Key, Key>,
                               groups: seq<Group<V>>, i: nat, done: set<Key>)
    requires Lists(all, before, h) && IsRegrouping(groups, all, mapping) && i < |groups|
    requires done == TargetsBefore(groups, i)
    requires var t := groups[i].target; Slot(h, t) in before && Target(mapping, t) !in done + {t}
    ensures Chained(before, h, mapping)
  {
    var t := groups[i].target;
    var u := Target(mapping, t);
    assert HoldsKey(all, Slot(h, t).key);
    var b :| 0 <= b < |all| && all[b].key == t;
    var mover := Converging(all, mapping, t)[0];
    LeavingMoves(all, mapping, all[b]);
    PositionOf(groups, all, mapping, i, u);
    assert Blocks(mover.key, t, mapping);
  }

  /** The destination of a row that leaves its key is a group to write. */
  lemma LeavingMoves<V>(all: seq<Member<V>>, mapping: map<Key, Key>, m: Member<V>)
    requires m in all && Target(mapping, m.key) != m.key
    ensures Moves(all, mapping, Target(mapping, m.key))
  {
    var ms := Converging(all, mapping, Target(mapping, m.key));
    var i :| 0 <= i < |ms| && ms[i] == m;
  }

  /** Everything already written sorts before the group in hand. */
  lemma OrderedBehind<V>(groups: seq<Group<V>>, i: nat, done: set<Key>)
    requires i < |groups|
    requires Ascending(groups)
    requires done == TargetsBefore(groups, i)
    ensures forall t :: t in done + {groups[i].target} ==> !Less(groups[i].target, t)
  {
    forall t | t in done + {groups[i].target}
      ensures !Less(groups[i].target, t)
    {
      if t == groups[i].target { LessIrreflexive(t); } else { LessAsymmetric(t, groups[i].target); }
    }
  }

  /** An insert is refused only because a destination is still held by a row that moves later. */
  lemma GroupRefused<V>(before: map<Slot, V>, now: map<Slot, V>, h: Household, all: seq<Member<V>>,
                        mapping: map<Key, Key>, groups: seq<Group<V>>, i: nat, done: set<Key>)
    requires Lists(all, before, h) && IsRegrouping(groups, all, mapping) && i < |groups|
    requires done == TargetsBefore(groups, i) && HalfwaySlots(before, now, h, mapping, done)
    requires Slot(h, groups[i].target) in now && !HoldsKey(groups[i].members, groups[i].target)
    ensures Chained(before, h, mapping)
  {
    var t := groups[i].target;
    DistinctTargets(groups);
    ClearedSlots(before, now, h, all, mapping, done, t);
    TrippedMeansChained(before, h, all, mapping, groups, i, done);
  }

  /** A group written moves the table one destination further. */
  lemma GroupWritten<V>(before: map<Slot, V>, now: map<Slot, V>, h: Household, all: seq<Member<V>>,
                        mapping: map<Key, Key>, beats: (Member<V>, Member<V>) -> bool, write: V -> V,
                        groups: seq<Group<V>>, i: nat, done: set<Key>)
    requires Lists(all, before, h) && IsRegrouping(groups, all, mapping) && i < |groups|
    requires done == TargetsBefore(groups, i)
    requires HalfwaySlots(before, now, h, mapping, done)
    requires HalfwayValues(before, now, h, all, mapping, beats, write, done)
    requires Slot(h, groups[i].target) !in now || HoldsKey(groups[i].members, groups[i].target)
    ensures var t := groups[i].target;
            var after := Replaced(now, h, groups[i], Outcome(all, mapping, t, beats, write));
            && HalfwaySlots(before, after, h, mapping, done + {t})
            && HalfwayValues(before, after, h, all, mapping, beats, write, done + {t})
  {
    var t := groups[i].target;
    assert groups[i] == Group(t, Converging(all, mapping, t));
    DistinctTargets(groups);
    ClearedSlots(before, now, h, all, mapping, done, t);
    OrderedBehind(groups, i, done);
    NextSlots(before, now, h, all, mapping, done, t, Outcome(all, mapping, t, beats, write));
    NextValues(before, now, h, all, mapping, beats, write, done, t);
  }

  lemma AllMoved<V>(groups: seq<Group<V>>, all: seq<Member<V>>, mapping: map<Key, Key>, done: set<Key>)
    requires IsRegrouping(groups, all, mapping)
    requires done == TargetsBefore(groups, |groups|)
    ensures forall t :: t in done <==> Moves(all, mapping, t)
  {
    forall t
      ensures t in done <==> Moves(all, mapping, t)
    {
      if Moves(all, mapping, t) {
        assert HasTarget(groups, t);
        var j :| 0 <= j < |groups| && groups[j].target == t;
      }
    }
  }

  lemma FinishedMeansRemapped<V>(before: map<Slot, V>, now: map<Slot, V>, h: Household, all: seq<Member<V>>,
                                 mapping: map<Key, Key>, beats: (Member<V>, Member<V>) -> bool, write: V -> V,
                                 done: set<Key>)
    requires Lists(all, before, h)
    requires HalfwaySlots(before, now, h, mapping, done)
    requires HalfwayValues(before, now, h, all, mapping, beats, write, done)
    requires forall t :: t in done <==> Moves(all, mapping, t)
    ensures IsRemap(now, h, all, mapping, beats, write)
    ensures !Chained(before, h, mapping)
  {
    ConvergingKeys(all, mapping, before, h);
    forall k
      ensures Slot(h, k) in now <==> |Converging(all, mapping, k)| > 0
      ensures Slot(h, k) in now ==> now[Slot(h, k)] == Outcome(all, mapping, k, beats, write)
    {
      var ms := Converging(all, mapping, k);
      if |ms| > 0 && Settled(k, ms) {
        assert HoldsKey(ms, k);
      } else if Slot(h, k) in now && k !in done {
        StayingIsSettled(before, h, all, mapping, k);
        assert false;
      }
    }
    if Chained(before, h, mapping) {
      var mover, sitting :|
        Slot(h, mover) in before && Slot(h, sitting) in before && Blocks(mover, sitting, mapping);
      LessIrreflexive(sitting);
      SittingMoves(before, h, all, mapping, mover, sitting);
    }
  }

  /** A row whose destination needs no work is already on it. */
  lemma StayingIsSettled<V>(rows: map<Slot, V>, h: Household, all: seq<Member<V>>, mapping: map<Key, Key>, k: Key)
    requires Lists(all, rows, h) && Slot(h, k) in rows && !Moves(all, mapping, Target(mapping, k))
    ensures Target(mapping, k) == k && Settled(k, Converging(all, mapping, k))
  {
    ConvergingKeys(all, mapping, rows, h);
    assert HoldsKey(Converging(all, mapping, Target(mapping, k)), k);
  }

  /** A key some row moves onto while its own row moves off is a group to write. */
  lemma SittingMoves<V>(rows: map<Slot, V>, h: Household, all: seq<Member<V>>, mapping: map<Key, Key>,
                        mover: Key, sitting: Key)
    requires Lists(all, rows, h) && Slot(h, mover) in rows && Slot(h, sitting) in rows
    requires Target(mapping, mover) == sitting && Target(mapping, sitting) != sitting
    ensures Moves(all, mapping, sitting)
  {
    ConvergingKeys(all, mapping, rows, h);
    assert HoldsKey(Converging(all, mapping, sitting), mover);
    assert !HoldsKey(Converging(all, mapping, sitting), sitting);
    var ms := Converging(all, mapping, sitting);
    assert |ms| > 0 && ms[0].key != sitting;
  }
}
