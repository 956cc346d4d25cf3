/**
 The whole repair: recompute every transaction's merchant key, move the three
 per-key tables of each household onto the new keys, update the transactions
 and retire merchants left with no alias, all or nothing.
 */
module NormaliseKeys {
  import opened Wrappers
  import opened KeyRewrite
  import opened Text
  import Sorting

  type EntityId = nat

  datatype CategoryRow = CategoryRow(category: nat, source: string, confidence: real, updatedAt: int)
  datatype AliasRow = AliasRow(entity: EntityId, source: string, confidence: real)
  datatype OverrideRow = OverrideRow(name: string)

  // ----------------------------------------------------- who wins a collision

  function CategorySourceRank(source: string): int {
    if source == "manual" then 3 else if source == "rule" then 2 else 1
  }

  predicate CategoryBeats(c: Member<CategoryRow>, w: Member<CategoryRow>) {
    var rc, rw := CategorySourceRank(c.value.source), CategorySourceRank(w.value.source);
    rc > rw || (rc == rw && c.value.updatedAt > w.value.updatedAt)
  }

  /** How many of the household's aliases each merchant has. */
  function Weight(all: seq<Member<AliasRow>>, e: EntityId): nat {
    if |all| == 0 then 0
    else Weight(all[..|all| - 1], e) + if all[|all| - 1].value.entity == e then 1 else 0
  }

  predicate AliasBeats(all: seq<Member<AliasRow>>, a: Member<AliasRow>, b: Member<AliasRow>) {
    var aSuggested, bSuggested := a.value.source == "suggested", b.value.source == "suggested";
    if aSuggested != bSuggested then bSuggested
    else Weight(all, a.value.entity) > Weight(all, b.value.entity)
  }

  /** How many bytes a character takes in UTF-8. */
  function ByteWidth(c: char): nat {
    var n := c as int;
    if n < 0x80 then 1 else if n < 0x800 then 2 else if n < 0x10000 then 3 else 4
  }

  /** The length of a label as the program counts it: in bytes. */
  function ByteLength(s: string): nat {
    if |s| == 0 then 0 else ByteLength(s[..|s| - 1]) + ByteWidth(s[|s| - 1])
  }

  /** Only plain ASCII is as long in bytes as in characters, and nothing is shorter. */
  lemma {:induction false} AsciiLength(s: string)
    ensures |s| <= ByteLength(s) <= 4 * |s|
    ensures ByteLength(s) == |s| <==> forall i :: 0 <= i < |s| ==> s[i] < '\U{80}'
  {
    if |s| > 0 { AsciiLength(s[..|s| - 1]); }
  }

  /** The last character of each width, and the first of the next. */
  lemma WidthsOfCharacters()
    ensures ByteWidth('\U{7F}') == 1 && ByteWidth('\U{80}') == 2
    ensures ByteWidth('\U{7FF}') == 2 && ByteWidth('\U{800}') == 3
    ensures ByteWidth('\U{FFFF}') == 3 && ByteWidth('\U{10000}') == 4
  {
  }

  predicate OverrideBeats(o: Member<OverrideRow>, w: Member<OverrideRow>) {
    ByteLength(o.value.name) > ByteLength(w.value.name)
  }

  /** All three rules are consistent precedences, so reading order only settles ties. */
  lemma RulesArePrecedences(all: seq<Member<AliasRow>>)
    ensures Precedence(CategoryBeats)
    ensures Precedence((a, b) => AliasBeats(all, a, b))
    ensures Precedence(OverrideBeats)
  {
  }

  /** A hand-filed category is never replaced by one a rule or a model chose. */
  lemma ManualCategorySurvives(all: seq<Member<CategoryRow>>, mapping: map<Key, Key>, t: Key,
                               write: CategoryRow -> CategoryRow)
    requires forall v :: write(v).source == v.source
    requires exists m :: m in Converging(all, mapping, t) && m.value.source == "manual"
    ensures Outcome(all, mapping, t, CategoryBeats, write).source == "manual"
  {
    var ms := Converging(all, mapping, t);
    var m :| m in ms && m.value.source == "manual";
    RulesArePrecedences([]);
    WinnerUnbeaten(ms, CategoryBeats);
    assert !CategoryBeats(m, Winner(ms, CategoryBeats));
  }

  /** A confirmed alias outranks any suggestion; among equals no merchant with more aliases is passed over. */
  lemma ConfirmedAliasSurvives(all: seq<Member<AliasRow>>, mapping: map<Key, Key>, t: Key)
    requires |Converging(all, mapping, t)| > 0
    ensures var won := Outcome(all, mapping, t, (a, b) => AliasBeats(all, a, b), v => v);
            forall m :: m in Converging(all, mapping, t) ==>
              && (won.source == "suggested" ==> m.value.source == "suggested")
              && ((won.source == "suggested" <==> m.value.source == "suggested") ==>
                    Weight(all, won.entity) >= Weight(all, m.value.entity))
  {
    var ms := Converging(all, mapping, t);
    var beats := (a, b) => AliasBeats(all, a, b);
    RulesArePrecedences(all);
    WinnerUnbeaten(ms, beats);
    forall m | m in ms
      ensures !AliasBeats(all, m, Winner(ms, beats))
    {
      assert !beats(m, Winner(ms, beats));
    }
  }

  /** The run stops on a key that moves on to a later one, and not on the same chain the other way round. */
  lemma ChainStopsTheRun(v: AliasRow)
    ensures Chained(map[Slot(0, "a") := v, Slot(0, "b") := v], 0, map["a" := "b", "b" := "c"])
    ensures !Chained(map[Slot(0, "b") := v, Slot(0, "c") := v], 0, map["b" := "a", "c" := "b"])
  {
    assert Blocks("a", "b", map["a" := "b", "b" := "c"]);
    LessAsymmetric("a", "b");
    LessAsymmetric("b", "c");
  }

  // ------------------------------------------------------------- transactions

  /** A transaction's merchant identity; its number is its position in the ledger. */
  datatype Txn = Txn(household: Household, key: Option<Key>, merchantName: string, name: string)

  datatype TxnRow = TxnRow(id: nat, household: Household, oldKey: Key, newKey: Key)

  type Normaliser = (string, string) -> Key

  /** The recomputed key, or the old one when nothing meaningful survives. */
  function NewKey(t: Txn, merchantKey: Normaliser): Key
    requires t.key.Some?
  {
    var k := merchantKey(t.merchantName, t.name);
    if k == "" then t.key.value else k
  }

  predicate IsChange(t: Txn, merchantKey: Normaliser) {
    t.key.Some? && NewKey(t, merchantKey) != t.key.value
  }

  /** rows are the transactions whose key changes, each once, in ledger order. */
  ghost predicate AreChanges(rows: seq<TxnRow>, txns: seq<Txn>, merchantKey: Normaliser) {
    && (forall i :: 0 <= i < |rows| ==> IsRowOf(rows[i], txns, merchantKey))
    && (forall i, j :: 0 <= i < j < |rows| ==> rows[i].id < rows[j].id)
    && (forall id :: 0 <= id < |txns| && IsChange(txns[id], merchantKey) ==> HasRow(rows, id))
  }

  predicate IsRowOf(r: TxnRow, txns: seq<Txn>, merchantKey: Normaliser) {
    && r.id < |txns| && IsChange(txns[r.id], merchantKey)
    && r == TxnRow(r.id, txns[r.id].household, txns[r.id].key.value, NewKey(txns[r.id], merchantKey))
  }

  ghost predicate HasRow(rows: seq<TxnRow>, id: nat) {
    exists i :: 0 <= i < |rows| && rows[i].id == id
  }

  method LoadChanges(txns: seq<Txn>, merchantKey: Normaliser) returns (rows: seq<TxnRow>)
    ensures AreChanges(rows, txns, merchantKey)
  {
    rows := [];
    for id := 0 to |txns|
      invariant forall i :: 0 <= i < |rows| ==> IsRowOf(rows[i], txns, merchantKey) && rows[i].id < id
      invariant forall i, j :: 0 <= i < j < |rows| ==> rows[i].id < rows[j].id
      invariant forall d :: 0 <= d < id && IsChange(txns[d], merchantKey) ==> HasRow(rows, d)
    {
      var t := txns[id];
      if t.key.Some? {
        var newKey := NewKey(t, merchantKey);
        if newKey != t.key.value {
          ghost var before := rows;
          rows := rows + [TxnRow(id, t.household, t.key.value, newKey)];
          assert rows[|before|].id == id;
          forall d | HasRow(before, d)
            ensures HasRow(rows, d)
          {
            var i :| 0 <= i < |before| && before[i].id == d;
            assert rows[i].id == d;
          }
        }
      }
    }
  }

  /** The old-to-new map of one household; a later row for the same key overrides an earlier one. */
  function Mapping(rows: seq<TxnRow>, h: Household): map<Key, Key> {
    if |rows| == 0 then map[]
    else
      var before, r := Mapping(rows[..|rows| - 1], h), rows[|rows| - 1];
      if r.household == h then before[r.oldKey := r.newKey] else before
  }

  method KeyMapping(rows: seq<TxnRow>, h: Household) returns (out: map<Key, Key>)
    ensures out == Mapping(rows, h)
  {
    out := map[];
    for i := 0 to |rows|
      invariant out == Mapping(rows[..i], h)
    {
      assert rows[..i + 1][..i] == rows[..i];
      if rows[i].household == h {
        out := out[rows[i].oldKey := rows[i].newKey];
      }
    }
    assert rows[..|rows|] == rows;
  }

  predicate Carries(r: TxnRow, h: Household, from: Key, to: Key) {
    r.household == h && r.oldKey == from && r.newKey == to
  }

  /** Some changed transaction of the household goes from one key to the other. */
  predicate HasCarrier(rows: seq<TxnRow>, h: Household, from: Key, to: Key) {
    exists r :: r in rows && Carries(r, h, from, to)
  }

  /** Every entry of the map is some changed transaction's, and every changed key has an entry. */
  lemma {:induction false} MappingRows(rows: seq<TxnRow>, h: Household)
    ensures forall k :: k in Mapping(rows, h) ==> HasCarrier(rows, h, k, Mapping(rows, h)[k])
    ensures forall r :: r in rows && r.household == h ==> r.oldKey in Mapping(rows, h)
  {
    if |rows| > 0 {
      var init, last := rows[..|rows| - 1], rows[|rows| - 1];
      MappingRows(init, h);
      assert rows == init + [last];
      forall k | k in Mapping(rows, h)
        ensures HasCarrier(rows, h, k, Mapping(rows, h)[k])
      {
        if last.household == h && last.oldKey == k {
          assert Carries(last, h, k, Mapping(rows, h)[k]);
        } else {
          assert k in Mapping(init, h) && Mapping(rows, h)[k] == Mapping(init, h)[k];
          assert HasCarrier(init, h, k, Mapping(init, h)[k]);
          var r :| r in init && Carries(r, h, k, Mapping(init, h)[k]);
          assert r in rows;
        }
      }
    }
  }

  /** Of the changed transactions with one key, the last decides where the key goes. */
  lemma {:induction false} LastChangeDecides(rows: seq<TxnRow>, h: Household, i: nat)
    requires i < |rows| && rows[i].household == h
    requires forall j :: i < j < |rows| && rows[j].household == h ==> rows[j].oldKey != rows[i].oldKey
    ensures rows[i].oldKey in Mapping(rows, h) && Mapping(rows, h)[rows[i].oldKey] == rows[i].newKey
  {
    if i < |rows| - 1 { LastChangeDecides(rows[..|rows| - 1], h, i); }
  }

  // --------------------------------------------------- updating transactions

  /** The ledger with every listed transaction on its new key. */
  function Updated(txns: seq<Txn>, rows: seq<TxnRow>): (after: seq<Txn>)
    ensures |after| == |txns|
  {
    if |rows| == 0 then txns
    else
      var before, r := Updated(txns, rows[..|rows| - 1]), rows[|rows| - 1];
      if r.id < |before| then before[r.id := before[r.id].(key := Some(r.newKey))] else before
  }

  lemma {:induction false} UpdatedAt(txns: seq<Txn>, rows: seq<TxnRow>)
    requires forall i, j :: 0 <= i < j < |rows| ==> rows[i].id < rows[j].id
    ensures forall i :: 0 <= i < |rows| && rows[i].id < |txns| ==>
              Updated(txns, rows)[rows[i].id] == txns[rows[i].id].(key := Some(rows[i].newKey))
    ensures forall id :: 0 <= id < |txns| && !HasRow(rows, id) ==> Updated(txns, rows)[id] == txns[id]
  {
    if |rows| > 0 {
      var init := rows[..|rows| - 1];
      UpdatedAt(txns, init);
      assert forall id :: HasRow(init, id) ==> HasRow(rows, id) by {
        forall id | HasRow(init, id)
          ensures HasRow(rows, id)
        {
          var i :| 0 <= i < |init| && init[i].id == id;
          assert rows[i].id == id;
        }
      }
      var last := rows[|rows| - 1];
      assert HasRow(rows, last.id);
      forall i | 0 <= i < |init|
        ensures init[i].id != last.id
      {
        assert rows[i].id < last.id;
      }
    }
  }

  /** Applying the changes leaves nothing to change. */
  lemma SecondRunFindsNothing(txns: seq<Txn>, rows: seq<TxnRow>, merchantKey: Normaliser)
    requires AreChanges(rows, txns, merchantKey)
    ensures forall id :: 0 <= id < |txns| ==> !IsChange(Updated(txns, rows)[id], merchantKey)
    ensures forall again :: AreChanges(again, Updated(txns, rows), merchantKey) ==> again == []
  {
    UpdatedAt(txns, rows);
    var after := Updated(txns, rows);
    forall id | 0 <= id < |txns|
      ensures !IsChange(after[id], merchantKey)
    {
      if HasRow(rows, id) {
        var i :| 0 <= i < |rows| && rows[i].id == id;
        assert IsRowOf(rows[i], txns, merchantKey);
      }
    }
    forall again | AreChanges(again, after, merchantKey)
      ensures again == []
    {
      assert |again| > 0 ==> IsRowOf(again[0], after, merchantKey);
    }
  }

  /** The rows going to k, by number. */
  function Batch(rows: seq<TxnRow>, k: Key): (ids: seq<nat>)
    ensures forall id :: id in ids ==> exists i :: 0 <= i < |rows| && rows[i].id == id && rows[i].newKey == k
    ensures forall i :: 0 <= i < |rows| && rows[i].newKey == k ==> rows[i].id in ids
  {
    if |rows| == 0 then []
    else
      var before, r := Batch(rows[..|rows| - 1], k), rows[|rows| - 1];
      if r.newKey == k then before + [r.id] else before
  }

  function CountGoingTo(rows: seq<TxnRow>, keys: set<Key>): nat {
    if |rows| == 0 then 0
    else CountGoingTo(rows[..|rows| - 1], keys) + if rows[|rows| - 1].newKey in keys then 1 else 0
  }

  lemma {:induction false} CountWithoutBatch(rows: seq<TxnRow>, keys: set<Key>, k: Key)
    requires k in keys
    ensures CountGoingTo(rows, keys) == CountGoingTo(rows, keys - {k}) + |Batch(rows, k)|
  {
    if |rows| > 0 { CountWithoutBatch(rows[..|rows| - 1], keys, k); }
  }

  lemma {:induction false} CountOfAll(rows: seq<TxnRow>, keys: set<Key>)
    ensures (forall r :: r in rows ==> r.newKey in keys) ==> CountGoingTo(rows, keys) == |rows|
    ensures keys == {} ==> CountGoingTo(rows, keys) == 0
  {
    if |rows| > 0 { CountOfAll(rows[..|rows| - 1], keys); }
  }

  method BatchByKey(rows: seq<TxnRow>) returns (byKey: map<Key, seq<nat>>)
    ensures forall r :: r in rows ==> r.newKey in byKey
    ensures forall k :: k in byKey ==> byKey[k] == Batch(rows, k)
  {
    byKey := map[];
    for i := 0 to |rows|
      invariant forall k :: k in byKey ==> byKey[k] == Batch(rows[..i], k)
      invariant forall k :: k !in byKey ==> Batch(rows[..i], k) == []
      invariant forall r :: r in rows[..i] ==> r.newKey in byKey
    {
      assert rows[..i + 1][..i] == rows[..i];
      var k := rows[i].newKey;
      byKey := byKey[k := (if k in byKey then byKey[k] else []) + [rows[i].id]];
    }
    assert rows[..|rows|] == rows;
  }

  /** One statement per destination, together updating every listed transaction once. */
  method UpdateTransactions(txns: seq<Txn>, rows: seq<TxnRow>) returns (after: seq<Txn>, total: nat)
    requires forall i :: 0 <= i < |rows| ==> rows[i].id < |txns|
    requires forall i, j :: 0 <= i < j < |rows| ==> rows[i].id < rows[j].id
    ensures after == Updated(txns, rows)
    ensures total == |rows|
  {
    var byKey := BatchByKey(rows);
    after, total := txns, 0;
    var left := byKey.Keys;
    CountOfAll(rows, left);
    while left != {}
      invariant left <= byKey.Keys && UpdatedBut(after, txns, rows, left)
      invariant total + CountGoingTo(rows, left) == |rows|
      decreases |left|
    {
      var k :| k in left;
      var ids := byKey[k];
      CountWithoutBatch(rows, left, k);
      OneBatch(after, txns, rows, left, k);
      after := OnKey(after, ids, k);
      total := total + |ids|;
      left := left - {k};
    }
    CountOfAll(rows, left);
    RowsUpdated(txns, rows, after);
  }

  /** The transactions of one batch, put on its key. */
  function OnKey(txns: seq<Txn>, ids: seq<nat>, k: Key): (after: seq<Txn>)
    ensures |after| == |txns|
  {
    seq(|txns|, id requires 0 <= id < |txns| => if id in ids then txns[id].(key := Some(k)) else txns[id])
  }

  /** Every listed transaction is on its new key, except those going to a key still left. */
  ghost predicate UpdatedBut(after: seq<Txn>, txns: seq<Txn>, rows: seq<TxnRow>, left: set<Key>)
    requires forall i :: 0 <= i < |rows| ==> rows[i].id < |txns|
  {
    && |after| == |txns|
    && (forall i :: 0 <= i < |rows| ==> after[rows[i].id] == UpdatedRow(txns[rows[i].id], rows[i], left))
    && (forall id :: 0 <= id < |txns| && !HasRow(rows, id) ==> after[id] == txns[id])
  }

  function UpdatedRow(t: Txn, r: TxnRow, left: set<Key>): Txn {
    if r.newKey in left then t else t.(key := Some(r.newKey))
  }

  lemma OneBatch(after: seq<Txn>, txns: seq<Txn>, rows: seq<TxnRow>, left: set<Key>, k: Key)
    requires forall i :: 0 <= i < |rows| ==> rows[i].id < |txns|
    requires forall i, j :: 0 <= i < j < |rows| ==> rows[i].id < rows[j].id
    requires UpdatedBut(after, txns, rows, left) && k in left
    ensures UpdatedBut(OnKey(after, Batch(rows, k), k), txns, rows, left - {k})
  {
    BatchRows(rows, k);
  }

  lemma RowsUpdated(txns: seq<Txn>, rows: seq<TxnRow>, after: seq<Txn>)
    requires forall i, j :: 0 <= i < j < |rows| ==> rows[i].id < rows[j].id
    requires |after| == |txns| && forall i :: 0 <= i < |rows| ==> rows[i].id < |txns|
    requires forall i :: 0 <= i < |rows| ==> after[rows[i].id] == txns[rows[i].id].(key := Some(rows[i].newKey))
    requires forall id :: 0 <= id < |txns| && !HasRow(rows, id) ==> after[id] == txns[id]
    ensures after == Updated(txns, rows)
  {
    UpdatedAt(txns, rows);
    forall id | 0 <= id < |txns|
      ensures after[id] == Updated(txns, rows)[id]
    {
      if HasRow(rows, id) {
        var i :| 0 <= i < |rows| && rows[i].id == id;
      }
    }
  }

  lemma BatchRows(rows: seq<TxnRow>, k: Key)
    requires forall i, j :: 0 <= i < j < |rows| ==> rows[i].id < rows[j].id
    ensures forall i :: 0 <= i < |rows| ==> (rows[i].id in Batch(rows, k) <==> rows[i].newKey == k)
    ensures forall id :: id in Batch(rows, k) ==> HasRow(rows, id)
  {
    forall i | 0 <= i < |rows| && rows[i].id in Batch(rows, k)
      ensures rows[i].newKey == k
    {
      var j :| 0 <= j < |rows| && rows[j].id == rows[i].id && rows[j].newKey == k;
      assert i == j;
    }
  }

  // ----------------------------------------------------------- the whole run

  /** The household's rows were remapped at once, for some order they were read in. */
  ghost predicate Moved<V(!new)>(before: map<Slot, V>, after: map<Slot, V>, h: Household, mapping: map<Key, Key>,
                           rule: seq<Member<V>> -> ((Member<V>, Member<V>) -> bool), write: V -> V) {
    exists all :: Lists(all, before, h) && IsRemap(after, h, all, mapping, rule(all), write)
  }

  function CategoryRule(all: seq<Member<CategoryRow>>): (Member<CategoryRow>, Member<CategoryRow>) -> bool {
    CategoryBeats
  }

  function AliasRule(all: seq<Member<AliasRow>>): (Member<AliasRow>, Member<AliasRow>) -> bool {
    (a, b) => AliasBeats(all, a, b)
  }

  function OverrideRule(all: seq<Member<OverrideRow>>): (Member<OverrideRow>, Member<OverrideRow>) -> bool {
    OverrideBeats
  }

  /** A rewritten category row is a new row, updated at the time of the run. */
  function Stamp(now: int): CategoryRow -> CategoryRow {
    (v: CategoryRow) => v.(updatedAt := now)
  }

  function Keep<V>(v: V): V { v }

  /** Reads a household's rows and moves them, or stops at a key that is still occupied. */
  method RemapTable<V(!new)>(table: KeyedTable<V>, h: Household, mapping: map<Key, Key>,
                       rule: seq<Member<V>> -> ((Member<V>, Member<V>) -> bool), write: V -> V)
    returns (ok: bool)
    modifies table
    ensures ok <==> !Chained(old(table.rows), h, mapping)
    ensures ok ==> Moved(old(table.rows), table.rows, h, mapping, rule, write)
    ensures ok ==> OthersSame(old(table.rows), table.rows, h)
  {
    var all := table.Select(h);
    ok := Remap(table, h, all, mapping, rule(all), write);
  }

  method Households(rows: seq<TxnRow>) returns (out: seq<Household>)
    ensures forall h :: h in out <==> exists i :: 0 <= i < |rows| && rows[i].household == h
    ensures forall i, j :: 0 <= i < j < |out| ==> out[i] != out[j]
  {
    out := [];
    for i := 0 to |rows|
      invariant forall h :: h in out <==> exists j :: 0 <= j < i && rows[j].household == h
      invariant forall j, k :: 0 <= j < k < |out| ==> out[j] != out[k]
    {
      if rows[i].household !in out {
        out := out + [rows[i].household];
      }
    }
  }

  /** A transaction with a key carries what the normaliser makes of its names, if anything; nothing else about it changes. */
  predicate IsRekeyed(before: Txn, after: Txn, merchantKey: Normaliser) {
    var key := merchantKey(before.merchantName, before.name);
    && after.household == before.household && after.merchantName == before.merchantName && after.name == before.name
    && (before.key.None? ==> after.key.None?)
    && (before.key.Some? && key == "" ==> after.key == before.key)
    && (before.key.Some? && key != "" ==> after.key == Some(key))
  }

  predicate Rekeyed(before: seq<Txn>, after: seq<Txn>, merchantKey: Normaliser) {
    |after| == |before| && forall id :: 0 <= id < |before| ==> IsRekeyed(before[id], after[id], merchantKey)
  }

  lemma AllRekeyed(txns: seq<Txn>, rows: seq<TxnRow>, merchantKey: Normaliser)
    requires AreChanges(rows, txns, merchantKey)
    ensures Rekeyed(txns, Updated(txns, rows), merchantKey)
  {
    UpdatedAt(txns, rows);
    forall id | 0 <= id < |txns|
      ensures IsRekeyed(txns[id], Updated(txns, rows)[id], merchantKey)
    {
      if txns[id].key.Some? {
        UpdatedToNewKey(txns, rows, id, merchantKey);
      } else {
        KeylessHasNoRow(txns, rows, id, merchantKey);
      }
    }
  }

  lemma KeylessHasNoRow(txns: seq<Txn>, rows: seq<TxnRow>, id: nat, merchantKey: Normaliser)
    requires AreChanges(rows, txns, merchantKey) && id < |txns| && txns[id].key.None?
    ensures !HasRow(rows, id)
  {
    forall i | 0 <= i < |rows|
      ensures rows[i].id != id
    {
      assert IsRowOf(rows[i], txns, merchantKey);
    }
  }

  /** Every alias key is on some transaction of its household. */
  ghost predicate AliasesCarried(aliases: map<Slot, AliasRow>, txns: seq<Txn>) {
    forall s :: s in aliases ==> IsCarried(s, txns)
  }

  ghost predicate IsCarried(s: Slot, txns: seq<Txn>) {
    exists id :: 0 <= id < |txns| && txns[id].household == s.household && txns[id].key == Some(s.key)
  }

  /** Every alias belongs to a merchant that exists. */
  ghost predicate AliasesOwned(aliases: map<Slot, AliasRow>, entities: map<EntityId, Household>) {
    forall s :: s in aliases ==> aliases[s].entity in entities
  }

  predicate HasAlias(e: EntityId, aliases: map<Slot, AliasRow>) {
    exists s :: s in aliases && aliases[s].entity == e
  }

  /** The household's rows, unchanged. */
  ghost predicate SameHousehold<V>(before: map<Slot, V>, after: map<Slot, V>, h: Household) {
    forall k :: SameAt(before, after, Slot(h, k))
  }

  // -------------------------------------------------- runs that read differently

  /** The rule does not depend on the order the rows were read in. */
  ghost predicate RuleIgnoresOrder<V(!new)>(rule: seq<Member<V>> -> ((Member<V>, Member<V>) -> bool),
                                      rows: map<Slot, V>, h: Household) {
    forall x, y, a, b :: Lists(x, rows, h) && Lists(y, rows, h) ==> rule(x)(a, b) == rule(y)(a, b)
  }

  lemma {:induction false} OncePerKey<V>(ms: seq<Member<V>>, m: Member<V>)
    requires DistinctKeys(ms)
    ensures multiset(ms)[m] == if m in ms then 1 else 0
  {
    if |ms| > 0 {
      var init, last := ms[..|ms| - 1], ms[|ms| - 1];
      assert ms == init + [last];
      OncePerKey(init, m);
    }
  }

  lemma ListingsArePermutations<V(!new)>(x: seq<Member<V>>, y: seq<Member<V>>, rows: map<Slot, V>, h: Household)
    requires Lists(x, rows, h) && Lists(y, rows, h)
    ensures multiset(x) == multiset(y)
  {
    forall m
      ensures multiset(x)[m] == multiset(y)[m]
    {
      OncePerKey(x, m);
      OncePerKey(y, m);
      if m in x { SameRowsListed(x, y, rows, h, m); }
      if m in y { SameRowsListed(y, x, rows, h, m); }
    }
  }

  lemma {:induction false} WeightAppends(x: seq<Member<AliasRow>>, y: seq<Member<AliasRow>>, e: EntityId)
    ensures Weight(x + y, e) == Weight(x, e) + Weight(y, e)
  {
    if |y| == 0 {
      assert x + y == x;
    } else {
      WeightAppends(x, y[..|y| - 1], e);
      assert (x + y)[..|x + y| - 1] == x + y[..|y| - 1];
    }
  }

  lemma WeightWithout(x: seq<Member<AliasRow>>, m: Member<AliasRow>, y: seq<Member<AliasRow>>, e: EntityId)
    ensures Weight(x + [m] + y, e) == Weight(x + y, e) + Weight([m], e)
  {
    WeightAppends(x + [m], y, e);
    WeightAppends(x, [m], e);
    WeightAppends(x, y, e);
  }

  lemma {:induction false} WeightIgnoresOrder(x: seq<Member<AliasRow>>, y: seq<Member<AliasRow>>, e: EntityId)
    requires multiset(x) == multiset(y)
    ensures Weight(x, e) == Weight(y, e)
  {
    if |x| == 0 {
      assert |y| == |multiset(y)|;
    } else {
      var init, last := x[..|x| - 1], x[|x| - 1];
      assert x == init + [last] && last in multiset(y);
      var j :| 0 <= j < |y| && y[j] == last;
      assert y == y[..j] + [last] + y[j + 1..];
      Sorting.TakenOut(y[..j], last, y[j + 1..], init);
      WeightIgnoresOrder(init, y[..j] + y[j + 1..], e);
      WeightPutBack(init, y[..j], y[j + 1..], last, e);
    }
  }

  lemma WeightPutBack(init: seq<Member<AliasRow>>, a: seq<Member<AliasRow>>, b: seq<Member<AliasRow>>,
                      last: Member<AliasRow>, e: EntityId)
    requires Weight(init, e) == Weight(a + b, e)
    ensures Weight(init + [last], e) == Weight(a + [last] + b, e)
  {
    WeightWithout(a, last, b, e);
    WeightAppends(init, [last], e);
  }

  /** None of the three rules looks at the reading order; the alias rule counts merchants over all of it. */
  lemma RulesIgnoreOrder(categories: map<Slot, CategoryRow>, aliases: map<Slot, AliasRow>,
                         overrides: map<Slot, OverrideRow>, h: Household)
    ensures RuleIgnoresOrder(CategoryRule, categories, h)
    ensures RuleIgnoresOrder(AliasRule, aliases, h)
    ensures RuleIgnoresOrder(OverrideRule, overrides, h)
  {
    forall x, y, a, b | Lists(x, aliases, h) && Lists(y, aliases, h)
      ensures AliasRule(x)(a, b) == AliasRule(y)(a, b)
    {
      ListingsArePermutations(x, y, aliases, h);
      WeightIgnoresOrder(x, y, a.value.entity);
      WeightIgnoresOrder(x, y, b.value.entity);
    }
  }

  lemma {:induction false} WinnerAlike<V(!new)>(ms: seq<Member<V>>, f: (Member<V>, Member<V>) -> bool,
                                          g: (Member<V>, Member<V>) -> bool)
    requires |ms| > 0 && forall a, b :: f(a, b) == g(a, b)
    ensures Winner(ms, f) == Winner(ms, g)
  {
    if |ms| > 1 { WinnerAlike(ms[..|ms| - 1], f, g); }
  }

  /** The table a run that read the rows in this order leaves, for the household. */
  ghost function RemapOf<V(!new)>(all: seq<Member<V>>, h: Household, mapping: map<Key, Key>,
                            beats: (Member<V>, Member<V>) -> bool, write: V -> V): map<Slot, V> {
    map s | s in (set i | 0 <= i < |all| && |Converging(all, mapping, Target(mapping, all[i].key))| > 0
                    :: Slot(h, Target(mapping, all[i].key)))
      :: Outcome(all, mapping, s.key, beats, write)
  }

  lemma RemapOfIsRemap<V(!new)>(all: seq<Member<V>>, h: Household, mapping: map<Key, Key>,
                          beats: (Member<V>, Member<V>) -> bool, write: V -> V)
    ensures IsRemap(RemapOf(all, h, mapping, beats, write), h, all, mapping, beats, write)
  {
    var after := RemapOf(all, h, mapping, beats, write);
    forall k
      ensures Slot(h, k) in after <==> |Converging(all, mapping, k)| > 0
    {
      if |Converging(all, mapping, k)| > 0 {
        var m := Converging(all, mapping, k)[0];
        assert m in Converging(all, mapping, k);
        var i :| 0 <= i < |all| && all[i] == m;
        assert Target(mapping, all[i].key) == k;
      }
    }
  }

  /** No two runs from these rows can be told apart, whatever order each read them in. */
  ghost predicate AllRunsAgree<V(!new)>(first: map<Slot, V>, h: Household, mapping: map<Key, Key>,
                                  rule: seq<Member<V>> -> ((Member<V>, Member<V>) -> bool), write: V -> V) {
    forall x, y :: Moved(first, x, h, mapping, rule, write) && Moved(first, y, h, mapping, rule, write) ==>
      SameHousehold(x, y, h)
  }

  /** On every destination the rows no other beats would be written alike. */
  ghost predicate NoTieMatters<V(!new)>(all: seq<Member<V>>, mapping: map<Key, Key>,
                                  beats: (Member<V>, Member<V>) -> bool, write: V -> V) {
    forall t :: |Converging(all, mapping, t)| > 0 ==> TopsAgree(Converging(all, mapping, t), beats, write)
  }

  lemma OutcomeAsListed<V(!new)>(all: seq<Member<V>>, x: seq<Member<V>>, first: map<Slot, V>, h: Household,
                           mapping: map<Key, Key>, k: Key,
                           rule: seq<Member<V>> -> ((Member<V>, Member<V>) -> bool), write: V -> V)
    requires Lists(all, first, h) && Lists(x, first, h)
    requires RuleIgnoresOrder(rule, first, h) && Precedence(rule(all)) && NoTieMatters(all, mapping, rule(all), write)
    ensures |Converging(x, mapping, k)| > 0 <==> |Converging(all, mapping, k)| > 0
    ensures |Converging(all, mapping, k)| > 0 ==>
              Outcome(x, mapping, k, rule(x), write) == Outcome(all, mapping, k, rule(all), write)
  {
    if |Converging(x, mapping, k)| > 0 { SettledAlike(x, all, first, h, mapping, k); }
    if |Converging(all, mapping, k)| > 0 {
      TopsDecide(all, x, first, h, mapping, k, rule(all), write);
      WinnerAlike(Converging(x, mapping, k), rule(x), rule(all));
    }
  }

  /** Where no tie matters, every run leaves what this reading order leaves. */
  lemma MovedAsListed<V(!new)>(all: seq<Member<V>>, first: map<Slot, V>, after: map<Slot, V>, h: Household,
                         mapping: map<Key, Key>, rule: seq<Member<V>> -> ((Member<V>, Member<V>) -> bool), write: V -> V)
    requires Lists(all, first, h) && RuleIgnoresOrder(rule, first, h) && Precedence(rule(all))
    requires NoTieMatters(all, mapping, rule(all), write)
    requires Moved(first, after, h, mapping, rule, write)
    ensures IsRemap(after, h, all, mapping, rule(all), write)
  {
    var x :| Lists(x, first, h) && IsRemap(after, h, x, mapping, rule(x), write);
    forall k
      ensures Slot(h, k) in after <==> |Converging(all, mapping, k)| > 0
      ensures Slot(h, k) in after ==> after[Slot(h, k)] == Outcome(all, mapping, k, rule(all), write)
    {
      OutcomeAsListed(all, x, first, h, mapping, k, rule, write);
    }
  }

  lemma SameRemap<V(!new)>(all: seq<Member<V>>, x: map<Slot, V>, y: map<Slot, V>, h: Household, mapping: map<Key, Key>,
                     beats: (Member<V>, Member<V>) -> bool, write: V -> V)
    requires IsRemap(x, h, all, mapping, beats, write) && IsRemap(y, h, all, mapping, beats, write)
    ensures SameHousehold(x, y, h)
  {
  }

  /** Any order the rows can be read in is some run's. */
  lemma RunReading<V(!new)>(x: seq<Member<V>>, first: map<Slot, V>, h: Household, mapping: map<Key, Key>,
                      rule: seq<Member<V>> -> ((Member<V>, Member<V>) -> bool), write: V -> V)
    returns (after: map<Slot, V>)
    requires Lists(x, first, h)
    ensures IsRemap(after, h, x, mapping, rule(x), write) && Moved(first, after, h, mapping, rule, write)
  {
    after := RemapOf(x, h, mapping, rule(x), write);
    RemapOfIsRemap(x, h, mapping, rule(x), write);
  }

  /** Two orders the rows can be read in give the same outcome, if no two runs can be told apart. */
  lemma AgreeingOutcomes<V(!new)>(x: seq<Member<V>>, y: seq<Member<V>>, first: map<Slot, V>, h: Household,
                            mapping: map<Key, Key>, t: Key,
                            rule: seq<Member<V>> -> ((Member<V>, Member<V>) -> bool), write: V -> V)
    requires Lists(x, first, h) && Lists(y, first, h) && AllRunsAgree(first, h, mapping, rule, write)
    requires |Converging(x, mapping, t)| > 0 && |Converging(y, mapping, t)| > 0
    ensures Outcome(x, mapping, t, rule(x), write) == Outcome(y, mapping, t, rule(y), write)
  {
    var tx := RunReading(x, first, h, mapping, rule, write);
    var ty := RunReading(y, first, h, mapping, rule, write);
    assert SameHousehold(tx, ty, h);
    assert SameAt(tx, ty, Slot(h, t));
  }

  lemma OutcomeAlike<V(!new)>(all: seq<Member<V>>, mapping: map<Key, Key>, t: Key,
                              f: (Member<V>, Member<V>) -> bool, g: (Member<V>, Member<V>) -> bool, write: V -> V)
    requires |Converging(all, mapping, t)| > 0 && forall a, b :: f(a, b) == g(a, b)
    ensures Outcome(all, mapping, t, f, write) == Outcome(all, mapping, t, g, write)
  {
    WinnerAlike(Converging(all, mapping, t), f, g);
  }

  lemma AgreeingRunsHaveNoTies<V(!new)>(all: seq<Member<V>>, first: map<Slot, V>, h: Household, mapping: map<Key, Key>,
                                  t: Key, rule: seq<Member<V>> -> ((Member<V>, Member<V>) -> bool), write: V -> V)
    requires Lists(all, first, h) && RuleIgnoresOrder(rule, first, h) && Precedence(rule(all))
    requires |Converging(all, mapping, t)| > 0 && AllRunsAgree(first, h, mapping, rule, write)
    ensures TopsAgree(Converging(all, mapping, t), rule(all), write)
  {
    forall x, y | Lists(x, first, h) && Lists(y, first, h)
                  && |Converging(x, mapping, t)| > 0 && |Converging(y, mapping, t)| > 0
      ensures Outcome(x, mapping, t, rule(all), write) == Outcome(y, mapping, t, rule(all), write)
    {
      AgreeingOutcomes(x, y, first, h, mapping, t, rule, write);
      OutcomeAlike(x, mapping, t, rule(x), rule(all), write);
      OutcomeAlike(y, mapping, t, rule(y), rule(all), write);
    }
    ReadingOrderMattersExactlyWhen(all, first, h, mapping, t, rule(all), write);
  }

  /**
   Two runs from the same rows end alike, whatever order each read them in,
   exactly when on every destination the rows no other beats would be written
   alike: the reading order settles ties and nothing else.
   */
  lemma RunsAgreeExactlyWhen<V(!new)>(all: seq<Member<V>>, first: map<Slot, V>, h: Household, mapping: map<Key, Key>,
                                rule: seq<Member<V>> -> ((Member<V>, Member<V>) -> bool), write: V -> V)
    requires Lists(all, first, h) && RuleIgnoresOrder(rule, first, h) && Precedence(rule(all))
    ensures AllRunsAgree(first, h, mapping, rule, write) <==> NoTieMatters(all, mapping, rule(all), write)
  {
    if NoTieMatters(all, mapping, rule(all), write) {
      forall x, y | Moved(first, x, h, mapping, rule, write) && Moved(first, y, h, mapping, rule, write)
        ensures SameHousehold(x, y, h)
      {
        MovedAsListed(all, first, x, h, mapping, rule, write);
        MovedAsListed(all, first, y, h, mapping, rule, write);
        SameRemap(all, x, y, h, mapping, rule(all), write);
      }
    }
    if AllRunsAgree(first, h, mapping, rule, write) {
      forall t | |Converging(all, mapping, t)| > 0
        ensures TopsAgree(Converging(all, mapping, t), rule(all), write)
      {
        AgreeingRunsHaveNoTies(all, first, h, mapping, t, rule, write);
      }
    }
  }

  /** What that means for the three tables the repair moves. */
  lemma TablesAgreeExactlyWhen(categories: map<Slot, CategoryRow>, aliases: map<Slot, AliasRow>,
                               overrides: map<Slot, OverrideRow>, cs: seq<Member<CategoryRow>>,
                               aas: seq<Member<AliasRow>>, os: seq<Member<OverrideRow>>,
                               h: Household, mapping: map<Key, Key>, now: int)
    requires Lists(cs, categories, h) && Lists(aas, aliases, h) && Lists(os, overrides, h)
    ensures AllRunsAgree(categories, h, mapping, CategoryRule, Stamp(now))
       <==> NoTieMatters(cs, mapping, CategoryBeats, Stamp(now))
    ensures AllRunsAgree(aliases, h, mapping, AliasRule, Keep) <==> NoTieMatters(aas, mapping, AliasRule(aas), Keep)
    ensures AllRunsAgree(overrides, h, mapping, OverrideRule, Keep)
       <==> NoTieMatters(os, mapping, OverrideBeats, Keep)
  {
    RulesIgnoreOrder(categories, aliases, overrides, h);
    RulesArePrecedences(aas);
    RunsAgreeExactlyWhen(cs, categories, h, mapping, CategoryRule, Stamp(now));
    RunsAgreeExactlyWhen(aas, aliases, h, mapping, AliasRule, Keep);
    RunsAgreeExactlyWhen(os, overrides, h, mapping, OverrideRule, Keep);
  }

  /** Two labels of the longest length, both different: which one is kept depends on which was read first. */
  lemma EquallyLongLabelsDependOnOrder(os: seq<Member<OverrideRow>>, first: map<Slot, OverrideRow>, h: Household,
                                       mapping: map<Key, Key>, a: Member<OverrideRow>, b: Member<OverrideRow>)
    requires Lists(os, first, h) && a in os && b in os && Target(mapping, a.key) == Target(mapping, b.key)
    requires ByteLength(a.value.name) == ByteLength(b.value.name) && a.value.name != b.value.name
    requires forall m :: m in Converging(os, mapping, Target(mapping, a.key)) ==>
               ByteLength(m.value.name) <= ByteLength(a.value.name)
    ensures !AllRunsAgree(first, h, mapping, OverrideRule, Keep)
  {
    var ms := Converging(os, mapping, Target(mapping, a.key));
    RulesIgnoreOrder(map[], map[], first, h);
    RulesArePrecedences([]);
    RunsAgreeExactlyWhen(os, first, h, mapping, OverrideRule, Keep);
    assert a in ms && b in ms;
    assert Top(ms, OverrideBeats, a) && Top(ms, OverrideBeats, b);
    assert Keep(a.value) != Keep(b.value);
  }

  /** A household moves the same way whatever has happened to the others. */
  lemma MovedAlone<V(!new)>(first: map<Slot, V>, before: map<Slot, V>, after: map<Slot, V>, h: Household,
                      mapping: map<Key, Key>, rule: seq<Member<V>> -> ((Member<V>, Member<V>) -> bool), write: V -> V)
    requires SameHousehold(first, before, h)
    ensures Moved(before, after, h, mapping, rule, write) ==> Moved(first, after, h, mapping, rule, write)
    ensures Chained(first, h, mapping) <==> Chained(before, h, mapping)
  {
    assert forall k :: SameAt(first, before, Slot(h, k));
    if Moved(before, after, h, mapping, rule, write) {
      var all :| Lists(all, before, h) && IsRemap(after, h, all, mapping, rule(all), write);
      forall s: Slot | s in first && s.household == h
        ensures HoldsKey(all, s.key)
      {
        assert SameAt(first, before, Slot(h, s.key)) && s == Slot(h, s.key);
      }
      assert Lists(all, first, h);
    }
  }

  /** A household that has moved stays as it is while others move. */
  lemma StaysMoved<V(!new)>(first: map<Slot, V>, before: map<Slot, V>, after: map<Slot, V>, h: Household,
                      mapping: map<Key, Key>, rule: seq<Member<V>> -> ((Member<V>, Member<V>) -> bool), write: V -> V)
    requires SameHousehold(before, after, h) && Moved(first, before, h, mapping, rule, write)
    ensures Moved(first, after, h, mapping, rule, write)
  {
    var all :| Lists(all, first, h) && IsRemap(before, h, all, mapping, rule(all), write);
    assert forall k :: SameAt(before, after, Slot(h, k));
    assert IsRemap(after, h, all, mapping, rule(all), write);
  }

  /** Each listed household has moved, and every other is as it was. */
  ghost predicate MovedThrough<V(!new)>(first: map<Slot, V>, now: map<Slot, V>, rows: seq<TxnRow>, done: seq<Household>,
                                  rule: seq<Member<V>> -> ((Member<V>, Member<V>) -> bool), write: V -> V) {
    forall h :: if h in done then Moved(first, now, h, Mapping(rows, h), rule, write) else SameHousehold(first, now, h)
  }

  lemma MovedOneMore<V(!new)>(first: map<Slot, V>, before: map<Slot, V>, after: map<Slot, V>, rows: seq<TxnRow>,
                        done: seq<Household>, h: Household,
                        rule: seq<Member<V>> -> ((Member<V>, Member<V>) -> bool), write: V -> V)
    requires MovedThrough(first, before, rows, done, rule, write) && h !in done
    requires Moved(before, after, h, Mapping(rows, h), rule, write) && OthersSame(before, after, h)
    ensures MovedThrough(first, after, rows, done + [h], rule, write)
  {
    forall g
      ensures if g in done + [h] then Moved(first, after, g, Mapping(rows, g), rule, write)
              else SameHousehold(first, after, g)
    {
      if g == h {
        MovedAlone(first, before, after, h, Mapping(rows, h), rule, write);
      } else {
        assert SameHousehold(before, after, g);
        if g in done {
          StaysMoved(first, before, after, g, Mapping(rows, g), rule, write);
        } else {
          forall k
            ensures SameAt(first, after, Slot(g, k))
          {
            assert SameAt(first, before, Slot(g, k)) && SameAt(before, after, Slot(g, k));
          }
        }
      }
    }
  }

  /** Any of the household's three tables would refuse the rewrite. */
  ghost predicate Refused(categories: map<Slot, CategoryRow>, aliases: map<Slot, AliasRow>,
                          overrides: map<Slot, OverrideRow>, rows: seq<TxnRow>, h: Household) {
    var mapping := Mapping(rows, h);
    Chained(categories, h, mapping) || Chained(aliases, h, mapping) || Chained(overrides, h, mapping)
  }

  class Database {
    const categories: KeyedTable<CategoryRow>
    const aliases: KeyedTable<AliasRow>
    const overrides: KeyedTable<OverrideRow>
    var transactions: seq<Txn>
    var entities: map<EntityId, Household>

    constructor ()
    {
      categories := new KeyedTable();
      aliases := new KeyedTable();
      overrides := new KeyedTable();
      transactions, entities := [], map[];
    }

    /** Deletes the household's merchants that no alias names. */
    method RetireEmptyEntities(h: Household)
      modifies this`entities
      ensures entities == map e | e in old(entities)
                                  && !(old(entities)[e] == h && !HasAlias(e, aliases.rows)) :: old(entities)[e]
    {
      entities := map e | e in entities && !(entities[e] == h && !HasAlias(e, aliases.rows)) :: entities[e];
    }

    /** Deletes empty merchants in every household that had changes. */
    method RetireAll(hs: seq<Household>)
      modifies this`entities
      ensures entities == map e | e in old(entities)
                                  && !(old(entities)[e] in hs && !HasAlias(e, aliases.rows)) :: old(entities)[e]
    {
      ghost var first := entities;
      for i := 0 to |hs|
        invariant entities == map e | e in first
                                      && !(first[e] in hs[..i] && !HasAlias(e, aliases.rows)) :: first[e]
      {
        RetireEmptyEntities(hs[i]);
        assert hs[..i + 1] == hs[..i] + [hs[i]];
      }
      assert hs[..|hs|] == hs;
    }

    /** Moves the three tables of each listed household in turn; stops where a key is still occupied. */
    method RemapHouseholds(rows: seq<TxnRow>, hs: seq<Household>, now: int) returns (ok: bool)
      requires forall i, j :: 0 <= i < j < |hs| ==> hs[i] != hs[j]
      modifies categories, aliases, overrides
      ensures ok <==> forall h :: h in hs ==>
                        !Refused(old(categories.rows), old(aliases.rows), old(overrides.rows), rows, h)
      ensures ok ==> && MovedThrough(old(categories.rows), categories.rows, rows, hs, CategoryRule, Stamp(now))
                     && MovedThrough(old(aliases.rows), aliases.rows, rows, hs, AliasRule, Keep)
                     && MovedThrough(old(overrides.rows), overrides.rows, rows, hs, OverrideRule, Keep)
    {
      ghost var c0, a0, o0 := categories.rows, aliases.rows, overrides.rows;
      for i := 0 to |hs|
        invariant MovedThrough(c0, categories.rows, rows, hs[..i], CategoryRule, Stamp(now))
        invariant MovedThrough(a0, aliases.rows, rows, hs[..i], AliasRule, Keep)
        invariant MovedThrough(o0, overrides.rows, rows, hs[..i], OverrideRule, Keep)
        invariant forall h :: h in hs[..i] ==> !Refused(c0, a0, o0, rows, h)
      {
        var h := hs[i];
        assert h !in hs[..i] && hs[..i + 1] == hs[..i] + [h];
        ghost var c, a, o := categories.rows, aliases.rows, overrides.rows;
        var mapping := KeyMapping(rows, h);
        ok := RemapTable(categories, h, mapping, CategoryRule, Stamp(now));
        MovedAlone(c0, c, categories.rows, h, mapping, CategoryRule, Stamp(now));
        if !ok {
          assert Refused(c0, a0, o0, rows, h);
          return;
        }
        ok := RemapTable(aliases, h, mapping, AliasRule, Keep);
        MovedAlone(a0, a, aliases.rows, h, mapping, AliasRule, Keep);
        if !ok {
          assert Refused(c0, a0, o0, rows, h);
          return;
        }
        ok := RemapTable(overrides, h, mapping, OverrideRule, Keep);
        MovedAlone(o0, o, overrides.rows, h, mapping, OverrideRule, Keep);
        if !ok {
          assert Refused(c0, a0, o0, rows, h);
          return;
        }
        MovedOneMore(c0, c, categories.rows, rows, hs[..i], h, CategoryRule, Stamp(now));
        MovedOneMore(a0, a, aliases.rows, rows, hs[..i], h, AliasRule, Keep);
        MovedOneMore(o0, o, overrides.rows, rows, hs[..i], h, OverrideRule, Keep);
      }
      assert hs[..|hs|] == hs;
      ok := true;
    }

    /** The same, leaving every table as it was where one is refused. */
    method RemapOrRollBack(rows: seq<TxnRow>, hs: seq<Household>, now: int) returns (ok: bool)
      requires forall i, j :: 0 <= i < j < |hs| ==> hs[i] != hs[j]
      modifies categories, aliases, overrides
      ensures ok <==> forall h :: h in hs ==>
                        !Refused(old(categories.rows), old(aliases.rows), old(overrides.rows), rows, h)
      ensures ok ==> && MovedThrough(old(categories.rows), categories.rows, rows, hs, CategoryRule, Stamp(now))
                     && MovedThrough(old(aliases.rows), aliases.rows, rows, hs, AliasRule, Keep)
                     && MovedThrough(old(overrides.rows), overrides.rows, rows, hs, OverrideRule, Keep)
      ensures !ok ==> && categories.rows == old(categories.rows) && aliases.rows == old(aliases.rows)
                      && overrides.rows == old(overrides.rows)
    {
      var savedCategories, savedAliases, savedOverrides := categories.rows, aliases.rows, overrides.rows;
      ok := RemapHouseholds(rows, hs, now);
      if !ok {
        categories.rows, aliases.rows, overrides.rows := savedCategories, savedAliases, savedOverrides;
      }
    }

    /** Moves the tables, updates the transactions and retires merchants, or leaves everything as it was. */
    method Rewrite(changes: seq<TxnRow>, hs: seq<Household>, now: int) returns (ok: bool, updated: nat)
      requires forall i, j :: 0 <= i < j < |hs| ==> hs[i] != hs[j]
      requires forall h :: h in hs <==> Affected(changes, h)
      requires forall i :: 0 <= i < |changes| ==> changes[i].id < |transactions|
      requires forall i, j :: 0 <= i < j < |changes| ==> changes[i].id < changes[j].id
      modifies this`transactions, this`entities, categories, aliases, overrides
      ensures ok <==> forall h :: Affected(changes, h) ==>
                        !Refused(old(categories.rows), old(aliases.rows), old(overrides.rows), changes, h)
      ensures !ok ==> && transactions == old(transactions) && entities == old(entities)
                      && categories.rows == old(categories.rows) && aliases.rows == old(aliases.rows)
                      && overrides.rows == old(overrides.rows)
      ensures ok ==> transactions == Updated(old(transactions), changes) && updated == |changes|
      ensures ok ==> && AffectedMoved(old(categories.rows), categories.rows, changes, CategoryRule, Stamp(now))
                     && AffectedMoved(old(aliases.rows), aliases.rows, changes, AliasRule, Keep)
                     && AffectedMoved(old(overrides.rows), overrides.rows, changes, OverrideRule, Keep)
      ensures ok ==> entities == Kept(old(entities), changes, aliases.rows)
    {
      updated := 0;
      ok := RemapOrRollBack(changes, hs, now);
      if ok {
        AffectedAreMoved(old(categories.rows), categories.rows, changes, hs, CategoryRule, Stamp(now));
        AffectedAreMoved(old(aliases.rows), aliases.rows, changes, hs, AliasRule, Keep);
        AffectedAreMoved(old(overrides.rows), overrides.rows, changes, hs, OverrideRule, Keep);
        transactions, updated := UpdateTransactions(transactions, changes);
        RetireAll(hs);
      }
    }

    /**
     The repair, in one database transaction. It goes through unless some
     table of some household has a chained key; otherwise nothing changes.
     */
    method Run(merchantKey: Normaliser, now: int) returns (ok: bool, changes: seq<TxnRow>, updated: nat)
      modifies this`transactions, this`entities, categories, aliases, overrides
      ensures AreChanges(changes, old(transactions), merchantKey)
      ensures ok <==> forall h :: Affected(changes, h) ==>
                        !Refused(old(categories.rows), old(aliases.rows), old(overrides.rows), changes, h)
      ensures !ok ==> && transactions == old(transactions) && entities == old(entities)
                      && categories.rows == old(categories.rows) && aliases.rows == old(aliases.rows)
                      && overrides.rows == old(overrides.rows)
      ensures ok ==> transactions == Updated(old(transactions), changes) && updated == |changes|
      ensures ok ==> && AffectedMoved(old(categories.rows), categories.rows, changes, CategoryRule, Stamp(now))
                     && AffectedMoved(old(aliases.rows), aliases.rows, changes, AliasRule, Keep)
                     && AffectedMoved(old(overrides.rows), overrides.rows, changes, OverrideRule, Keep)
      ensures ok ==> entities == Kept(old(entities), changes, aliases.rows)
      ensures ok && AliasesCarried(old(aliases.rows), old(transactions)) ==>
                AliasesCarried(aliases.rows, transactions)
      ensures ok && AliasesOwned(old(aliases.rows), old(entities)) ==> AliasesOwned(aliases.rows, entities)
      ensures ok ==> Rekeyed(old(transactions), transactions, merchantKey)
      ensures ok ==> && CategoriesKept(old(categories.rows), categories.rows, changes, now)
                     && AliasesKept(old(aliases.rows), aliases.rows, changes)
                     && OverridesKept(old(overrides.rows), overrides.rows, changes)
    {
      changes := LoadChanges(transactions, merchantKey);
      var hs := Households(changes);
      HouseholdsOfChanges(changes, hs);
      ok, updated := Rewrite(changes, hs, now);
      if ok {
        StillCarried(old(aliases.rows), aliases.rows, old(transactions), changes, merchantKey);
        StillOwned(old(aliases.rows), aliases.rows, old(entities), changes);
        AllRekeyed(old(transactions), changes, merchantKey);
        AllCategoriesKept(old(categories.rows), categories.rows, changes, now);
        AllAliasesKept(old(aliases.rows), aliases.rows, changes);
        AllOverridesKept(old(overrides.rows), overrides.rows, changes);
      }
    }
  }

  /** Some transaction of the household changes key. */
  ghost predicate Affected(changes: seq<TxnRow>, h: Household) {
    exists r :: r in changes && r.household == h
  }

  /** Each affected household has moved, and every other is as it was. */
  ghost predicate AffectedMoved<V(!new)>(first: map<Slot, V>, now: map<Slot, V>, changes: seq<TxnRow>,
                                   rule: seq<Member<V>> -> ((Member<V>, Member<V>) -> bool), write: V -> V) {
    forall h :: if Affected(changes, h) then Moved(first, now, h, Mapping(changes, h), rule, write)
                else SameHousehold(first, now, h)
  }

  lemma AffectedAreMoved<V(!new)>(first: map<Slot, V>, now: map<Slot, V>, changes: seq<TxnRow>, hs: seq<Household>,
                                  rule: seq<Member<V>> -> ((Member<V>, Member<V>) -> bool), write: V -> V)
    requires MovedThrough(first, now, changes, hs, rule, write)
    requires forall h :: h in hs <==> Affected(changes, h)
    ensures AffectedMoved(first, now, changes, rule, write)
  {
  }

  /** The merchants of unaffected households, and those an alias names. */
  ghost function Kept(entities: map<EntityId, Household>, changes: seq<TxnRow>, aliases: map<Slot, AliasRow>)
    : map<EntityId, Household>
  {
    map e | e in entities && (HasAlias(e, aliases) || !Affected(changes, entities[e])) :: entities[e]
  }

  lemma HouseholdsOfChanges(changes: seq<TxnRow>, hs: seq<Household>)
    requires forall h :: h in hs <==> exists i :: 0 <= i < |changes| && changes[i].household == h
    ensures forall h :: h in hs <==> Affected(changes, h)
  {
    forall h
      ensures h in hs <==> Affected(changes, h)
    {
      if r :| r in changes && r.household == h {
        var i :| 0 <= i < |changes| && changes[i] == r;
      }
    }
  }

  /** An alias that has moved is carried by a transaction that moved with it. */
  lemma StillCarried(before: map<Slot, AliasRow>, after: map<Slot, AliasRow>, txns: seq<Txn>, rows: seq<TxnRow>,
                     merchantKey: Normaliser)
    requires AreChanges(rows, txns, merchantKey)
    requires AffectedMoved(before, after, rows, AliasRule, Keep)
    ensures AliasesCarried(before, txns) ==> AliasesCarried(after, Updated(txns, rows))
  {
    if AliasesCarried(before, txns) {
      forall s | s in after
        ensures IsCarried(s, Updated(txns, rows))
      {
        var h := s.household;
        if Affected(rows, h) {
          assert Moved(before, after, h, Mapping(rows, h), AliasRule, Keep);
          var all :| Lists(all, before, h) && IsRemap(after, h, all, Mapping(rows, h), AliasRule(all), Keep);
          assert s == Slot(h, s.key);
          var m := Converging(all, Mapping(rows, h), s.key)[0];
          assert Slot(h, m.key) in before;
          KeyFollows(txns, rows, h, m.key, merchantKey);
        } else {
          assert SameHousehold(before, after, h) && SameAt(before, after, Slot(h, s.key)) && s == Slot(h, s.key);
          KeyFollows(txns, rows, h, s.key, merchantKey);
          MappingRows(rows, h);
          assert Target(Mapping(rows, h), s.key) == s.key;
        }
      }
    }
  }

  /** If a transaction carries k, one carries k's target after the update. */
  lemma KeyFollows(txns: seq<Txn>, rows: seq<TxnRow>, h: Household, k: Key, merchantKey: Normaliser)
    requires AreChanges(rows, txns, merchantKey) && IsCarried(Slot(h, k), txns)
    ensures IsCarried(Slot(h, Target(Mapping(rows, h), k)), Updated(txns, rows))
  {
    UpdatedAt(txns, rows);
    MappingRows(rows, h);
    var mapping := Mapping(rows, h);
    if k in mapping {
      var r :| r in rows && Carries(r, h, k, mapping[k]);
      var i :| 0 <= i < |rows| && rows[i] == r;
      assert IsRowOf(rows[i], txns, merchantKey);
      assert Updated(txns, rows)[r.id].key == Some(mapping[k]);
    } else {
      var id :| 0 <= id < |txns| && txns[id].household == h && txns[id].key == Some(k);
      forall i | 0 <= i < |rows|
        ensures rows[i].id != id
      {
        assert IsRowOf(rows[i], txns, merchantKey) && rows[i] in rows;
      }
      assert Updated(txns, rows)[id] == txns[id];
    }
  }

  /** What is left on a destination is some row of the group, as it was written. */
  lemma OutcomeIsSomeRows<V>(all: seq<Member<V>>, mapping: map<Key, Key>, k: Key,
                             beats: (Member<V>, Member<V>) -> bool) returns (w: Member<V>)
    requires |Converging(all, mapping, k)| > 0
    ensures w in all && Outcome(all, mapping, k, beats, Keep) == w.value
  {
    var ms := Converging(all, mapping, k);
    w := if Settled(k, ms) then ms[0] else Winner(ms, beats);
    assert w in ms;
  }

  /** The merchant an alias names after the move is one an alias named before it. */
  lemma EntityFollows(before: map<Slot, AliasRow>, after: map<Slot, AliasRow>, h: Household, mapping: map<Key, Key>,
                      k: Key)
    requires Moved(before, after, h, mapping, AliasRule, Keep) && Slot(h, k) in after
    ensures exists from :: Slot(h, from) in before && before[Slot(h, from)].entity == after[Slot(h, k)].entity
  {
    var all :| Lists(all, before, h) && IsRemap(after, h, all, mapping, AliasRule(all), Keep);
    var w := OutcomeIsSomeRows(all, mapping, k, AliasRule(all));
    assert Slot(h, w.key) in before && before[Slot(h, w.key)] == w.value;
  }

  /** A surviving alias names a merchant that had an alias before, and retiring spares every named merchant. */
  lemma StillOwned(before: map<Slot, AliasRow>, after: map<Slot, AliasRow>, entities: map<EntityId, Household>,
                   rows: seq<TxnRow>)
    requires AffectedMoved(before, after, rows, AliasRule, Keep)
    ensures AliasesOwned(before, entities) ==> AliasesOwned(after, Kept(entities, rows, after))
  {
    if AliasesOwned(before, entities) {
      forall s | s in after
        ensures after[s].entity in entities && HasAlias(after[s].entity, after)
      {
        assert s == Slot(s.household, s.key);
        if Affected(rows, s.household) {
          EntityFollows(before, after, s.household, Mapping(rows, s.household), s.key);
        } else {
          assert SameHousehold(before, after, s.household) && SameAt(before, after, Slot(s.household, s.key));
        }
      }
    }
  }

  // --------------------------------------------- what each destination keeps

  /** A row of the household that moves onto t. */
  ghost predicate ComesTo<V>(rows: map<Slot, V>, h: Household, mapping: map<Key, Key>, from: Key, t: Key) {
    Slot(h, from) in rows && Target(mapping, from) == t
  }

  /** Some row of the household moves onto t. */
  ghost predicate MovesTo<V>(rows: map<Slot, V>, h: Household, mapping: map<Key, Key>, t: Key) {
    exists from :: ComesTo(rows, h, mapping, from, t)
  }

  /** Nothing comes to t from elsewhere. */
  ghost predicate Undisturbed<V>(rows: map<Slot, V>, h: Household, mapping: map<Key, Key>, t: Key) {
    forall k :: ComesTo(rows, h, mapping, k, t) ==> k == t
  }

  /** A row of the table, with its key. */
  function RowAt<V>(rows: map<Slot, V>, h: Household, k: Key): Member<V>
    requires Slot(h, k) in rows
  {
    Member(k, rows[Slot(h, k)])
  }

  lemma ListedOrMoved<V>(all: seq<Member<V>>, rows: map<Slot, V>, h: Household, mapping: map<Key, Key>, t: Key)
    requires Lists(all, rows, h)
    ensures |Converging(all, mapping, t)| > 0 <==> MovesTo(rows, h, mapping, t)
    ensures forall k :: ComesTo(rows, h, mapping, k, t) ==> RowAt(rows, h, k) in Converging(all, mapping, t)
    ensures forall m :: m in Converging(all, mapping, t) ==>
              ComesTo(rows, h, mapping, m.key, t) && m == RowAt(rows, h, m.key)
  {
    var ms := Converging(all, mapping, t);
    forall k | ComesTo(rows, h, mapping, k, t)
      ensures RowAt(rows, h, k) in ms
    {
      assert HoldsKey(all, Slot(h, k).key);
      var i :| 0 <= i < |all| && all[i].key == k;
      assert all[i] in ms && all[i] == RowAt(rows, h, k);
    }
    forall m | m in ms
      ensures ComesTo(rows, h, mapping, m.key, t) && m == RowAt(rows, h, m.key)
    {
      assert m in all;
    }
    if |ms| > 0 { assert ms[0] in ms; }
  }

  lemma SettledIsUndisturbed<V>(all: seq<Member<V>>, rows: map<Slot, V>, h: Household, mapping: map<Key, Key>, t: Key)
    requires Lists(all, rows, h) && |Converging(all, mapping, t)| > 0
    ensures Settled(t, Converging(all, mapping, t)) <==> Undisturbed(rows, h, mapping, t)
  {
    ConvergingDistinct(all, mapping, t);
    SettledMeans(t, Converging(all, mapping, t));
    ListedOrMoved(all, rows, h, mapping, t);
    forall m | Undisturbed(rows, h, mapping, t) && m in Converging(all, mapping, t)
      ensures m.key == t
    {
      assert ComesTo(rows, h, mapping, m.key, t);
    }
    forall k | Settled(t, Converging(all, mapping, t)) && ComesTo(rows, h, mapping, k, t)
      ensures k == t
    {
      assert RowAt(rows, h, k) in Converging(all, mapping, t);
    }
  }

  /** What is left on a destination came from a row no other row coming to it beats. */
  lemma KeptRow<V(!new)>(all: seq<Member<V>>, before: map<Slot, V>, h: Household, mapping: map<Key, Key>, t: Key,
                         beats: (Member<V>, Member<V>) -> bool, write: V -> V) returns (from: Key)
    requires Lists(all, before, h) && Precedence(beats) && |Converging(all, mapping, t)| > 0
    ensures ComesTo(before, h, mapping, from, t)
    ensures Outcome(all, mapping, t, beats, write)
         == if Undisturbed(before, h, mapping, t) then before[Slot(h, from)] else write(before[Slot(h, from)])
    ensures forall k :: ComesTo(before, h, mapping, k, t) ==> !beats(RowAt(before, h, k), RowAt(before, h, from))
  {
    var ms := Converging(all, mapping, t);
    ListedOrMoved(all, before, h, mapping, t);
    SettledIsUndisturbed(all, before, h, mapping, t);
    var w := if Settled(t, ms) then ms[0] else Winner(ms, beats);
    assert w in ms;
    from := w.key;
    if Settled(t, ms) {
      forall k | ComesTo(before, h, mapping, k, t)
        ensures RowAt(before, h, k) == w
      {
        assert RowAt(before, h, k) in ms;
      }
    } else {
      WinnerUnbeaten(ms, beats);
    }
  }

  predicate EquallyGoodSource(a: string, b: string) {
    (a == "manual" <==> b == "manual") && (a == "rule" <==> b == "rule")
  }

  /** A hand-filed category is kept over a rule's, a rule's over any other, and among equals the latest. */
  predicate AtLeastAsGood(kept: CategoryRow, other: CategoryRow) {
    && (other.source == "manual" ==> kept.source == "manual")
    && (other.source == "rule" ==> kept.source == "rule" || kept.source == "manual")
    && (EquallyGoodSource(kept.source, other.source) ==> kept.updatedAt >= other.updatedAt)
  }

  lemma CategoryRanks(kept: Member<CategoryRow>, other: Member<CategoryRow>)
    ensures !CategoryBeats(other, kept) <==> AtLeastAsGood(kept.value, other.value)
  {
    assert "manual" != "rule" by { assert |"manual"| == 6 && |"rule"| == 4; }
  }

  /**
   The category on t after the run, from the rows before it: the best row coming
   to t, by source and then by date. It is stamped with the time of the run
   unless nothing came from elsewhere.
   */
  ghost predicate KeepsCategory(before: map<Slot, CategoryRow>, after: map<Slot, CategoryRow>, h: Household,
                                mapping: map<Key, Key>, t: Key, now: int, from: Key) {
    && ComesTo(before, h, mapping, from, t) && Slot(h, t) in after
    && (var kept := before[Slot(h, from)];
        && after[Slot(h, t)] == (if Undisturbed(before, h, mapping, t) then kept else kept.(updatedAt := now))
        && forall k :: ComesTo(before, h, mapping, k, t) ==> AtLeastAsGood(kept, before[Slot(h, k)]))
  }

  /** How many of the household's aliases name the merchant. */
  ghost function AliasCount(rows: map<Slot, AliasRow>, h: Household, e: EntityId): nat {
    |set s | s in rows && s.household == h && rows[s].entity == e|
  }

  /** The alias on t after the run: a confirmed one if any comes to t, and then of the merchant with the most aliases. */
  ghost predicate KeepsAlias(before: map<Slot, AliasRow>, after: map<Slot, AliasRow>, h: Household,
                             mapping: map<Key, Key>, t: Key, from: Key) {
    && ComesTo(before, h, mapping, from, t) && Slot(h, t) in after
    && after[Slot(h, t)] == before[Slot(h, from)]
    && forall k :: ComesTo(before, h, mapping, k, t) ==> BetterFiled(before, h, before[Slot(h, from)], before[Slot(h, k)])
  }

  ghost predicate BetterFiled(rows: map<Slot, AliasRow>, h: Household, kept: AliasRow, other: AliasRow) {
    && (kept.source == "suggested" ==> other.source == "suggested")
    && ((kept.source == "suggested" <==> other.source == "suggested") ==>
          AliasCount(rows, h, kept.entity) >= AliasCount(rows, h, other.entity))
  }

  /** The override on t after the run: one with a longest label of those coming to t. */
  ghost predicate KeepsOverride(before: map<Slot, OverrideRow>, after: map<Slot, OverrideRow>, h: Household,
                                mapping: map<Key, Key>, t: Key, from: Key) {
    && ComesTo(before, h, mapping, from, t) && Slot(h, t) in after
    && after[Slot(h, t)] == before[Slot(h, from)]
    && forall k :: ComesTo(before, h, mapping, k, t) ==>
         ByteLength(before[Slot(h, from)].name) >= ByteLength(before[Slot(h, k)].name)
  }

  /** Everything on every destination of every household, from the rows before the run. */
  ghost predicate CategoriesKept(before: map<Slot, CategoryRow>, after: map<Slot, CategoryRow>, changes: seq<TxnRow>,
                                 now: int) {
    forall h, t ::
      if MovesTo(before, h, Mapping(changes, h), t)
      then exists from :: KeepsCategory(before, after, h, Mapping(changes, h), t, now, from)
      else Slot(h, t) !in after
  }

  ghost predicate AliasesKept(before: map<Slot, AliasRow>, after: map<Slot, AliasRow>, changes: seq<TxnRow>) {
    forall h, t ::
      if MovesTo(before, h, Mapping(changes, h), t)
      then exists from :: KeepsAlias(before, after, h, Mapping(changes, h), t, from)
      else Slot(h, t) !in after
  }

  ghost predicate OverridesKept(before: map<Slot, OverrideRow>, after: map<Slot, OverrideRow>, changes: seq<TxnRow>) {
    forall h, t ::
      if MovesTo(before, h, Mapping(changes, h), t)
      then exists from :: KeepsOverride(before, after, h, Mapping(changes, h), t, from)
      else Slot(h, t) !in after
  }

  /** A household without changes has moved too: every row onto the key it had. */
  lemma UnaffectedMoved<V(!new)>(before: map<Slot, V>, after: map<Slot, V>, changes: seq<TxnRow>, h: Household, t: Key)
    requires !Affected(changes, h) && SameHousehold(before, after, h)
    ensures Undisturbed(before, h, Mapping(changes, h), t)
    ensures MovesTo(before, h, Mapping(changes, h), t) <==> ComesTo(before, h, Mapping(changes, h), t, t)
    ensures Slot(h, t) in after <==> ComesTo(before, h, Mapping(changes, h), t, t)
    ensures Slot(h, t) in after ==> after[Slot(h, t)] == before[Slot(h, t)]
  {
    MappingRows(changes, h);
    assert forall from :: Target(Mapping(changes, h), from) == from;
    assert SameAt(before, after, Slot(h, t));
  }

  lemma CategoryKept(before: map<Slot, CategoryRow>, after: map<Slot, CategoryRow>, h: Household,
                     mapping: map<Key, Key>, t: Key, now: int)
    requires Moved(before, after, h, mapping, CategoryRule, Stamp(now))
    ensures if MovesTo(before, h, mapping, t) then exists from :: KeepsCategory(before, after, h, mapping, t, now, from)
            else Slot(h, t) !in after
  {
    var all :| Lists(all, before, h) && IsRemap(after, h, all, mapping, CategoryRule(all), Stamp(now));
    ListedOrMoved(all, before, h, mapping, t);
    if MovesTo(before, h, mapping, t) {
      RulesArePrecedences([]);
      var from := KeptRow(all, before, h, mapping, t, CategoryBeats, Stamp(now));
      forall k | ComesTo(before, h, mapping, k, t)
        ensures AtLeastAsGood(before[Slot(h, from)], before[Slot(h, k)])
      {
        CategoryRanks(RowAt(before, h, from), RowAt(before, h, k));
      }
      assert KeepsCategory(before, after, h, mapping, t, now, from);
    }
  }

  lemma AliasKept(before: map<Slot, AliasRow>, after: map<Slot, AliasRow>, h: Household, mapping: map<Key, Key>, t: Key)
    requires Moved(before, after, h, mapping, AliasRule, Keep)
    ensures if MovesTo(before, h, mapping, t) then exists from :: KeepsAlias(before, after, h, mapping, t, from)
            else Slot(h, t) !in after
  {
    var all :| Lists(all, before, h) && IsRemap(after, h, all, mapping, AliasRule(all), Keep);
    ListedOrMoved(all, before, h, mapping, t);
    if MovesTo(before, h, mapping, t) {
      RulesArePrecedences(all);
      var from := KeptRow(all, before, h, mapping, t, AliasRule(all), Keep);
      forall k | ComesTo(before, h, mapping, k, t)
        ensures BetterFiled(before, h, before[Slot(h, from)], before[Slot(h, k)])
      {
        WeightIsCount(all, before, h, before[Slot(h, from)].entity);
        WeightIsCount(all, before, h, before[Slot(h, k)].entity);
        assert !AliasBeats(all, RowAt(before, h, k), RowAt(before, h, from));
      }
      assert KeepsAlias(before, after, h, mapping, t, from);
    }
  }

  lemma OverrideKept(before: map<Slot, OverrideRow>, after: map<Slot, OverrideRow>, h: Household,
                     mapping: map<Key, Key>, t: Key)
    requires Moved(before, after, h, mapping, OverrideRule, Keep)
    ensures if MovesTo(before, h, mapping, t) then exists from :: KeepsOverride(before, after, h, mapping, t, from)
            else Slot(h, t) !in after
  {
    var all :| Lists(all, before, h) && IsRemap(after, h, all, mapping, OverrideRule(all), Keep);
    ListedOrMoved(all, before, h, mapping, t);
    if MovesTo(before, h, mapping, t) {
      RulesArePrecedences([]);
      var from := KeptRow(all, before, h, mapping, t, OverrideBeats, Keep);
      forall k | ComesTo(before, h, mapping, k, t)
        ensures ByteLength(before[Slot(h, from)].name) >= ByteLength(before[Slot(h, k)].name)
      {
        assert !OverrideBeats(RowAt(before, h, k), RowAt(before, h, from));
      }
      assert KeepsOverride(before, after, h, mapping, t, from);
    }
  }

  lemma AllCategoriesKept(before: map<Slot, CategoryRow>, after: map<Slot, CategoryRow>, changes: seq<TxnRow>, now: int)
    requires AffectedMoved(before, after, changes, CategoryRule, Stamp(now))
    ensures CategoriesKept(before, after, changes, now)
  {
    forall h, t
      ensures if MovesTo(before, h, Mapping(changes, h), t)
              then exists from :: KeepsCategory(before, after, h, Mapping(changes, h), t, now, from)
              else Slot(h, t) !in after
    {
      if Affected(changes, h) {
        CategoryKept(before, after, h, Mapping(changes, h), t, now);
      } else {
        UnaffectedMoved(before, after, changes, h, t);
        if MovesTo(before, h, Mapping(changes, h), t) {
          assert KeepsCategory(before, after, h, Mapping(changes, h), t, now, t);
        }
      }
    }
  }

  lemma AllAliasesKept(before: map<Slot, AliasRow>, after: map<Slot, AliasRow>, changes: seq<TxnRow>)
    requires AffectedMoved(before, after, changes, AliasRule, Keep)
    ensures AliasesKept(before, after, changes)
  {
    forall h, t
      ensures if MovesTo(before, h, Mapping(changes, h), t)
              then exists from :: KeepsAlias(before, after, h, Mapping(changes, h), t, from)
              else Slot(h, t) !in after
    {
      if Affected(changes, h) {
        AliasKept(before, after, h, Mapping(changes, h), t);
      } else {
        UnaffectedMoved(before, after, changes, h, t);
        if MovesTo(before, h, Mapping(changes, h), t) {
          assert KeepsAlias(before, after, h, Mapping(changes, h), t, t);
        }
      }
    }
  }

  lemma AllOverridesKept(before: map<Slot, OverrideRow>, after: map<Slot, OverrideRow>, changes: seq<TxnRow>)
    requires AffectedMoved(before, after, changes, OverrideRule, Keep)
    ensures OverridesKept(before, after, changes)
  {
    forall h, t
      ensures if MovesTo(before, h, Mapping(changes, h), t)
              then exists from :: KeepsOverride(before, after, h, Mapping(changes, h), t, from)
              else Slot(h, t) !in after
    {
      if Affected(changes, h) {
        OverrideKept(before, after, h, Mapping(changes, h), t);
      } else {
        UnaffectedMoved(before, after, changes, h, t);
        if MovesTo(before, h, Mapping(changes, h), t) {
          assert KeepsOverride(before, after, h, Mapping(changes, h), t, t);
        }
      }
    }
  }

  // ------------------------------------------------- aliases, counted in the table

  ghost function SlotsNaming(all: seq<Member<AliasRow>>, h: Household, e: EntityId): set<Slot> {
    set m | m in all && m.value.entity == e :: Slot(h, m.key)
  }

  lemma {:induction false} WeightIsSlots(all: seq<Member<AliasRow>>, h: Household, e: EntityId)
    requires DistinctKeys(all)
    ensures Weight(all, e) == |SlotsNaming(all, h, e)|
  {
    if |all| > 0 {
      var init, last := all[..|all| - 1], all[|all| - 1];
      assert all == init + [last];
      WeightIsSlots(init, h, e);
      SlotsOfLast(init, last, h, e);
    }
  }

  lemma SlotsOfLast(init: seq<Member<AliasRow>>, last: Member<AliasRow>, h: Household, e: EntityId)
    requires forall m :: m in init ==> m.key != last.key
    ensures |SlotsNaming(init + [last], h, e)| == |SlotsNaming(init, h, e)| + if last.value.entity == e then 1 else 0
  {
    var others, both := SlotsNaming(init, h, e), SlotsNaming(init + [last], h, e);
    if last.value.entity == e {
      assert Slot(h, last.key) !in others;
      assert both == others + {Slot(h, last.key)};
    } else {
      assert both == others;
    }
  }

  lemma WeightIsCount(all: seq<Member<AliasRow>>, rows: map<Slot, AliasRow>, h: Household, e: EntityId)
    requires Lists(all, rows, h)
    ensures Weight(all, e) == AliasCount(rows, h, e)
  {
    WeightIsSlots(all, h, e);
    var named := set s | s in rows && s.household == h && rows[s].entity == e;
    forall s
      ensures s in named <==> s in SlotsNaming(all, h, e)
    {
      if s in named {
        assert HoldsKey(all, s.key);
        var i :| 0 <= i < |all| && all[i].key == s.key;
        assert all[i] in all && s == Slot(h, all[i].key);
      }
    }
    assert named == SlotsNaming(all, h, e);
  }

  // ------------------------------------------- what becomes of a transaction's alias

  /** After the update a transaction carries its recomputed key, changed or not. */
  lemma UpdatedToNewKey(txns: seq<Txn>, rows: seq<TxnRow>, id: nat, merchantKey: Normaliser)
    requires AreChanges(rows, txns, merchantKey) && id < |txns| && txns[id].key.Some?
    ensures Updated(txns, rows)[id] == txns[id].(key := Some(NewKey(txns[id], merchantKey)))
  {
    UpdatedAt(txns, rows);
    if HasRow(rows, id) {
      var i :| 0 <= i < |rows| && rows[i].id == id;
      assert IsRowOf(rows[i], txns, merchantKey);
    }
  }

  lemma AliasedAfterExactlyWhen(before: map<Slot, AliasRow>, after: map<Slot, AliasRow>, rows: seq<TxnRow>,
                                h: Household, k: Key)
    requires AffectedMoved(before, after, rows, AliasRule, Keep)
    ensures Slot(h, k) in after <==> MovesTo(before, h, Mapping(rows, h), k)
  {
    var mapping := Mapping(rows, h);
    if Affected(rows, h) {
      var all :| Lists(all, before, h) && IsRemap(after, h, all, mapping, AliasRule(all), Keep);
      ListedOrMoved(all, before, h, mapping, k);
    } else {
      UnaffectedMoved(before, after, rows, h, k);
    }
  }

  /**
   A transaction is still named by an alias after the run exactly when some
   alias of its household moves onto its recomputed key. Its own alias moves
   with the last changed transaction that shared its key, which need not be it.
   */
  lemma StillAliasedExactlyWhen(before: map<Slot, AliasRow>, after: map<Slot, AliasRow>, txns: seq<Txn>,
                                rows: seq<TxnRow>, id: nat, merchantKey: Normaliser)
    requires AreChanges(rows, txns, merchantKey) && AffectedMoved(before, after, rows, AliasRule, Keep)
    requires id < |txns| && txns[id].key.Some?
    ensures Updated(txns, rows)[id].key.Some? && Updated(txns, rows)[id].household == txns[id].household
    ensures Slot(txns[id].household, Updated(txns, rows)[id].key.value) in after
       <==> MovesTo(before, txns[id].household, Mapping(rows, txns[id].household), NewKey(txns[id], merchantKey))
  {
    UpdatedToNewKey(txns, rows, id, merchantKey);
    AliasedAfterExactlyWhen(before, after, rows, txns[id].household, NewKey(txns[id], merchantKey));
  }

  /** Every transaction of the household on this key recomputes to the same one. */
  ghost predicate KeyRecomputesAlike(txns: seq<Txn>, h: Household, k: Key, merchantKey: Normaliser) {
    forall i, j :: 0 <= i < |txns| && 0 <= j < |txns| && CarriesKey(txns[i], h, k) && CarriesKey(txns[j], h, k) ==>
      NewKey(txns[i], merchantKey) == NewKey(txns[j], merchantKey)
  }

  predicate CarriesKey(t: Txn, h: Household, k: Key) {
    t.household == h && t.key == Some(k)
  }

  /** Where they do, the key's target is what its transactions recompute to. */
  lemma TargetIsRecomputed(txns: seq<Txn>, rows: seq<TxnRow>, id: nat, merchantKey: Normaliser)
    requires AreChanges(rows, txns, merchantKey) && id < |txns| && txns[id].key.Some?
    requires KeyRecomputesAlike(txns, txns[id].household, txns[id].key.value, merchantKey)
    ensures Target(Mapping(rows, txns[id].household), txns[id].key.value) == NewKey(txns[id], merchantKey)
  {
    var h, k := txns[id].household, txns[id].key.value;
    var mapping := Mapping(rows, h);
    MappingRows(rows, h);
    if k in mapping {
      assert HasCarrier(rows, h, k, mapping[k]);
      var r :| r in rows && Carries(r, h, k, mapping[k]);
      var i :| 0 <= i < |rows| && rows[i] == r;
      assert IsRowOf(rows[i], txns, merchantKey);
      assert CarriesKey(txns[r.id], h, k) && CarriesKey(txns[id], h, k);
    } else {
      forall i | 0 <= i < |rows|
        ensures rows[i].id != id
      {
        assert IsRowOf(rows[i], txns, merchantKey) && rows[i] in rows;
      }
      assert !HasRow(rows, id);
    }
  }

  /** So an aliased key whose transactions all recompute alike keeps its alias on every one of them. */
  lemma AlikeKeysStayAliased(before: map<Slot, AliasRow>, after: map<Slot, AliasRow>, txns: seq<Txn>,
                             rows: seq<TxnRow>, id: nat, merchantKey: Normaliser)
    requires AreChanges(rows, txns, merchantKey) && AffectedMoved(before, after, rows, AliasRule, Keep)
    requires id < |txns| && txns[id].key.Some? && Slot(txns[id].household, txns[id].key.value) in before
    requires KeyRecomputesAlike(txns, txns[id].household, txns[id].key.value, merchantKey)
    ensures Updated(txns, rows)[id].key.Some?
    ensures Slot(txns[id].household, Updated(txns, rows)[id].key.value) in after
  {
    var h := txns[id].household;
    TargetIsRecomputed(txns, rows, id, merchantKey);
    assert ComesTo(before, h, Mapping(rows, h), txns[id].key.value, NewKey(txns[id], merchantKey));
    StillAliasedExactlyWhen(before, after, txns, rows, id, merchantKey);
  }

  /** And one whose only alias follows another transaction to another key is left without. */
  lemma AliasFollowsTheOther(before: map<Slot, AliasRow>, after: map<Slot, AliasRow>, txns: seq<Txn>,
                             rows: seq<TxnRow>, id: nat, merchantKey: Normaliser)
    requires AreChanges(rows, txns, merchantKey) && AffectedMoved(before, after, rows, AliasRule, Keep)
    requires id < |txns| && txns[id].key.Some?
    requires forall k :: Slot(txns[id].household, k) in before ==> k == txns[id].key.value
    requires Target(Mapping(rows, txns[id].household), txns[id].key.value) != NewKey(txns[id], merchantKey)
    ensures Updated(txns, rows)[id].key.Some?
    ensures Slot(txns[id].household, Updated(txns, rows)[id].key.value) !in after
  {
    StillAliasedExactlyWhen(before, after, txns, rows, id, merchantKey);
  }
}
