/**
 Reassembling a streamed model response: events arrive one at a time, each
 naming the content block it belongs to, and the blocks grow side by side.
 */
module Stream {
  import opened Wrappers

  /** A finished content block; Other is a kind the client does not know. */
  datatype Block =
    | Text(text: string)
    | Thinking(thinking: string, signature: string)
    | ToolUse(id: string, name: string, input: string)
    | ToolResult(toolUseId: string, output: string, isError: bool)
    | Other(kind: string)

  datatype Response = Response(content: seq<Block>, stopReason: string)

  datatype Header = Header(kind: string, id: string, name: string)

  datatype Delta = TextDelta(text: string) | ThinkingDelta(thinking: string) | InputDelta(json: string) | OtherDelta

  /** One decoded event; an absent part is None. */
  datatype Event =
    | BlockStart(index: nat, header: Option<Header>)
    | BlockDelta(index: nat, delta: Option<Delta>)
    | MessageDelta(stopReason: Option<string>)
    | Error(message: Option<string>)
    | Unrecognised

  // -------------------------------------------------------------- the reducer

  /** What has arrived for one block. */
  datatype Acc = Acc(kind: string, id: string, name: string, text: string, input: string)

  const EMPTY_ACC := Acc("", "", "", "", "")

  function Absorb(acc: Acc, e: Event): Acc {
    match e
    case BlockStart(_, Some(h)) => acc.(kind := h.kind, id := h.id, name := h.name)
    case BlockDelta(_, Some(TextDelta(t))) => acc.(text := acc.text + t)
    case BlockDelta(_, Some(ThinkingDelta(t))) => acc.(text := acc.text + t)
    case BlockDelta(_, Some(InputDelta(j))) => acc.(input := acc.input + j)
    case _ => acc
  }

  predicate Addresses(e: Event, i: nat) {
    (e.BlockStart? || e.BlockDelta?) && e.index == i
  }

  /** Enough blocks for index i. */
  function Grown(blocks: seq<Acc>, i: nat): (grown: seq<Acc>)
    ensures |grown| == if |blocks| <= i then i + 1 else |blocks|
    ensures forall k :: 0 <= k < |grown| ==> grown[k] == if k < |blocks| then blocks[k] else EMPTY_ACC
  {
    if |blocks| <= i then blocks + seq(i + 1 - |blocks|, _ => EMPTY_ACC) else blocks
  }

  function Apply(blocks: seq<Acc>, e: Event): seq<Acc> {
    if e.BlockStart? || e.BlockDelta? then
      var grown := Grown(blocks, e.index);
      grown[e.index := Absorb(grown[e.index], e)]
    else blocks
  }

  function Blocks(events: seq<Event>): seq<Acc> {
    if |events| == 0 then [] else Apply(Blocks(events[..|events| - 1]), events[|events| - 1])
  }

  /** The text one event sends to the user. */
  function Shown(e: Event): string {
    if e.BlockDelta? && e.delta.Some? && e.delta.value.TextDelta? then e.delta.value.text else ""
  }

  function Emitted(events: seq<Event>): string {
    if |events| == 0 then "" else Emitted(events[..|events| - 1]) + Shown(events[|events| - 1])
  }

  predicate IsSpace(c: char) {
    || c in {' ', '\t', '\n', '\r', '\U{0B}', '\U{0C}', '\U{85}', '\U{A0}', '\U{1680}'}
    || '\U{2000}' <= c <= '\U{200A}'
    || c in {'\U{2028}', '\U{2029}', '\U{202F}', '\U{205F}', '\U{3000}'}
  }

  predicate Blank(s: string) {
    forall i :: 0 <= i < |s| ==> IsSpace(s[i])
  }

  /** A tool call always carries valid input. */
  function InputOrEmpty(raw: string): string {
    if Blank(raw) then "{}" else raw
  }

  function Finished(acc: Acc): seq<Block> {
    if acc.kind == "text" then [Text(acc.text)]
    else if acc.kind == "thinking" then [Thinking(acc.text, "")]
    else if acc.kind == "tool_use" then [ToolUse(acc.id, acc.name, InputOrEmpty(acc.input))]
    else []
  }

  function Content(blocks: seq<Acc>): seq<Block> {
    if |blocks| == 0 then [] else Content(blocks[..|blocks| - 1]) + Finished(blocks[|blocks| - 1])
  }

  function Stopped(events: seq<Event>): string {
    if |events| == 0 then ""
    else
      var last := events[|events| - 1];
      if last.MessageDelta? && last.stopReason.Some? && last.stopReason.value != "" then last.stopReason.value
      else Stopped(events[..|events| - 1])
  }

  predicate GivesReason(e: Event) {
    e.MessageDelta? && e.stopReason.Some? && e.stopReason.value != ""
  }

  /** Event i gives this reason and no later one gives any. */
  ghost predicate GivenLastAt(events: seq<Event>, i: nat, reason: string) {
    i < |events| && events[i] == MessageDelta(Some(reason)) && forall j :: i < j < |events| ==> !GivesReason(events[j])
  }

  /** The stream ends with this reason: the last one given, or none. */
  ghost predicate EndsFor(events: seq<Event>, reason: string) {
    if reason == "" then forall i :: 0 <= i < |events| ==> !GivesReason(events[i])
    else exists i: nat :: GivenLastAt(events, i, reason)
  }

  lemma EndsForStill(events: seq<Event>, last: Event, reason: string)
    requires EndsFor(events, reason) && !GivesReason(last)
    ensures EndsFor(events + [last], reason)
  {
    if reason != "" {
      var i: nat :| GivenLastAt(events, i, reason);
      assert GivenLastAt(events + [last], i, reason);
    }
  }

  /** A later reason replaces an earlier one, and an empty one replaces nothing. */
  lemma {:induction false} LastReasonCounts(events: seq<Event>)
    ensures EndsFor(events, Stopped(events))
  {
    if |events| > 0 {
      var init, last := events[..|events| - 1], events[|events| - 1];
      if GivesReason(last) {
        assert GivenLastAt(events, |events| - 1, last.stopReason.value);
      } else {
        LastReasonCounts(init);
        EndsForStill(init, last, Stopped(init));
        assert events == init + [last];
      }
    }
  }

  predicate IsFatal(e: Event) {
    e.Error? && e.message.Some?
  }

  /** How many events are read: all of them, or those before the first fatal one. */
  function ReadUntil(events: seq<Event>): (n: nat)
    ensures n <= |events|
    ensures forall i :: 0 <= i < n ==> !IsFatal(events[i])
    ensures n < |events| ==> IsFatal(events[n])
  {
    if |events| == 0 || IsFatal(events[0]) then 0 else 1 + ReadUntil(events[1..])
  }

  method StartBlock(blocks: seq<Acc>, index: nat, header: Option<Header>) returns (out: seq<Acc>)
    ensures out == Apply(blocks, BlockStart(index, header))
  {
    var grown := Grown(blocks, index);
    var acc := grown[index];
    if header.Some? {
      var h := header.value;
      acc := acc.(kind := h.kind, id := h.id, name := h.name);
    }
    out := grown[index := acc];
  }

  /** Adds a piece to its block; said is the text of a text piece, which the user is shown. */
  method ExtendBlock(blocks: seq<Acc>, index: nat, delta: Option<Delta>) returns (out: seq<Acc>, said: string)
    ensures out == Apply(blocks, BlockDelta(index, delta)) && said == Shown(BlockDelta(index, delta))
  {
    var grown := Grown(blocks, index);
    var acc := grown[index];
    said := "";
    match delta {
      case Some(TextDelta(text)) =>
        acc := acc.(text := acc.text + text);
        said := text;
      case Some(ThinkingDelta(thinking)) =>
        acc := acc.(text := acc.text + thinking);
      case Some(InputDelta(json)) =>
        acc := acc.(input := acc.input + json);
      case _ =>
    }
    out := grown[index := acc];
  }

  const READ_FAILED := "read stream"

  /** Why a stream that did not end well failed: its first fatal event, or the reading. */
  function StreamError(events: seq<Event>): string {
    var n := ReadUntil(events);
    if n < |events| then events[n].message.value else READ_FAILED
  }

  lemma OneMoreEvent(events: seq<Event>, i: nat)
    requires i < |events|
    ensures Blocks(events[..i + 1]) == Apply(Blocks(events[..i]), events[i])
    ensures Emitted(events[..i + 1]) == Emitted(events[..i]) + Shown(events[i])
    ensures Stopped(events[..i + 1]) == if GivesReason(events[i]) then events[i].stopReason.value else Stopped(events[..i])
  {
    assert events[..i + 1][..i] == events[..i];
  }

  /** Takes in one event that is not fatal: what it adds to the blocks, shows the user, and gives as a reason to stop. */
  method TakeEvent(blocks: seq<Acc>, e: Event) returns (out: seq<Acc>, said: string, reason: string)
    requires !IsFatal(e)
    ensures out == Apply(blocks, e) && said == Shown(e)
    ensures reason == if GivesReason(e) then e.stopReason.value else ""
  {
    out, said, reason := blocks, "", "";
    match e {
    case BlockStart(index, header) =>
      out := StartBlock(blocks, index, header);
    case BlockDelta(index, delta) =>
      out, said := ExtendBlock(blocks, index, delta);
    case MessageDelta(stop) =>
      if stop.Some? { reason := stop.value; }
    case Error(_) =>
    case Unrecognised =>
    }
  }

  /** Takes the events in, stopping at a fatal one. */
  method ReadEvents(events: seq<Event>)
    returns (blocks: seq<Acc>, stopReason: string, shown: string, failure: Option<string>)
    ensures shown == Emitted(events[..ReadUntil(events)])
    ensures failure == if ReadUntil(events) < |events| then Some(StreamError(events)) else None
    ensures failure.None? ==> blocks == Blocks(events) && stopReason == Stopped(events)
  {
    blocks, stopReason, shown := [], "", "";
    for i := 0 to |events|
      invariant i <= ReadUntil(events)
      invariant blocks == Blocks(events[..i]) && stopReason == Stopped(events[..i]) && shown == Emitted(events[..i])
    {
      if IsFatal(events[i]) {
        failure := events[i].message;
        return;
      }
      OneMoreEvent(events, i);
      var said, reason;
      blocks, said, reason := TakeEvent(blocks, events[i]);
      if said != "" { shown := shown + said; }
      if reason != "" { stopReason := reason; }
    }
    assert events[..|events|] == events;
    failure := None;
  }

  /**
   Reads a whole stream. broken is a failure to read on after the last event.
   shown is the concatenation of everything passed to the text callback, which
   is never called with nothing.
   */
  method CompleteStream(events: seq<Event>, broken: bool) returns (result: Result<Response>, shown: string)
    ensures shown == Emitted(events[..ReadUntil(events)])
    ensures result.Ok? <==> ReadUntil(events) == |events| && !broken
    ensures result.Err? ==> result.error == StreamError(events)
    ensures result.Ok? ==> result.value.content == Content(Blocks(events))
                           && result.value.stopReason == Stopped(events)
  {
    var blocks, stopReason, failure;
    blocks, stopReason, shown, failure := ReadEvents(events);
    if failure.Some? {
      return Err(failure.value), shown;
    }
    if broken {
      return Err(READ_FAILED), shown;
    }
    var content := Finish(blocks);
    result := Ok(Response(content, stopReason));
  }

  method Finish(blocks: seq<Acc>) returns (content: seq<Block>)
    ensures content == Content(blocks)
  {
    content := [];
    for i := 0 to |blocks|
      invariant content == Content(blocks[..i])
    {
      assert blocks[..i + 1][..i] == blocks[..i];
      content := content + Finished(blocks[i]);
    }
    assert blocks[..|blocks|] == blocks;
  }

  // ------------------------------------------------- cutting and reassembling

  /** The events of one block, in arrival order. */
  function Own(events: seq<Event>, i: nat): seq<Event> {
    if |events| == 0 then []
    else
      var before, last := Own(events[..|events| - 1], i), events[|events| - 1];
      if Addresses(last, i) then before + [last] else before
  }

  function AccOf(own: seq<Event>): Acc {
    if |own| == 0 then EMPTY_ACC else Absorb(AccOf(own[..|own| - 1]), own[|own| - 1])
  }

  lemma OneMoreOwn(own: seq<Event>, e: Event)
    ensures AccOf(own + [e]) == Absorb(AccOf(own), e)
  {
    assert (own + [e])[..|own|] == own;
  }

  /** A block not yet there has heard nothing. */
  function AccAt(blocks: seq<Acc>, i: nat): Acc {
    if i < |blocks| then blocks[i] else EMPTY_ACC
  }

  lemma ApplyAt(blocks: seq<Acc>, e: Event, i: nat)
    ensures |Apply(blocks, e)| >= |blocks| && (Addresses(e, i) ==> i < |Apply(blocks, e)|)
    ensures AccAt(Apply(blocks, e), i) == if Addresses(e, i) then Absorb(AccAt(blocks, i), e) else AccAt(blocks, i)
  {
  }

  lemma {:induction false} AccIsItsOwn(events: seq<Event>, i: nat)
    ensures AccAt(Blocks(events), i) == AccOf(Own(events, i))
    ensures Own(events, i) != [] ==> i < |Blocks(events)|
  {
    if |events| > 0 {
      var before, last := events[..|events| - 1], events[|events| - 1];
      AccIsItsOwn(before, i);
      ApplyAt(Blocks(before), last, i);
      if Addresses(last, i) { OneMoreOwn(Own(before, i), last); }
    }
  }

  lemma BlockIsItsOwn(events: seq<Event>, i: nat)
    ensures if i < |Blocks(events)| then Blocks(events)[i] == AccOf(Own(events, i)) else Own(events, i) == []
  {
    AccIsItsOwn(events, i);
  }

  lemma {:induction false} LastBlockIsUsed(events: seq<Event>)
    ensures |Blocks(events)| > 0 ==> Own(events, |Blocks(events)| - 1) != []
  {
    if |events| > 0 { LastBlockIsUsed(events[..|events| - 1]); }
  }

  /** Each block depends on its own events alone, however the streams were interleaved. */
  lemma {:induction false} BlocksAreIndependent(events: seq<Event>)
    ensures forall i :: 0 <= i < |Blocks(events)| ==> Blocks(events)[i] == AccOf(Own(events, i))
    ensures forall i :: i >= |Blocks(events)| ==> Own(events, i) == []
    ensures |Blocks(events)| > 0 ==> Own(events, |Blocks(events)| - 1) != []
  {
    forall i: nat
      ensures if i < |Blocks(events)| then Blocks(events)[i] == AccOf(Own(events, i)) else Own(events, i) == []
    {
      BlockIsItsOwn(events, i);
    }
    LastBlockIsUsed(events);
  }

  function Kind(b: Block): string {
    match b
    case Text(_) => "text"
    case Thinking(_, _) => "thinking"
    case ToolUse(_, _, _) => "tool_use"
    case ToolResult(_, _, _) => "tool_result"
    case Other(kind) => kind
  }

  function HeaderOf(b: Block): Header {
    Header(Kind(b), if b.ToolUse? then b.id else "", if b.ToolUse? then b.name else "")
  }

  predicate Known(kind: string) {
    kind == "text" || kind == "thinking" || kind == "tool_use"
  }

  /** What of a block survives the client: the whole text and reasoning, and every call with usable input. */
  function Rebuilt(b: Block): seq<Block> {
    match b
    case Text(t) => [Text(t)]
    case Thinking(t, _) => [Thinking(t, "")]
    case ToolUse(id, name, input) =>
      [ToolUse(id, name, if exists i :: 0 <= i < |input| && !IsSpace(input[i]) then input else "{}")]
    case _ => []
  }

  function RebuiltAll(content: seq<Block>): seq<Block> {
    if |content| == 0 then [] else RebuiltAll(content[..|content| - 1]) + Rebuilt(content[|content| - 1])
  }

  /** A piece a block of this kind can be cut into; pieces the client ignores may appear anywhere. */
  predicate IsPiece(b: Block, e: Event) {
    e.BlockDelta? && (e.delta.Some? ==>
      match e.delta.value
      case TextDelta(_) => b.Text?
      case ThinkingDelta(_) => b.Thinking?
      case InputDelta(_) => b.ToolUse?
      case OtherDelta => true)
  }

  function PieceText(e: Event): string {
    match e
    case BlockDelta(_, Some(TextDelta(t))) => t
    case BlockDelta(_, Some(ThinkingDelta(t))) => t
    case BlockDelta(_, Some(InputDelta(j))) => j
    case _ => ""
  }

  function Joined(pieces: seq<Event>): string {
    if |pieces| == 0 then "" else Joined(pieces[..|pieces| - 1]) + PieceText(pieces[|pieces| - 1])
  }

  function Body(b: Block): string {
    match b
    case Text(t) => t
    case Thinking(t, _) => t
    case ToolUse(_, _, input) => input
    case _ => ""
  }

  /** own announces b and then delivers its body in pieces, cut anywhere. */
  predicate IsCut(b: Block, own: seq<Event>) {
    && |own| > 0 && own[0].BlockStart? && own[0].header == Some(HeaderOf(b))
    && (forall k :: 1 <= k < |own| ==> IsPiece(b, own[k]))
    && Joined(own) == Body(b)
  }

  /** The stream carries the content: each block cut up on its own, the blocks interleaved in any way. */
  predicate Carries(events: seq<Event>, content: seq<Block>) {
    && (forall b :: b in content && b.Other? ==> !Known(b.kind))
    && (forall i :: 0 <= i < |events| ==> !IsFatal(events[i]))
    && (forall i :: 0 <= i < |events| && (events[i].BlockStart? || events[i].BlockDelta?) ==>
          events[i].index < |content|)
    && (forall i :: 0 <= i < |content| ==> IsCut(content[i], Own(events, i)))
  }

  lemma {:induction false} CutAccumulates(b: Block, own: seq<Event>, n: nat)
    requires 1 <= n <= |own| && own[0].BlockStart? && own[0].header == Some(HeaderOf(b))
    requires forall k :: 1 <= k < |own| ==> IsPiece(b, own[k])
    ensures var acc := AccOf(own[..n]);
            && acc.kind == Kind(b) && acc.id == HeaderOf(b).id && acc.name == HeaderOf(b).name
            && (b.Text? || b.Thinking? ==> acc.text == Joined(own[..n]))
            && (b.ToolUse? ==> acc.input == Joined(own[..n]))
  {
    assert own[..n][..n - 1] == own[..n - 1];
    if n == 1 {
      assert own[..0] == [];
    } else {
      CutAccumulates(b, own, n - 1);
      assert IsPiece(b, own[n - 1]);
    }
  }

  lemma {:induction false} OutOfRange(events: seq<Event>, n: nat, i: nat)
    requires forall k :: 0 <= k < |events| && (events[k].BlockStart? || events[k].BlockDelta?) ==> events[k].index < n
    requires i >= n
    ensures Own(events, i) == []
  {
    if |events| > 0 { OutOfRange(events[..|events| - 1], n, i); }
  }

  lemma FinishedIsRebuilt(b: Block, acc: Acc)
    requires acc.kind == Kind(b) && acc.id == HeaderOf(b).id && acc.name == HeaderOf(b).name
    requires b.Text? || b.Thinking? ==> acc.text == Body(b)
    requires b.ToolUse? ==> acc.input == Body(b)
    requires b.Other? ==> !Known(b.kind)
    ensures Finished(acc) == Rebuilt(b)
  {
  }

  lemma CutIsRebuilt(b: Block, own: seq<Event>)
    requires IsCut(b, own) && (b.Other? ==> !Known(b.kind))
    ensures Finished(AccOf(own)) == Rebuilt(b)
  {
    CutAccumulates(b, own, |own|);
    assert own[..|own|] == own;
    FinishedIsRebuilt(b, AccOf(own));
  }

  lemma EveryBlockStarts(events: seq<Event>, content: seq<Block>, i: nat)
    requires Carries(events, content) && i < |content|
    ensures Own(events, i) != []
  {
    assert IsCut(content[i], Own(events, i));
  }

  lemma AsManyAsAddressed(events: seq<Event>, n: nat)
    requires forall k :: 0 <= k < |events| && (events[k].BlockStart? || events[k].BlockDelta?) ==> events[k].index < n
    requires n > 0 ==> Own(events, n - 1) != []
    ensures |Blocks(events)| == n
  {
    var blocks := |Blocks(events)|;
    if blocks > n {
      LastBlockIsUsed(events);
      OutOfRange(events, n, blocks - 1);
    } else if n > 0 {
      BlockIsItsOwn(events, n - 1);
    }
  }

  lemma BlockCount(events: seq<Event>, content: seq<Block>)
    requires Carries(events, content)
    ensures |Blocks(events)| == |content|
  {
    var n := |content|;
    if n > 0 { EveryBlockStarts(events, content, n - 1); }
    AsManyAsAddressed(events, n);
  }

  /** Any content, cut into any pieces and interleaved in any order, is rebuilt exactly. */
  lemma Reassembles(events: seq<Event>, content: seq<Block>)
    requires Carries(events, content)
    ensures Content(Blocks(events)) == RebuiltAll(content)
  {
    var blocks, n := Blocks(events), |content|;
    BlockCount(events, content);
    forall i | 0 <= i < n
      ensures Finished(blocks[i]) == Rebuilt(content[i])
    {
      BlocksAreIndependent(events);
      assert content[i] in content;
      CutIsRebuilt(content[i], Own(events, i));
    }
    ContentPointwise(blocks, content, n);
    assert blocks[..n] == blocks && content[..n] == content;
  }

  lemma {:induction false} ContentPointwise(blocks: seq<Acc>, content: seq<Block>, n: nat)
    requires n <= |blocks| && n <= |content|
    requires forall i :: 0 <= i < n ==> Finished(blocks[i]) == Rebuilt(content[i])
    ensures Content(blocks[..n]) == RebuiltAll(content[..n])
  {
    if n > 0 {
      ContentPointwise(blocks, content, n - 1);
      ContentOneMore(blocks, n - 1);
      RebuiltOneMore(content, n - 1);
    }
  }

  lemma ContentOneMore(blocks: seq<Acc>, n: nat)
    requires n < |blocks|
    ensures Content(blocks[..n + 1]) == Content(blocks[..n]) + Finished(blocks[n])
  {
    assert blocks[..n + 1][..n] == blocks[..n];
  }

  lemma RebuiltOneMore(content: seq<Block>, n: nat)
    requires n < |content|
    ensures RebuiltAll(content[..n + 1]) == RebuiltAll(content[..n]) + Rebuilt(content[n])
  {
    assert content[..n + 1][..n] == content[..n];
  }

  // -------------------------------------------------- what the user was shown

  /** Concatenates every text block. */
  function TextOf(content: seq<Block>): string {
    if |content| == 0 then ""
    else
      var last := content[|content| - 1];
      TextOf(content[..|content| - 1]) + if last.Text? then last.text else ""
  }

  /** No text arrives for an earlier block once a later one has begun sending text. */
  predicate TextInBlockOrder(events: seq<Event>) {
    forall p, q :: 0 <= p < q < |events| && Shown(events[p]) != "" && Shown(events[q]) != "" ==>
      events[p].index <= events[q].index
  }

  /** What the first n blocks sent, block by block. */
  function ShownByBlock(events: seq<Event>, n: nat): string {
    if n == 0 then "" else ShownByBlock(events, n - 1) + Emitted(Own(events, n - 1))
  }

  /** No text for a block after j. */
  predicate TextUpTo(events: seq<Event>, j: nat) {
    |events| > 0 ==>
      && TextUpTo(events[..|events| - 1], j)
      && (Shown(events[|events| - 1]) != "" ==> events[|events| - 1].index <= j)
  }

  lemma {:induction false} OrderedIsUpTo(events: seq<Event>, q: nat, n: nat)
    requires TextInBlockOrder(events) && n <= q < |events| && Shown(events[q]) != ""
    ensures TextUpTo(events[..n], events[q].index)
  {
    if n > 0 {
      OrderedIsUpTo(events, q, n - 1);
      assert events[..n][..n - 1] == events[..n - 1];
    }
  }

  function Before(events: seq<Event>): seq<Event>
    requires |events| > 0
  {
    events[..|events| - 1]
  }

  function Last(events: seq<Event>): Event
    requires |events| > 0
  {
    events[|events| - 1]
  }

  lemma {:induction false} OrderedTextIsByBlock(events: seq<Event>, n: nat)
    requires TextInBlockOrder(events)
    requires forall k :: 0 <= k < |events| && (events[k].BlockStart? || events[k].BlockDelta?) ==> events[k].index < n
    ensures Emitted(events) == ShownByBlock(events, n)
  {
    if |events| == 0 {
      NothingShown(events, n, 0);
    } else {
      OrderedTextIsByBlock(Before(events), n);
      if Shown(Last(events)) == "" {
        SilentEvent(events, n);
      } else {
        OrderedIsUpTo(events, |events| - 1, |events| - 1);
        TextGoesLast(events, n);
      }
    }
  }

  lemma {:induction false} NothingShown(events: seq<Event>, n: nat, from: nat)
    requires from <= n
    requires forall i :: from <= i < n ==> Emitted(Own(events, i)) == ""
    ensures ShownByBlock(events, n) == ShownByBlock(events, from)
  {
    if from < n { NothingShown(events, n - 1, from); }
  }

  lemma OneMoreShown(events: seq<Event>, i: nat)
    requires |events| > 0
    ensures Emitted(Own(events, i))
         == Emitted(Own(Before(events), i)) + if Addresses(Last(events), i) then Shown(Last(events)) else ""
  {
    var own := Own(Before(events), i);
    assert (own + [Last(events)])[..|own|] == own;
  }

  lemma {:induction false} SilentEvent(events: seq<Event>, n: nat)
    requires |events| > 0 && Shown(Last(events)) == ""
    ensures ShownByBlock(events, n) == ShownByBlock(Before(events), n)
  {
    if n > 0 {
      SilentEvent(events, n - 1);
      OneMoreShown(events, n - 1);
    }
  }

  lemma {:induction false} EarlierBlocksSame(events: seq<Event>, n: nat)
    requires |events| > 0 && Shown(Last(events)) != "" && n <= Last(events).index
    ensures ShownByBlock(events, n) == ShownByBlock(Before(events), n)
  {
    if n > 0 {
      EarlierBlocksSame(events, n - 1);
      OneMoreShown(events, n - 1);
    }
  }

  lemma {:induction false} LaterBlockSilent(events: seq<Event>, j: nat, i: nat)
    requires TextUpTo(events, j) && i > j
    ensures Emitted(Own(events, i)) == ""
  {
    if |events| > 0 {
      LaterBlockSilent(Before(events), j, i);
      OneMoreShown(events, i);
    }
  }

  lemma LaterBlocksSilent(events: seq<Event>, j: nat, n: nat)
    requires TextUpTo(events, j) && j < n
    ensures ShownByBlock(events, n) == ShownByBlock(events, j + 1)
  {
    forall i | j < i < n
      ensures Emitted(Own(events, i)) == ""
    {
      LaterBlockSilent(events, j, i);
    }
    NothingShown(events, n, j + 1);
  }

  lemma UpToWithLast(events: seq<Event>)
    requires |events| > 0 && Shown(Last(events)) != "" && TextUpTo(Before(events), Last(events).index)
    ensures TextUpTo(events, Last(events).index)
  {
  }

  lemma TextGoesLast(events: seq<Event>, n: nat)
    requires |events| > 0 && Shown(Last(events)) != "" && Last(events).index < n
    requires TextUpTo(Before(events), Last(events).index)
    ensures ShownByBlock(events, n) == ShownByBlock(Before(events), n) + Shown(Last(events))
  {
    var before, last, j := Before(events), Last(events), Last(events).index;
    UpToWithLast(events);
    LaterBlocksSilent(events, j, n);
    LaterBlocksSilent(before, j, n);
    EarlierBlocksSame(events, j);
    OneMoreShown(events, j);
    Regrouped(ShownByBlock(before, j), Emitted(Own(before, j)), Shown(last));
  }

  lemma Regrouped(a: string, b: string, c: string)
    ensures a + b + c == a + (b + c)
  {
  }

  lemma {:induction false} CutShowsText(b: Block, own: seq<Event>, n: nat)
    requires 1 <= n <= |own| && own[0].BlockStart?
    requires forall k :: 1 <= k < |own| ==> IsPiece(b, own[k])
    ensures Emitted(own[..n]) == if b.Text? then Joined(own[..n]) else ""
  {
    assert own[..n][..n - 1] == own[..n - 1];
    if n == 1 {
      assert own[..0] == [];
    } else {
      CutShowsText(b, own, n - 1);
      assert IsPiece(b, own[n - 1]);
    }
  }

  function TextIn(b: Block): string {
    if b.Text? then b.text else ""
  }

  lemma CutShowsItsText(b: Block, own: seq<Event>)
    requires IsCut(b, own)
    ensures Emitted(own) == TextIn(b)
  {
    CutShowsText(b, own, |own|);
    assert own[..|own|] == own;
  }

  function TextsOf(content: seq<Block>): string {
    if |content| == 0 then "" else TextsOf(content[..|content| - 1]) + TextIn(content[|content| - 1])
  }

  lemma {:induction false} RebuildingKeepsText(content: seq<Block>)
    ensures TextOf(RebuiltAll(content)) == TextsOf(content)
  {
    if |content| > 0 {
      RebuildingKeepsText(content[..|content| - 1]);
      TextOfRebuilt(RebuiltAll(content[..|content| - 1]), content[|content| - 1]);
    }
  }

  /** The first n texts, one after another. */
  function Concat(text: nat -> string, n: nat): string {
    if n == 0 then "" else Concat(text, n - 1) + text(n - 1)
  }

  lemma {:induction false} ConcatIsText(text: nat -> string, content: seq<Block>, n: nat)
    requires n <= |content| && forall i :: 0 <= i < |content| ==> text(i) == TextIn(content[i])
    ensures Concat(text, n) == TextsOf(content[..n])
  {
    if n > 0 {
      ConcatIsText(text, content, n - 1);
      assert content[..n][..n - 1] == content[..n - 1];
    }
  }

  lemma {:induction false} ShownIsConcat(events: seq<Event>, text: nat -> string, n: nat)
    requires forall i :: text(i) == Emitted(Own(events, i))
    ensures ShownByBlock(events, n) == Concat(text, n)
  {
    if n > 0 { ShownIsConcat(events, text, n - 1); }
  }

  lemma ShownIsText(events: seq<Event>, content: seq<Block>)
    requires Carries(events, content)
    ensures ShownByBlock(events, |content|) == TextOf(RebuiltAll(content))
  {
    var text := (i: nat) => Emitted(Own(events, i));
    forall i | 0 <= i < |content|
      ensures text(i) == TextIn(content[i])
    {
      CutShowsItsText(content[i], Own(events, i));
    }
    RebuildingKeepsText(content);
    ConcatIsText(text, content, |content|);
    ShownIsConcat(events, text, |content|);
    assert content[..|content|] == content;
  }

  lemma TextOfRebuilt(before: seq<Block>, b: Block)
    ensures TextOf(before + Rebuilt(b)) == TextOf(before) + TextIn(b)
  {
    var after := before + Rebuilt(b);
    if |Rebuilt(b)| == 1 {
      assert after[..|before|] == before;
    } else {
      assert after == before;
    }
  }

  /** When blocks send their text in turn, the user is shown exactly the response's text. */
  lemma ShownEqualsText(events: seq<Event>, content: seq<Block>)
    requires Carries(events, content) && TextInBlockOrder(events)
    ensures Emitted(events) == TextOf(Content(Blocks(events)))
  {
    Reassembles(events, content);
    OrderedTextIsByBlock(events, |content|);
    ShownIsText(events, content);
  }

  // ------------------------------------------------- when the two texts agree

  predicate IsText(e: Event) {
    e.BlockDelta? && e.delta.Some? && e.delta.value.TextDelta?
  }

  /** The same event, saying something else; a delta that said nothing still says nothing. */
  predicate SameButWords(e: Event, f: Event) {
    e == f || (IsText(e) && IsText(f) && e.index == f.index && Shown(e) != "")
  }

  /** The same stream with its text deltas reworded. */
  ghost predicate IsRewording(events: seq<Event>, other: seq<Event>) {
    |events| == |other| && forall k :: 0 <= k < |events| ==> SameButWords(events[k], other[k])
  }

  lemma {:induction false} OwnReworded(events: seq<Event>, other: seq<Event>, i: nat)
    requires IsRewording(events, other)
    ensures IsRewording(Own(events, i), Own(other, i))
  {
    if |events| > 0 {
      OwnReworded(Before(events), Before(other), i);
      assert SameButWords(Last(events), Last(other));
    }
  }

  /** What a text block says in the reworded stream. */
  function Said(b: Block, own: seq<Event>): Block {
    if b.Text? then Text(Emitted(own)) else b
  }

  lemma {:induction false} TextPiecesJoin(own: seq<Event>, n: nat)
    requires 1 <= n <= |own| && own[0].BlockStart?
    requires forall k :: 1 <= k < |own| ==> IsPiece(Text(""), own[k])
    ensures Joined(own[..n]) == Emitted(own[..n])
  {
    assert own[..n][..n - 1] == own[..n - 1];
    if n == 1 {
      assert own[..0] == [];
    } else {
      TextPiecesJoin(own, n - 1);
      assert IsPiece(Text(""), own[n - 1]);
    }
  }

  lemma TextCutReworded(b: Block, own: seq<Event>, other: seq<Event>)
    requires b.Text? && IsCut(b, own) && IsRewording(own, other)
    ensures IsCut(Said(b, other), other)
  {
    assert SameButWords(own[0], other[0]);
    forall k | 1 <= k < |other|
      ensures IsPiece(Text(""), other[k]) && IsPiece(Said(b, other), other[k])
    {
      assert SameButWords(own[k], other[k]) && IsPiece(b, own[k]);
    }
    TextPiecesJoin(other, |other|);
    assert other[..|other|] == other;
  }

  lemma OtherCutReworded(b: Block, own: seq<Event>, other: seq<Event>)
    requires !b.Text? && IsCut(b, own) && IsRewording(own, other)
    ensures IsCut(Said(b, other), other)
  {
    forall k | 0 <= k < |own|
      ensures own[k] == other[k]
    {
      assert SameButWords(own[k], other[k]);
      if k > 0 { assert IsPiece(b, own[k]); }
    }
    assert own == other;
  }

  /** The content a reworded stream carries. */
  function SaidAll(content: seq<Block>, other: seq<Event>): (said: seq<Block>)
    ensures |said| == |content| && forall i :: 0 <= i < |said| ==> said[i] == Said(content[i], Own(other, i))
  {
    seq(|content|, i requires 0 <= i < |content| => Said(content[i], Own(other, i)))
  }

  lemma CutReworded(events: seq<Event>, other: seq<Event>, content: seq<Block>, i: nat)
    requires Carries(events, content) && IsRewording(events, other) && i < |content|
    ensures IsCut(Said(content[i], Own(other, i)), Own(other, i))
  {
    OwnReworded(events, other, i);
    assert IsCut(content[i], Own(events, i));
    if content[i].Text? {
      TextCutReworded(content[i], Own(events, i), Own(other, i));
    } else {
      OtherCutReworded(content[i], Own(events, i), Own(other, i));
    }
  }

  lemma RewordedCarries(events: seq<Event>, other: seq<Event>, content: seq<Block>)
    requires Carries(events, content) && IsRewording(events, other)
    ensures Carries(other, SaidAll(content, other))
  {
    var said := SaidAll(content, other);
    forall i | 0 <= i < |content|
      ensures IsCut(said[i], Own(other, i))
    {
      CutReworded(events, other, content, i);
    }
    forall k | 0 <= k < |other|
      ensures !IsFatal(other[k])
      ensures other[k].BlockStart? || other[k].BlockDelta? ==> other[k].index < |said|
    {
      assert SameButWords(events[k], other[k]) && !IsFatal(events[k]);
    }
    forall b | b in said && b.Other?
      ensures !Known(b.kind)
    {
      var i :| 0 <= i < |said| && said[i] == b;
      assert content[i] == b && content[i] in content;
    }
  }

  lemma RewordingKeepsOrder(events: seq<Event>, other: seq<Event>)
    requires IsRewording(events, other) && TextInBlockOrder(events)
    ensures TextInBlockOrder(other)
  {
    forall p, q | 0 <= p < q < |other| && Shown(other[p]) != "" && Shown(other[q]) != ""
      ensures other[p].index <= other[q].index
    {
      assert SameButWords(events[p], other[p]) && SameButWords(events[q], other[q]);
    }
  }

  /** The event with its text replaced. */
  function Worded(e: Event, text: string): Event {
    if IsText(e) then BlockDelta(e.index, Some(TextDelta(text))) else e
  }

  /** The stream saying only "b" at p and "a" at q. */
  function OnlyTwo(events: seq<Event>, p: nat, q: nat): (other: seq<Event>)
    ensures |other| == |events|
    ensures forall k :: 0 <= k < |other| ==>
              other[k] == Worded(events[k], if k == p then "b" else if k == q then "a" else "")
  {
    seq(|events|, k requires 0 <= k < |events| =>
      Worded(events[k], if k == p then "b" else if k == q then "a" else ""))
  }

  /** Text q arrives after text p, for an earlier block. */
  predicate OutOfTurn(events: seq<Event>, p: nat, q: nat) {
    && p < q < |events| && Shown(events[p]) != "" && Shown(events[q]) != ""
    && events[p].index > events[q].index
  }

  lemma OnlyTwoIsRewording(events: seq<Event>, p: nat, q: nat)
    requires OutOfTurn(events, p, q)
    ensures IsRewording(events, OnlyTwo(events, p, q))
  {
    var other := OnlyTwo(events, p, q);
    forall k | 0 <= k < |events|
      ensures SameButWords(events[k], other[k])
    {
      if IsText(events[k]) && Shown(events[k]) == "" {
        assert other[k] == Worded(events[k], "") == events[k];
      }
    }
  }

  /** Only p and q say anything, for different blocks. */
  ghost predicate SayTwo(events: seq<Event>, p: nat, s: string, q: nat, t: string) {
    && p < q < |events| && IsText(events[p]) && IsText(events[q]) && events[p].index != events[q].index
    && forall k :: 0 <= k < |events| ==> Shown(events[k]) == if k == p then s else if k == q then t else ""
  }

  lemma EmittedOneMore(events: seq<Event>, n: nat)
    requires n < |events|
    ensures Emitted(events[..n + 1]) == Emitted(events[..n]) + Shown(events[n])
  {
    assert events[..n + 1][..n] == events[..n];
  }

  lemma {:induction false} TwoConcat(text: nat -> string, lo: nat, t: string, hi: nat, s: string, n: nat)
    requires lo < hi && forall i :: text(i) == if i == lo then t else if i == hi then s else ""
    ensures Concat(text, n) == if n <= lo then "" else if n <= hi then t else t + s
  {
    if n > 0 { TwoConcat(text, lo, t, hi, s, n - 1); }
  }

  lemma {:induction false} EmittedIsConcat(events: seq<Event>, text: nat -> string, n: nat)
    requires n <= |events| && forall k :: 0 <= k < |events| ==> text(k) == Shown(events[k])
    ensures Emitted(events[..n]) == Concat(text, n)
  {
    if n > 0 {
      EmittedIsConcat(events, text, n - 1);
      EmittedOneMore(events, n - 1);
    }
  }

  lemma TwoEmitted(events: seq<Event>, p: nat, s: string, q: nat, t: string)
    requires SayTwo(events, p, s, q, t)
    ensures Emitted(events) == s + t
  {
    var text := (k: nat) => if k < |events| then Shown(events[k]) else "";
    EmittedIsConcat(events, text, |events|);
    TwoConcat(text, p, s, q, t, |events|);
    assert events[..|events|] == events;
  }

  /** What block i has heard from p and q once n events have arrived. */
  function Heard(events: seq<Event>, p: nat, s: string, q: nat, t: string, i: nat, n: nat): string
    requires p < |events| && q < |events| && IsText(events[p]) && IsText(events[q])
  {
    if i == events[p].index && p < n then s else if i == events[q].index && q < n then t else ""
  }

  lemma HeardOneMore(events: seq<Event>, p: nat, s: string, q: nat, t: string, i: nat, n: nat)
    requires SayTwo(events, p, s, q, t) && n < |events|
    ensures Heard(events, p, s, q, t, i, n + 1)
         == Heard(events, p, s, q, t, i, n) + if Addresses(events[n], i) then Shown(events[n]) else ""
  {
  }

  lemma OwnOneMore(events: seq<Event>, i: nat, n: nat)
    requires n < |events|
    ensures Emitted(Own(events[..n + 1], i))
         == Emitted(Own(events[..n], i)) + if Addresses(events[n], i) then Shown(events[n]) else ""
  {
    assert Before(events[..n + 1]) == events[..n] && Last(events[..n + 1]) == events[n];
    OneMoreShown(events[..n + 1], i);
  }

  lemma {:induction false} TwoOwn(events: seq<Event>, p: nat, s: string, q: nat, t: string, i: nat, n: nat)
    requires SayTwo(events, p, s, q, t) && n <= |events|
    ensures Emitted(Own(events[..n], i)) == Heard(events, p, s, q, t, i, n)
  {
    if n == 0 {
      assert Own(events[..0], i) == [];
    } else {
      TwoOwn(events, p, s, q, t, i, n - 1);
      HeardOneMore(events, p, s, q, t, i, n - 1);
      OwnOneMore(events, i, n - 1);
    }
  }

  lemma TwoByBlock(events: seq<Event>, p: nat, s: string, q: nat, t: string, n: nat)
    requires SayTwo(events, p, s, q, t) && events[q].index < events[p].index < n
    ensures ShownByBlock(events, n) == t + s
  {
    var text := (i: nat) => Emitted(Own(events, i));
    forall i: nat
      ensures text(i) == if i == events[q].index then t else if i == events[p].index then s else ""
    {
      TwoOwn(events, p, s, q, t, i, |events|);
      assert events[..|events|] == events;
    }
    ShownIsConcat(events, text, n);
    TwoConcat(text, events[q].index, t, events[p].index, s, n);
  }

  lemma OnlyTwoSayTwo(events: seq<Event>, p: nat, q: nat)
    requires OutOfTurn(events, p, q)
    ensures SayTwo(OnlyTwo(events, p, q), p, "b", q, "a")
  {
  }

  /** Text out of turn can be worded so that the user reads one thing and the response says another. */
  lemma OutOfTurnDiffers(events: seq<Event>, content: seq<Block>, p: nat, q: nat)
    requires Carries(events, content) && OutOfTurn(events, p, q)
    ensures var other := OnlyTwo(events, p, q);
            IsRewording(events, other) && Emitted(other) == "b" + "a" && TextOf(Content(Blocks(other))) == "a" + "b"
  {
    var other := OnlyTwo(events, p, q);
    var said := SaidAll(content, other);
    OnlyTwoIsRewording(events, p, q);
    OnlyTwoSayTwo(events, p, q);
    RewordedCarries(events, other, content);
    TwoEmitted(other, p, "b", q, "a");
    Reassembles(other, said);
    ShownIsText(other, said);
    TwoByBlock(other, p, "b", q, "a", |content|);
  }

  lemma DifferentOrders()
    ensures "b" + "a" != "a" + "b"
  {
    assert ("b" + "a")[0] == 'b';
  }

  /**
   The text shown is the response's text however the deltas are worded exactly
   when no text arrives for an earlier block once a later one has sent some.
   */
  lemma ShownAlwaysTextExactlyWhen(events: seq<Event>, content: seq<Block>)
    requires Carries(events, content)
    ensures TextInBlockOrder(events) <==>
              forall other :: IsRewording(events, other) ==> Emitted(other) == TextOf(Content(Blocks(other)))
  {
    if TextInBlockOrder(events) {
      forall other | IsRewording(events, other)
        ensures Emitted(other) == TextOf(Content(Blocks(other)))
      {
        RewordedCarries(events, other, content);
        RewordingKeepsOrder(events, other);
        ShownEqualsText(other, SaidAll(content, other));
      }
    } else {
      var p, q :| 0 <= p < q < |events| && Shown(events[p]) != "" && Shown(events[q]) != ""
                  && events[p].index > events[q].index;
      OutOfTurnDiffers(events, content, p, q);
      DifferentOrders();
    }
  }

  /** Two blocks that take turns: the second block's text arrives first. */
  function TakingTurns(): seq<Event> {
    var start := Some(Header("text", "", ""));
    [BlockStart(0, start)] + [BlockStart(1, start)] + [BlockDelta(1, Some(TextDelta("b")))]
      + [BlockDelta(0, Some(TextDelta("a")))]
  }

  lemma OneMoreForBlock(before: seq<Event>, last: Event, i: nat)
    ensures Own(before + [last], i) == if Addresses(last, i) then Own(before, i) + [last] else Own(before, i)
  {
    assert (before + [last])[..|before|] == before;
  }

  function OneIf(e: Event, i: nat): seq<Event> {
    if Addresses(e, i) then [e] else []
  }

  lemma ThreeOwn(a: Event, b: Event, c: Event, i: nat)
    ensures Own([a] + [b] + [c], i) == OneIf(a, i) + OneIf(b, i) + OneIf(c, i)
  {
    OneMoreForBlock([], a, i);
    OneMoreForBlock([] + [a], b, i);
    OneMoreForBlock([] + [a] + [b], c, i);
    assert [] + [a] == [a];
  }

  lemma FourOwn(a: Event, b: Event, c: Event, d: Event, i: nat)
    ensures Own([a] + [b] + [c] + [d], i) == OneIf(a, i) + OneIf(b, i) + OneIf(c, i) + OneIf(d, i)
  {
    ThreeOwn(a, b, c, i);
    OneMoreForBlock([a] + [b] + [c], d, i);
  }

  lemma TakingTurnsOwn(i: nat)
    requires i < 2
    ensures Own(TakingTurns(), i)
         == [BlockStart(i, Some(Header("text", "", "")))] + [BlockDelta(i, Some(TextDelta(if i == 0 then "a" else "b")))]
  {
    var start := Some(Header("text", "", ""));
    FourOwn(BlockStart(0, start), BlockStart(1, start), BlockDelta(1, Some(TextDelta("b"))),
            BlockDelta(0, Some(TextDelta("a"))), i);
  }

  lemma StartAndText(i: nat, text: string)
    ensures IsCut(Text(text), [BlockStart(i, Some(Header("text", "", "")))] + [BlockDelta(i, Some(TextDelta(text)))])
  {
    var start, delta := BlockStart(i, Some(Header("text", "", ""))), BlockDelta(i, Some(TextDelta(text)));
    assert ([start] + [delta])[..1] == [start] && [start][..0] == [];
    assert Joined([start]) == "" && "" + text == text;
  }

  lemma TakingTurnsEvents()
    ensures forall k :: 0 <= k < |TakingTurns()| ==>
              var e := TakingTurns()[k]; !IsFatal(e) && (e.BlockStart? || e.BlockDelta?) && e.index < 2
  {
  }

  lemma TakingTurnsCut(i: nat)
    requires i < 2
    ensures IsCut(Text(if i == 0 then "a" else "b"), Own(TakingTurns(), i))
  {
    TakingTurnsOwn(i);
    StartAndText(i, if i == 0 then "a" else "b");
  }

  lemma BlocksCarried(events: seq<Event>, content: seq<Block>)
    requires forall k :: 0 <= k < |events| ==>
               !IsFatal(events[k]) && (events[k].BlockStart? || events[k].BlockDelta? ==> events[k].index < |content|)
    requires forall i :: 0 <= i < |content| ==> !content[i].Other? && IsCut(content[i], Own(events, i))
    ensures Carries(events, content)
  {
    forall b | b in content
      ensures !b.Other?
    {
      var i :| 0 <= i < |content| && content[i] == b;
    }
  }

  lemma TakingTurnsCarries()
    ensures Carries(TakingTurns(), [Text("a"), Text("b")])
  {
    TakingTurnsEvents();
    TakingTurnsCut(0);
    TakingTurnsCut(1);
    BlocksCarried(TakingTurns(), [Text("a"), Text("b")]);
  }

  lemma TakingTurnsSaysTwo()
    ensures OutOfTurn(TakingTurns(), 2, 3) && OnlyTwo(TakingTurns(), 2, 3) == TakingTurns()
  {
  }

  /** A stream out of turn: it carries two texts, "a" then "b", and the user reads them the other way round. */
  lemma InterleavedTextDiffers()
    ensures Carries(TakingTurns(), [Text("a"), Text("b")])
    ensures Emitted(TakingTurns()) == "b" + "a" && TextOf(Content(Blocks(TakingTurns()))) == "a" + "b"
  {
    TakingTurnsCarries();
    TakingTurnsSaysTwo();
    OutOfTurnDiffers(TakingTurns(), [Text("a"), Text("b")], 2, 3);
  }

  /** A response that says something and then calls a tool without arguments. */
  function TextThenCall(text: string): seq<Event> {
    [BlockStart(0, Some(Header("text", "", "")))] + [BlockDelta(0, Some(TextDelta(text)))]
      + [BlockStart(1, Some(Header("tool_use", "call", "spending")))]
  }

  lemma TextThenCallOwn(text: string)
    ensures Own(TextThenCall(text), 0)
         == [BlockStart(0, Some(Header("text", "", "")))] + [BlockDelta(0, Some(TextDelta(text)))]
    ensures Own(TextThenCall(text), 1) == [BlockStart(1, Some(Header("tool_use", "call", "spending")))]
  {
    var first, second := BlockStart(0, Some(Header("text", "", ""))), BlockDelta(0, Some(TextDelta(text)));
    var third := BlockStart(1, Some(Header("tool_use", "call", "spending")));
    ThreeOwn(first, second, third, 0);
    ThreeOwn(first, second, third, 1);
  }

  lemma StartAlone(i: nat)
    ensures IsCut(ToolUse("call", "spending", ""), [BlockStart(i, Some(Header("tool_use", "call", "spending")))])
  {
    assert [BlockStart(i, Some(Header("tool_use", "call", "spending")))][..0] == [];
  }

  lemma TextThenCallEvents(text: string)
    ensures forall k :: 0 <= k < |TextThenCall(text)| ==>
              var e := TextThenCall(text)[k]; !IsFatal(e) && (e.BlockStart? || e.BlockDelta?) && e.index < 2
  {
  }

  /** It carries the text and the call, in turn. */
  lemma TextThenCallCarries(text: string)
    ensures Carries(TextThenCall(text), [Text(text), ToolUse("call", "spending", "")])
    ensures TextInBlockOrder(TextThenCall(text))
  {
    TextThenCallOwn(text);
    StartAndText(0, text);
    StartAlone(1);
    TextThenCallEvents(text);
    BlocksCarried(TextThenCall(text), [Text(text), ToolUse("call", "spending", "")]);
  }

  lemma BlankIsEmptyObject()
    ensures InputOrEmpty("") == "{}"
  {
  }

  lemma TwoRebuilt(a: Block, b: Block)
    ensures RebuiltAll([a, b]) == Rebuilt(a) + Rebuilt(b)
  {
    assert [a, b][..1] == [a] && [a][..0] == [];
    assert RebuiltAll([a]) == Rebuilt(a);
  }

  lemma TwoReassembled(events: seq<Event>, a: Block, b: Block)
    requires Carries(events, [a, b])
    ensures Content(Blocks(events)) == Rebuilt(a) + Rebuilt(b)
  {
    Reassembles(events, [a, b]);
    TwoRebuilt(a, b);
  }

  lemma TextAndCallRebuilt(text: string, id: string, name: string)
    ensures Rebuilt(Text(text)) + Rebuilt(ToolUse(id, name, "")) == [Text(text), ToolUse(id, name, "{}")]
  {
    BlankIsEmptyObject();
  }

  lemma TextThenCallRebuilt(text: string)
    ensures Content(Blocks(TextThenCall(text))) == [Text(text), ToolUse("call", "spending", "{}")]
  {
    TextThenCallCarries(text);
    TwoReassembled(TextThenCall(text), Text(text), ToolUse("call", "spending", ""));
    TextAndCallRebuilt(text, "call", "spending");
  }
}
