/**
 One chat turn: up to nine exchanges with the model, running the tools it asks
 for, widening its tool list when it asks for that, and carrying on an answer
 that was cut off. The model is arbitrary: each exchange may hold anything.
 */
module Chat {
  import opened Wrappers
  import opened Stream
  import opened ToolGrant

  const MAX_ITERATIONS := 9
  const STOP_MAX_TOKENS := "max_tokens"

  datatype Role = User | Assistant
  datatype Message = Message(role: Role, content: seq<Block>)

  // ------------------------------------------------- reading one response

  function ToolUsesOf(content: seq<Block>): seq<Block> {
    if |content| == 0 then []
    else
      var last := content[|content| - 1];
      ToolUsesOf(content[..|content| - 1]) + if last.ToolUse? then [last] else []
  }

  /** What is echoed back: everything but reasoning. */
  function Echoed(content: seq<Block>): seq<Block> {
    if |content| == 0 then []
    else
      var last := content[|content| - 1];
      Echoed(content[..|content| - 1]) + if last.Thinking? then [] else [last]
  }

  predicate OnlyThinking(content: seq<Block>) {
    forall b :: b in content ==> b.Thinking?
  }

  predicate Truncated(r: Response) {
    r.stopReason == STOP_MAX_TOKENS
  }

  method ReadText(content: seq<Block>) returns (text: string)
    ensures text == TextOf(content)
  {
    text := "";
    for i := 0 to |content|
      invariant text == TextOf(content[..i])
    {
      assert content[..i + 1][..i] == content[..i];
      if content[i].Text? { text := text + content[i].text; }
    }
    assert content[..|content|] == content;
  }

  method ReadToolUses(content: seq<Block>) returns (uses: seq<Block>)
    ensures uses == ToolUsesOf(content)
  {
    uses := [];
    for i := 0 to |content|
      invariant uses == ToolUsesOf(content[..i])
    {
      assert content[..i + 1][..i] == content[..i];
      if content[i].ToolUse? { uses := uses + [content[i]]; }
    }
    assert content[..|content|] == content;
  }

  method AsMessage(content: seq<Block>) returns (m: Message)
    ensures m == Message(Assistant, Echoed(content))
  {
    var echoed: seq<Block> := [];
    for i := 0 to |content|
      invariant echoed == Echoed(content[..i])
    {
      assert content[..i + 1][..i] == content[..i];
      if !content[i].Thinking? { echoed := echoed + [content[i]]; }
    }
    assert content[..|content|] == content;
    m := Message(Assistant, echoed);
  }

  /** Echoing keeps every tool call, in order. */
  lemma {:induction false} EchoKeepsCalls(content: seq<Block>)
    ensures ToolUsesOf(Echoed(content)) == ToolUsesOf(content)
    ensures forall b :: b in ToolUsesOf(content) ==> b.ToolUse? && b in content
  {
    if |content| > 0 {
      var init, last := content[..|content| - 1], content[|content| - 1];
      EchoKeepsCalls(init);
      if last.Thinking? {
        assert Echoed(content) == Echoed(init);
        assert ToolUsesOf(content) == ToolUsesOf(init);
      } else {
        assert (Echoed(init) + [last])[..|Echoed(init)|] == Echoed(init);
      }
    }
  }

  /** Echoing drops all reasoning, and leaves nothing only when there was nothing else. */
  lemma {:induction false} EchoDropsThinking(content: seq<Block>)
    ensures forall b :: b in Echoed(content) ==> !b.Thinking?
    ensures Echoed(content) == [] <==> OnlyThinking(content)
    ensures OnlyThinking(content) ==> TextOf(content) == ""
  {
    if |content| > 0 {
      var init, last := content[..|content| - 1], content[|content| - 1];
      EchoDropsThinking(init);
      assert content == init + [last];
      assert OnlyThinking(content) <==> OnlyThinking(init) && last.Thinking?;
    }
  }

  /** Echoing keeps the text that was said. */
  lemma {:induction false} EchoKeepsText(content: seq<Block>)
    ensures TextOf(Echoed(content)) == TextOf(content)
  {
    if |content| > 0 {
      var init, last := content[..|content| - 1], content[|content| - 1];
      EchoKeepsText(init);
      if last.Thinking? {
        assert Echoed(content) == Echoed(init);
        assert TextOf(content) == TextOf(init);
      } else {
        assert (Echoed(init) + [last])[..|Echoed(init)|] == Echoed(init);
      }
    }
  }

  // --------------------------------------------------------- one exchange

  /**
   What the endpoint does in one exchange: refuse the streaming call outright,
   or stream events and perhaps break off; and what a plain call would return.
   */
  datatype Exchange = Exchange(refused: bool, events: seq<Event>, broken: bool, plain: Result<Response>)

  /** How an exchange looks to the loop: the response, whether its text was streamed, and what was delivered. */
  datatype Seen = Seen(reply: Result<Response>, streamed: bool, delivered: string)

  /** A plain call is only made when the stream failed in silence, so it never repeats text. */
  predicate Possible(s: Seen) {
    s.reply.Ok? && !s.streamed ==> s.delivered == ""
  }

  /** What was streamed is the response's text. */
  predicate InOrder(s: Seen) {
    s.reply.Ok? && s.streamed ==> s.delivered == TextOf(s.reply.value.content)
  }

  predicate StreamWorks(x: Exchange) {
    !x.refused && ReadUntil(x.events) == |x.events| && !x.broken
  }

  /** What the loop sees of an exchange: the stream if it works or has already shown something, else the plain call. */
  function SeenOf(x: Exchange): Seen {
    if x.refused then Seen(x.plain, false, "")
    else
      var shown := Emitted(x.events[..ReadUntil(x.events)]);
      if StreamWorks(x) then Seen(Ok(Response(Content(Blocks(x.events)), Stopped(x.events))), true, shown)
      else if shown != "" then Seen(Err(StreamError(x.events)), false, shown)
      else Seen(x.plain, false, "")
  }

  method ChatComplete(x: Exchange) returns (s: Seen)
    ensures s == SeenOf(x) && Possible(s)
    ensures s.delivered == if x.refused then "" else Emitted(x.events[..ReadUntil(x.events)])
    ensures s.streamed ==> s.reply == Ok(Response(Content(Blocks(x.events)), Stopped(x.events)))
    ensures !s.streamed && s.delivered == "" ==> s.reply == x.plain
    ensures !s.streamed && s.delivered != "" ==> s.reply.Err?
  {
    var reply, shown := Err("refused"), "";
    if !x.refused {
      reply, shown := CompleteStream(x.events, x.broken);
    }
    if reply.Ok? {
      assert x.events[..|x.events|] == x.events;
      return Seen(reply, true, shown);
    }
    var emitted := shown != "";
    if emitted {
      return Seen(reply, false, shown);
    }
    return Seen(x.plain, false, shown);
  }

  /** A stream of some content whose blocks send their text in turn shows exactly its text. */
  lemma InTurnIsInOrder(x: Exchange, content: seq<Block>)
    requires TextInBlockOrder(x.events) && Carries(x.events, content)
    ensures InOrder(SeenOf(x))
  {
    if StreamWorks(x) {
      assert x.events[..|x.events|] == x.events;
      ShownEqualsText(x.events, content);
    }
  }

  // ------------------------------------------------------- the whole dialogue

  /** A run of exchanges as the loop sees them. */
  type Run = nat -> Seen

  ghost predicate Watches(run: Run, exchanges: nat -> Exchange) {
    forall i :: run(i) == SeenOf(exchanges(i))
  }

  lemma ObservedWatches(exchanges: nat -> Exchange)
    ensures Watches(Observed(exchanges), exchanges)
  {
  }

  /** What the loop sees of an endpoint that may do anything in each exchange. */
  function Observed(exchanges: nat -> Exchange): Run {
    (i: nat) => SeenOf(exchanges(i))
  }

  predicate CallsTools(s: Seen) {
    s.reply.Ok? && ToolUsesOf(s.reply.value.content) != []
  }

  /** An exchange after which the loop goes on to another. */
  predicate GoesOn(s: Seen) {
    && s.reply.Ok?
    && (CallsTools(s) || (Truncated(s.reply.value) && !OnlyThinking(s.reply.value.content)))
  }

  function AnswerPiece(s: Seen): string {
    if s.reply.Ok? && !CallsTools(s) then TextOf(s.reply.value.content) else ""
  }

  function SentPiece(s: Seen): string {
    if s.streamed then s.delivered else s.delivered + AnswerPiece(s)
  }

  function LeakedPiece(s: Seen): string {
    if CallsTools(s) then s.delivered else ""
  }

  /** What the first n exchanges add up to, one piece each. */
  function AddedUp(piece: Seen -> string, run: Run, n: nat): string {
    if n == 0 then "" else AddedUp(piece, run, n - 1) + piece(run(n - 1))
  }

  /** The text of the answer so far: every exchange that called no tools, in order. */
  function Answer(run: Run, n: nat): string {
    AddedUp(AnswerPiece, run, n)
  }

  /** Everything delivered to the user so far. */
  function Sent(run: Run, n: nat): string {
    AddedUp(SentPiece, run, n)
  }

  /** The text delivered by exchanges that called tools. */
  function Leaked(run: Run, n: nat): string {
    AddedUp(LeakedPiece, run, n)
  }

  /** An exchange's piece is in the answer, or leaked. */
  predicate OneOrTheOther(sent: string, answer: string, leaked: string) {
    (sent == answer && leaked == "") || (answer == "" && sent == leaked)
  }

  lemma {:induction false} AddedUpAgree(sent: Seen -> string, answer: Seen -> string, leaked: Seen -> string, run: Run, n: nat)
    requires forall i :: 0 <= i < n ==> OneOrTheOther(sent(run(i)), answer(run(i)), leaked(run(i)))
    ensures |AddedUp(sent, run, n)| == |AddedUp(answer, run, n)| + |AddedUp(leaked, run, n)|
    ensures AddedUp(sent, run, n) == AddedUp(answer, run, n) <==> AddedUp(leaked, run, n) == ""
  {
    if n > 0 {
      AddedUpAgree(sent, answer, leaked, run, n - 1);
      OneMoreExchange(AddedUp(sent, run, n - 1), AddedUp(answer, run, n - 1), AddedUp(leaked, run, n - 1),
                      sent(run(n - 1)), answer(run(n - 1)), leaked(run(n - 1)));
    }
  }

  /** The user has been sent the answer exactly when no tool-calling exchange sent text. */
  lemma SentIsAnswer(run: Run, n: nat)
    requires forall i :: 0 <= i < n ==> run(i).reply.Ok? && InOrder(run(i)) && Possible(run(i))
    ensures |Sent(run, n)| == |Answer(run, n)| + |Leaked(run, n)|
    ensures Sent(run, n) == Answer(run, n) <==> Leaked(run, n) == ""
  {
    forall i | 0 <= i < n
      ensures OneOrTheOther(SentPiece(run(i)), AnswerPiece(run(i)), LeakedPiece(run(i)))
    {
      OnePiece(run(i));
    }
    AddedUpAgree(SentPiece, AnswerPiece, LeakedPiece, run, n);
  }

  lemma OnePiece(s: Seen)
    requires s.reply.Ok? && InOrder(s) && Possible(s)
    ensures OneOrTheOther(SentPiece(s), AnswerPiece(s), LeakedPiece(s))
  {
  }

  lemma OneMoreExchange(sent: string, answer: string, leaked: string, s: string, a: string, l: string)
    requires |sent| == |answer| + |leaked| && (sent == answer <==> leaked == "")
    requires OneOrTheOther(s, a, l)
    ensures |sent + s| == |answer + a| + |leaked + l|
    ensures sent + s == answer + a <==> leaked + l == ""
  {
    if |leaked + l| == 0 {
      assert sent == answer && s == a;
    } else {
      assert |sent + s| > |answer + a|;
    }
  }

  /** The fixed texts the loop uses. */
  datatype Wording = Wording(continuePrompt: string, cutOffNote: string, apology: string, loaded: string)

  /** Where one exchange leaves the loop. */
  datatype Verdict = Failed(error: string) | Finished | Stuck | Onward

  function VerdictOf(s: Seen): Verdict {
    if s.reply.Err? then Failed(s.reply.error)
    else if GoesOn(s) then Onward
    else if Truncated(s.reply.value) then Stuck
    else Finished
  }

  predicate AllOnward(run: Run, n: nat) {
    n == 0 || (VerdictOf(run(n - 1)).Onward? && AllOnward(run, n - 1))
  }

  // ------------------------------------------------------------- the tool list

  datatype Tools = Tools(list: seq<Tool>, available: set<string>, granted: nat)

  /** What the loop is given besides the model: how tools are granted and run, and the fixed texts it uses. */
  datatype Toolbox = Toolbox(
    grant: Grant, execute: (nat, nat) -> Result<string>, wording: Wording)

  /** What one call does to the tool list: nothing, unless it is a readable find_tools call. */
  function AfterCall(use: Block, box: Toolbox, t: Tools): Tools
    requires use.ToolUse?
  {
    if use.name != TOOL_FINDER then t
    else
      match box.grant(use.input, t.available, t.granted)
      case Err(_) => t
      case Ok(picked) => Tools(t.list + picked, t.available + Names(picked), t.granted + |picked|)
  }

  function AfterCalls(uses: seq<Block>, box: Toolbox, t: Tools): Tools
    requires AllCalls(uses)
  {
    if |uses| == 0 then t
    else AfterCall(uses[|uses| - 1], box, AfterCalls(uses[..|uses| - 1], box, t))
  }

  predicate AllCalls(uses: seq<Block>) {
    forall b :: b in uses ==> b.ToolUse?
  }

  /** The result a call gets: the tool's outcome, its error handed back as such. */
  function ResultOf(use: Block, box: Toolbox, turn: nat, j: nat, t: Tools): Block
    requires use.ToolUse?
  {
    if use.name == TOOL_FINDER then
      match box.grant(use.input, t.available, t.granted)
      case Err(e) => ToolResult(use.id, e, true)
      case Ok(_) => ToolResult(use.id, box.wording.loaded, false)
    else
      match box.execute(turn, j)
      case Err(e) => ToolResult(use.id, e, true)
      case Ok(out) => ToolResult(use.id, out, false)
  }

  function ResultsOf(uses: seq<Block>, box: Toolbox, turn: nat, t: Tools): (results: seq<Block>)
    requires AllCalls(uses)
    ensures |results| == |uses|
  {
    if |uses| == 0 then []
    else
      var init, last := uses[..|uses| - 1], uses[|uses| - 1];
      ResultsOf(init, box, turn, t) + [ResultOf(last, box, turn, |init|, AfterCalls(init, box, t))]
  }

  function CallsIn(s: Seen): (uses: seq<Block>)
    ensures AllCalls(uses)
  {
    if s.reply.Ok? then
      assert AllCalls(ToolUsesOf(s.reply.value.content)) by { EchoKeepsCalls(s.reply.value.content); }
      ToolUsesOf(s.reply.value.content)
    else []
  }

  /** What one exchange adds to the conversation: the response echoed, then its calls answered or a prompt to go on. */
  function Round(s: Seen, box: Toolbox, turn: nat, t: Tools): (ms: seq<Message>)
    ensures |ms| == if VerdictOf(s).Onward? then 2 else 0
  {
    if !VerdictOf(s).Onward? then []
    else
      var calls := CallsIn(s);
      [Message(Assistant, Echoed(s.reply.value.content)),
       Message(User, if calls == [] then [Text(box.wording.continuePrompt)] else ResultsOf(calls, box, turn, t))]
  }

  // ------------------------------------------------------------------ the loop

  /** Answers one response's calls in order, widening the tool list where it is asked to. */
  method AnswerCalls(uses: seq<Block>, turn: nat, box: Toolbox, tools0: Tools)
    returns (results: seq<Block>, tools: Tools)
    requires AllCalls(uses)
    ensures results == ResultsOf(uses, box, turn, tools0) && tools == AfterCalls(uses, box, tools0)
  {
    results, tools := [], tools0;
    for j := 0 to |uses|
      invariant results == ResultsOf(uses[..j], box, turn, tools0) && tools == AfterCalls(uses[..j], box, tools0)
    {
      var use := uses[j];
      assert use in uses && uses[..j + 1][..j] == uses[..j];
      var r;
      r, tools := AnswerCall(use, turn, j, box, tools);
      results := results + [r];
    }
    assert uses[..|uses|] == uses;
  }

  method AnswerCall(use: Block, turn: nat, j: nat, box: Toolbox, tools0: Tools) returns (r: Block, tools: Tools)
    requires use.ToolUse?
    ensures r == ResultOf(use, box, turn, j, tools0) && tools == AfterCall(use, box, tools0)
  {
    tools := tools0;
    if use.name == TOOL_FINDER {
      match box.grant(use.input, tools.available, tools.granted) {
        case Err(e) =>
          r := ToolResult(use.id, e, true);
        case Ok(added) =>
          tools := Tools(tools.list + added, tools.available + Names(added), tools.granted + |added|);
          r := ToolResult(use.id, box.wording.loaded, false);
      }
      return;
    }
    match box.execute(turn, j) {
      case Err(e) => r := ToolResult(use.id, e, true);
      case Ok(out) => r := ToolResult(use.id, out, false);
    }
  }

  /** Everything the loop carries from one exchange to the next. */
  datatype State = State(
    turns: nat, verdict: Verdict, answer: string, sent: string, messages: seq<Message>, tools: Tools)

  /** The state after one more exchange. */
  function After(s: Seen, box: Toolbox, listening: bool, st: State): State {
    State(
      st.turns + 1, VerdictOf(s), st.answer + AnswerPiece(s), if listening then st.sent + SentPiece(s) else st.sent,
      st.messages + Round(s, box, st.turns, st.tools), AfterCalls(CallsIn(s), box, st.tools))
  }

  /** What an exchange does to the loop's state. */
  type Step = (Seen, State) -> State

  function StepOf(box: Toolbox, listening: bool): Step {
    (s, st) => After(s, box, listening, st)
  }

  /** The state after n exchanges of the run. */
  function StateAt(step: Step, run: Run, n: nat, first: State): State {
    if n == 0 then first else step(run(n - 1), StateAt(step, run, n - 1, first))
  }

  function FirstState(start: seq<Tool>, messages: seq<Message>): State {
    State(0, Onward, "", "", messages, Tools(start, Names(start), 0))
  }

  /** step is StepOf(box, listening), to be looked up only where an exchange is taken apart. */
  ghost predicate Implements(step: Step, box: Toolbox, listening: bool) {
    forall s, st {:trigger After(s, box, listening, st)} :: step(s, st) == After(s, box, listening, st)
  }

  /** One pass of the loop. */
  method Iterate(s: Seen, box: Toolbox, listening: bool, st: State, ghost step: Step) returns (next: State)
    requires Possible(s) && Implements(step, box, listening)
    ensures next == step(s, st) && next.turns == st.turns + 1
  {
    var verdict, answer, sent, messages, tools;
    verdict, answer, sent, messages, tools := Pass(s, box, listening, st);
    next := State(st.turns + 1, verdict, answer, sent, messages, tools);
    assert next == After(s, box, listening, st);
  }

  method Pass(s: Seen, box: Toolbox, listening: bool, st: State)
    returns (verdict: Verdict, answer: string, sent: string, messages: seq<Message>, tools: Tools)
    requires Possible(s)
    ensures verdict == VerdictOf(s)
    ensures answer == st.answer + AnswerPiece(s)
    ensures sent == if listening then st.sent + SentPiece(s) else st.sent
    ensures messages == st.messages + Round(s, box, st.turns, st.tools)
    ensures tools == AfterCalls(CallsIn(s), box, st.tools)
  {
    answer, messages, tools := st.answer, st.messages, st.tools;
    sent := if listening then st.sent + s.delivered else st.sent;
    AppendsNothing(st, s);
    if s.reply.Err? {
      verdict := Failed(s.reply.error);
      return;
    }
    var content := s.reply.value.content;
    var uses := ReadToolUses(content);
    if |uses| == 0 {
      var text := ReadText(content);
      if !s.streamed && listening { sent := sent + text; }
      answer := answer + text;
      if Truncated(s.reply.value) && OnlyThinking(content) {
        verdict := Stuck;
        return;
      }
      if !Truncated(s.reply.value) {
        verdict := Finished;
        return;
      }
      var said := AsMessage(content);
      messages := messages + [said, Message(User, [Text(box.wording.continuePrompt)])];
      verdict := Onward;
      return;
    }
    assert uses == CallsIn(s);
    var said := AsMessage(content);
    var results;
    results, tools := AnswerCalls(uses, st.turns, box, tools);
    messages := messages + [said, Message(User, results)];
    verdict := Onward;
  }

  lemma AppendsNothing(st: State, s: Seen)
    ensures st.answer + "" == st.answer && st.messages + [] == st.messages && s.delivered + "" == s.delivered
    ensures (st.sent + s.delivered) + AnswerPiece(s) == st.sent + (s.delivered + AnswerPiece(s))
  {
  }

  /** Makes one exchange and takes it into the state. */
  method Take(x: Exchange, box: Toolbox, listening: bool, st: State, ghost step: Step, ghost seen: Seen)
    returns (next: State)
    requires seen == SeenOf(x) && Implements(step, box, listening)
    ensures next == step(seen, st) && next.turns == st.turns + 1
  {
    var s := ChatComplete(x);
    next := Iterate(s, box, listening, st, step);
  }

  /** What the turn adds when the loop is over. */
  function Ending(st: State, w: Wording): string {
    if st.verdict.Finished? then "" else if st.answer != "" then w.cutOffNote else w.apology
  }

  /** The first n exchanges all left the loop going. */
  predicate KeptGoing(step: Step, run: Run, n: nat, first: State) {
    n == 0 || (StateAt(step, run, n, first).verdict.Onward? && KeptGoing(step, run, n - 1, first))
  }

  method Loop(exchanges: nat -> Exchange, box: Toolbox, listening: bool, first: State, ghost step: Step,
              ghost run: Run) returns (st: State)
    requires first.turns == 0 && first.verdict.Onward?
    requires Implements(step, box, listening) && Watches(run, exchanges)
    ensures 1 <= st.turns <= MAX_ITERATIONS && st == StateAt(step, run, st.turns, first)
    ensures KeptGoing(step, run, st.turns - 1, first)
    ensures st.turns < MAX_ITERATIONS ==> !st.verdict.Onward?
  {
    st := first;
    var turns := 0;
    while turns < MAX_ITERATIONS && st.verdict.Onward?
      invariant turns == st.turns <= MAX_ITERATIONS
      invariant turns == 0 ==> st.verdict.Onward?
      invariant st == StateAt(step, run, turns, first)
      invariant turns > 0 ==> KeptGoing(step, run, turns - 1, first)
      decreases MAX_ITERATIONS - turns
    {
      st := Take(exchanges(turns), box, listening, st, step, run(turns));
      turns := turns + 1;
    }
  }

  method Converse(exchanges: nat -> Exchange, box: Toolbox, listening: bool, first: State, ghost step: Step,
                  ghost run: Run) returns (st: State)
    requires first.turns == 0 && first.verdict.Onward?
    requires Implements(step, box, listening) && Watches(run, exchanges)
    requires forall s, st :: step(s, st).verdict == VerdictOf(s)
    ensures 1 <= st.turns <= MAX_ITERATIONS && st == StateAt(step, run, st.turns, first)
    ensures KeptGoing(step, run, st.turns - 1, first)
    ensures st.turns < MAX_ITERATIONS ==> !st.verdict.Onward?
    ensures !st.verdict.Failed? ==> AllReplied(run, st.turns)
  {
    st := Loop(exchanges, box, listening, first, step, run);
    if !st.verdict.Failed? { EveryExchangeReplied(step, run, st.turns, first); }
  }

  // ------------------------------------------------- what holds of every run

  /** Every exchange before the last asked for more, and the last decided how the turn ends. */
  lemma {:induction false} KeptGoingMeansOnward(step: Step, run: Run, n: nat, first: State)
    requires forall s, st :: step(s, st).verdict == VerdictOf(s)
    requires KeptGoing(step, run, n, first)
    ensures AllOnward(run, n)
    ensures StateAt(step, run, n + 1, first).verdict == VerdictOf(run(n))
  {
    if n > 0 {
      KeptGoingMeansOnward(step, run, n - 1, first);
      assert StateAt(step, run, n, first) == step(run(n - 1), StateAt(step, run, n - 1, first));
    }
  }

  lemma {:induction false} StateAddsUp(step: Step, run: Run, n: nat, first: State, text: State -> string, piece: Seen -> string)
    requires forall s, st :: text(step(s, st)) == text(st) + piece(s)
    requires text(first) == ""
    ensures text(StateAt(step, run, n, first)) == AddedUp(piece, run, n)
  {
    if n > 0 { StateAddsUp(step, run, n - 1, first, text, piece); }
  }

  lemma StateText(step: Step, run: Run, n: nat, first: State)
    requires forall s, st :: step(s, st).answer == st.answer + AnswerPiece(s)
    requires forall s, st :: step(s, st).sent == st.sent + SentPiece(s)
    requires first.answer == "" && first.sent == ""
    ensures StateAt(step, run, n, first).answer == Answer(run, n)
    ensures StateAt(step, run, n, first).sent == Sent(run, n)
  {
    StateAddsUp(step, run, n, first, (st: State) => st.answer, AnswerPiece);
    StateAddsUp(step, run, n, first, (st: State) => st.sent, SentPiece);
  }

  /**
   On every exit that is not an error, what the caller keeps is what the user
   was sent, with nothing repeated, exactly when no tool-calling exchange let
   text through.
   */
  lemma KeptIsSent(run: Run, n: nat, box: Toolbox, start: seq<Tool>, ms: seq<Message>)
    requires forall i :: 0 <= i < n ==> run(i).reply.Ok? && InOrder(run(i)) && Possible(run(i))
    ensures var st := StateAt(StepOf(box, true), run, n, FirstState(start, ms));
            var ending := Ending(st, box.wording);
            st.answer + ending == st.sent + ending <==> Leaked(run, n) == ""
  {
    var step, first := StepOf(box, true), FirstState(start, ms);
    StateText(step, run, n, first);
    SentIsAnswer(run, n);
    var st := StateAt(step, run, n, first);
    SameEnding(st.answer, st.sent, Ending(st, box.wording));
  }

  lemma SameEnding(a: string, b: string, ending: string)
    ensures a + ending == b + ending <==> a == b
  {
    if a + ending == b + ending {
      assert |a| == |b|;
      assert (a + ending)[..|a|] == a && (b + ending)[..|b|] == b;
    }
  }

  /** Names are distinct and are exactly the available ones; growth is counted and comes from the catalogue. */
  ghost predicate ValidTools(t: Tools, start: seq<Tool>, catalogue: seq<Tool>) {
    && start <= t.list
    && DistinctNames(t.list) && Names(t.list) == t.available
    && t.granted == |t.list| - |start| && t.granted <= 6
    && forall i :: |start| <= i < |t.list| ==> t.list[i] in catalogue
  }

  lemma GrantsKeepValid(t: Tools, start: seq<Tool>, catalogue: seq<Tool>, picked: seq<Tool>)
    requires ValidTools(t, start, catalogue)
    requires t.granted + |picked| <= MAX_GRANTED && Names(picked) !! t.available && DistinctNames(picked)
    requires forall p :: p in picked ==> p in catalogue
    ensures ValidTools(Tools(t.list + picked, t.available + Names(picked), t.granted + |picked|), start, catalogue)
  {
    var list := t.list + picked;
    assert forall i :: 0 <= i < |t.list| ==> t.list[i].name in Names(t.list);
    assert forall i :: 0 <= i < |picked| ==> picked[i].name in Names(picked);
    assert Names(list) == Names(t.list) + Names(picked) by {
      forall n | n in Names(t.list) + Names(picked)
        ensures n in Names(list)
      {
        if n in Names(t.list) {
          var i :| 0 <= i < |t.list| && t.list[i].name == n;
          assert list[i].name == n;
        } else {
          var i :| 0 <= i < |picked| && picked[i].name == n;
          assert list[|t.list| + i].name == n;
        }
      }
    }
  }

  lemma {:induction false} CallsKeepValid(uses: seq<Block>, box: Toolbox, t: Tools, start: seq<Tool>, catalogue: seq<Tool>)
    requires AllCalls(uses) && ValidTools(t, start, catalogue) && WithinLimits(box.grant, catalogue)
    ensures ValidTools(AfterCalls(uses, box, t), start, catalogue)
    ensures t.list <= AfterCalls(uses, box, t).list
  {
    if |uses| > 0 {
      CallsKeepValid(uses[..|uses| - 1], box, t, start, catalogue);
      var mid, use := AfterCalls(uses[..|uses| - 1], box, t), uses[|uses| - 1];
      var got := box.grant(use.input, mid.available, mid.granted);
      if use.name == TOOL_FINDER && got.Ok? {
        assert IsFairGrant(got.value, catalogue, mid.available, mid.granted);
        GrantsKeepValid(mid, start, catalogue, got.value);
      }
    }
  }

  lemma {:induction false} StateToolsValid(step: Step, run: Run, n: nat, first: State, start: seq<Tool>, catalogue: seq<Tool>)
    requires ValidTools(first.tools, start, catalogue)
    requires forall s, st: State :: ValidTools(st.tools, start, catalogue) ==>
               ValidTools(step(s, st).tools, start, catalogue) && st.tools.list <= step(s, st).tools.list
    ensures ValidTools(StateAt(step, run, n, first).tools, start, catalogue)
    ensures n > 0 ==> StateAt(step, run, n - 1, first).tools.list <= StateAt(step, run, n, first).tools.list
  {
    if n > 0 { StateToolsValid(step, run, n - 1, first, start, catalogue); }
  }

  /** Over every run the tool list only grows, never repeats a name, and takes in at most six tools. */
  lemma ToolsStayValid(run: Run, n: nat, box: Toolbox, listening: bool, start: seq<Tool>, ms: seq<Message>, catalogue: seq<Tool>)
    requires DistinctNames(start) && WithinLimits(box.grant, catalogue)
    ensures var step, first := StepOf(box, listening), FirstState(start, ms);
            && ValidTools(StateAt(step, run, n, first).tools, start, catalogue)
            && (n > 0 ==> StateAt(step, run, n - 1, first).tools.list <= StateAt(step, run, n, first).tools.list)
  {
    var step := StepOf(box, listening);
    forall s: Seen, st: State | ValidTools(st.tools, start, catalogue)
      ensures ValidTools(step(s, st).tools, start, catalogue) && st.tools.list <= step(s, st).tools.list
    {
      CallsKeepValid(CallsIn(s), box, st.tools, start, catalogue);
    }
    StateToolsValid(step, run, n, FirstState(start, ms), start, catalogue);
  }

  /** results answer calls: one each, in the same order. */
  ghost predicate Answers(results: seq<Block>, calls: seq<Block>) {
    && |results| == |calls|
    && forall i :: 0 <= i < |calls| ==>
         calls[i].ToolUse? && results[i].ToolResult? && results[i].toolUseId == calls[i].id
  }

  /** Something the model said, not empty, followed by what the loop replied. */
  ghost predicate IsRound(said: Message, next: Message, box: Toolbox) {
    && said.role == Assistant && said.content != [] && (forall b :: b in said.content ==> !b.Thinking?)
    && next.role == User
    && (if ToolUsesOf(said.content) == [] then next.content == [Text(box.wording.continuePrompt)]
        else Answers(next.content, ToolUsesOf(said.content)))
  }

  lemma {:induction false} ResultsAnswer(uses: seq<Block>, box: Toolbox, turn: nat, t: Tools)
    requires AllCalls(uses)
    ensures Answers(ResultsOf(uses, box, turn, t), uses)
  {
    if |uses| > 0 { ResultsAnswer(uses[..|uses| - 1], box, turn, t); }
  }

  lemma OnwardRound(s: Seen, box: Toolbox, turn: nat, t: Tools)
    requires VerdictOf(s).Onward?
    ensures IsRound(Round(s, box, turn, t)[0], Round(s, box, turn, t)[1], box)
  {
    var content := s.reply.value.content;
    EchoKeepsCalls(content);
    EchoDropsThinking(content);
    if ToolUsesOf(content) != [] { CallsAreNotThinking(content); }
    ResultsAnswer(CallsIn(s), box, turn, t);
  }

  lemma CallsAreNotThinking(content: seq<Block>)
    requires ToolUsesOf(content) != []
    ensures !OnlyThinking(content)
  {
    EchoKeepsCalls(content);
    assert ToolUsesOf(content)[0] in ToolUsesOf(content);
  }

  /** Rounds, one after another. */
  ghost predicate IsDialogue(ms: seq<Message>, box: Toolbox) {
    ms == [] ||
    (|ms| >= 2 && IsDialogue(ms[..|ms| - 2], box) && IsRound(ms[|ms| - 2], ms[|ms| - 1], box))
  }

  lemma DialogueGrows(ms: seq<Message>, said: Message, next: Message, box: Toolbox)
    requires IsDialogue(ms, box) && IsRound(said, next, box)
    ensures IsDialogue(ms + [said, next], box)
  {
    var after := ms + [said, next];
    assert after[..|after| - 2] == ms && after[|after| - 2] == said && after[|after| - 1] == next;
  }

  /** Nothing, or one round. */
  ghost predicate RoundOrNothing(ms: seq<Message>, box: Toolbox) {
    ms == [] || (|ms| == 2 && IsRound(ms[0], ms[1], box))
  }

  lemma {:induction false} StateDialogue(step: Step, run: Run, n: nat, first: State, box: Toolbox,
                                         round: (Seen, State) -> seq<Message>)
    requires forall s, st :: step(s, st).messages == st.messages + round(s, st)
    requires forall s, st :: RoundOrNothing(round(s, st), box)
    ensures |first.messages| <= |StateAt(step, run, n, first).messages|
    ensures first.messages <= StateAt(step, run, n, first).messages
    ensures IsDialogue(StateAt(step, run, n, first).messages[|first.messages|..], box)
  {
    if n > 0 {
      StateDialogue(step, run, n - 1, first, box, round);
      var before := StateAt(step, run, n - 1, first);
      assert RoundOrNothing(round(run(n - 1), before), box);
      TailGrows(before.messages, |first.messages|, round(run(n - 1), before), box);
    }
  }

  lemma TailGrows(before: seq<Message>, k: nat, more: seq<Message>, box: Toolbox)
    requires k <= |before| && IsDialogue(before[k..], box) && RoundOrNothing(more, box)
    ensures IsDialogue((before + more)[k..], box)
  {
    assert (before + more)[k..] == before[k..] + more;
    if more == [] {
      assert before[k..] + more == before[k..];
    } else {
      assert more == [more[0], more[1]];
      DialogueGrows(before[k..], more[0], more[1], box);
    }
  }

  /**
   Over every run the conversation grows in rounds: what the model said, never
   empty and never reasoning, then one result for each call in order, or one
   prompt to continue when it called nothing.
   */
  lemma ConversationIsDialogue(run: Run, n: nat, box: Toolbox, listening: bool, start: seq<Tool>, ms: seq<Message>)
    ensures var st := StateAt(StepOf(box, listening), run, n, FirstState(start, ms));
            ms <= st.messages && IsDialogue(st.messages[|ms|..], box)
  {
    var step := StepOf(box, listening);
    var round := (s: Seen, st: State) => Round(s, box, st.turns, st.tools);
    forall s, st
      ensures RoundOrNothing(round(s, st), box)
    {
      if VerdictOf(s).Onward? { OnwardRound(s, box, st.turns, st.tools); }
    }
    StateDialogue(step, run, n, FirstState(start, ms), box, round);
  }

  /** In a dialogue every assistant message is answered by the very next message. */
  lemma {:induction false} RoundAt(ms: seq<Message>, k: nat, box: Toolbox)
    requires IsDialogue(ms, box) && 2 * k < |ms|
    ensures 2 * k + 1 < |ms| && IsRound(ms[2 * k], ms[2 * k + 1], box)
  {
    var init := ms[..|ms| - 2];
    if 2 * k < |init| {
      RoundAt(init, k, box);
    } else {
      DialogueEven(init, box);
    }
  }

  lemma {:induction false} DialogueEven(ms: seq<Message>, box: Toolbox)
    requires IsDialogue(ms, box)
    ensures |ms| % 2 == 0
  {
    if ms != [] { DialogueEven(ms[..|ms| - 2], box); }
  }

  /** The first n exchanges all brought a response. */
  ghost predicate AllReplied(run: Run, n: nat) {
    forall i :: 0 <= i < n ==> run(i).reply.Ok?
  }

  lemma {:induction false} OnwardReplied(run: Run, n: nat)
    requires AllOnward(run, n)
    ensures AllReplied(run, n)
  {
    if n > 0 { OnwardReplied(run, n - 1); }
  }

  /** A turn that ends without an error had a response to every exchange. */
  lemma EveryExchangeReplied(step: Step, run: Run, n: nat, first: State)
    requires forall s, st :: step(s, st).verdict == VerdictOf(s)
    requires n > 0 && KeptGoing(step, run, n - 1, first) && !StateAt(step, run, n, first).verdict.Failed?
    ensures AllReplied(run, n)
  {
    KeptGoingMeansOnward(step, run, n - 1, first);
    OnwardReplied(run, n - 1);
  }

  // ------------------------------------- the turn, told from its exchanges alone

  /** The response calls a tool, or was cut off with something said. */
  ghost predicate AsksOn(s: Seen) {
    && s.reply.Ok?
    && ((exists b :: b in s.reply.value.content && b.ToolUse?)
        || (s.reply.value.stopReason == "max_tokens" && exists b :: b in s.reply.value.content && !b.Thinking?))
  }

  /** An answer that was not cut off and calls nothing. */
  ghost predicate IsFinal(s: Seen) {
    s.reply.Ok? && s.reply.value.stopReason != "max_tokens" && forall b :: b in s.reply.value.content ==> !b.ToolUse?
  }

  lemma {:induction false} CallsFound(content: seq<Block>)
    ensures ToolUsesOf(content) != [] <==> exists b :: b in content && b.ToolUse?
  {
    EchoKeepsCalls(content);
    if ToolUsesOf(content) != [] {
      assert ToolUsesOf(content)[0] in ToolUsesOf(content);
    } else if b :| b in content && b.ToolUse? {
      CallIsListed(content, b);
    }
  }

  lemma {:induction false} CallIsListed(content: seq<Block>, b: Block)
    requires b in content && b.ToolUse?
    ensures ToolUsesOf(content) != []
  {
    var init, last := content[..|content| - 1], content[|content| - 1];
    assert content == init + [last];
    if b in init { CallIsListed(init, b); }
  }

  lemma VerdictMeans(s: Seen)
    ensures VerdictOf(s).Onward? <==> AsksOn(s)
    ensures VerdictOf(s).Finished? <==> IsFinal(s)
    ensures VerdictOf(s).Failed? <==> s.reply.Err?
    ensures s.reply.Err? ==> VerdictOf(s) == Failed(s.reply.error)
  {
    if s.reply.Ok? { CallsFound(s.reply.value.content); }
  }

  /** Every exchange before the last asked to go on; the turn stops short only at one that does not, and fails with the last. */
  ghost predicate Conducted(run: Run, n: nat, result: Result<string>) {
    && 1 <= n <= 9
    && (forall k :: 0 <= k < n - 1 ==> AsksOn(run(k)))
    && (n < 9 ==> !AsksOn(run(n - 1)))
    && (result.Err? <==> run(n - 1).reply.Err?)
    && (result.Err? ==> result.error == run(n - 1).reply.error)
  }

  function Joined(pieces: seq<string>): string {
    if |pieces| == 0 then "" else Joined(pieces[..|pieces| - 1]) + pieces[|pieces| - 1]
  }

  /** What the exchange says to the user: the text of a response that calls nothing. */
  ghost predicate Says(s: Seen, text: string) {
    if s.reply.Ok? && forall b :: b in s.reply.value.content ==> !b.ToolUse?
    then text == TextOf(s.reply.value.content) else text == ""
  }

  /** What is appended when the loop is over: nothing to an answer, a note to a cut-off one, an apology for none. */
  ghost predicate EndsWith(last: Seen, answer: string, ending: string, w: Wording) {
    if IsFinal(last) then ending == "" else ending == if answer != "" then w.cutOffNote else w.apology
  }

  /** The answer is what each exchange says, in order; the user is sent the same, streamed text as it was delivered. */
  ghost predicate Told(run: Run, n: nat, said: seq<string>, delivered: seq<string>) {
    && |said| == |delivered| == n
    && forall k :: 0 <= k < n ==>
         && Says(run(k), said[k])
         && delivered[k] == run(k).delivered + if run(k).streamed then "" else said[k]
  }

  ghost predicate SpokenAs(run: Run, n: nat, said: seq<string>, delivered: seq<string>, ending: string,
                           result: Result<string>, sent: string, listening: bool, w: Wording)
    requires n >= 1
  {
    && Told(run, n, said, delivered)
    && EndsWith(run(n - 1), Joined(said), ending, w)
    && (result.Ok? ==> result.value == Joined(said) + ending)
    && sent == if !listening then "" else if result.Ok? then Joined(delivered) + ending else Joined(delivered)
  }

  ghost predicate Spoken(run: Run, n: nat, result: Result<string>, sent: string, listening: bool, w: Wording)
    requires n >= 1
  {
    exists said, delivered, ending :: SpokenAs(run, n, said, delivered, ending, result, sent, listening, w)
  }

  /**
   One call and its result: a data tool's own outcome, and for find_tools the
   granted tools on the list, or the refusal. An outcome that is an error is
   flagged as one.
   */
  ghost predicate CallAnswered(use: Block, r: Block, before: Tools, after: Tools, box: Toolbox, turn: nat, j: nat) {
    && use.ToolUse? && r.ToolResult? && r.toolUseId == use.id
    && if use.name == "find_tools" then
         var got := box.grant(use.input, before.available, before.granted);
         && (r.isError <==> got.Err?)
         && (got.Err? ==> r.output == got.error && after == before)
         && (got.Ok? ==> && after.list == before.list + got.value
                         && after.available == before.available + Names(got.value)
                         && after.granted == before.granted + |got.value|)
       else
         var out := box.execute(turn, j);
         && after == before
         && (r.isError <==> out.Err?)
         && r.output == if out.Ok? then out.value else out.error
  }

  /** Every call of a response answered in turn, with the tool lists between them. */
  ghost predicate CallsAnswered(calls: seq<Block>, results: seq<Block>, lists: seq<Tools>, box: Toolbox, turn: nat) {
    && |results| == |calls| && |lists| == |calls| + 1
    && forall j :: 0 <= j < |calls| ==> CallAnswered(calls[j], results[j], lists[j], lists[j + 1], box, turn, j)
  }

  ghost predicate AllAnswered(calls: seq<Block>, results: seq<Block>, before: Tools, after: Tools, box: Toolbox, turn: nat) {
    exists lists ::
      CallsAnswered(calls, results, lists, box, turn) && lists[0] == before && lists[|calls|] == after
  }

  /** What one exchange leaves in the conversation: itself without its reasoning, then its calls answered or a prompt. */
  ghost predicate ExchangeRecorded(s: Seen, said: Message, next: Message, before: Tools, after: Tools, box: Toolbox,
                                   turn: nat) {
    && s.reply.Ok?
    && said == Message(Assistant, Echoed(s.reply.value.content)) && next.role == User
    && var calls := ToolUsesOf(s.reply.value.content);
       if calls == [] then next.content == [Text(box.wording.continuePrompt)] && after == before
       else AllAnswered(calls, next.content, before, after, box, turn)
  }

  /** The messages of the first n exchanges, two each, with the tool lists between them. */
  ghost predicate RecordedThrough(run: Run, n: nat, ms: seq<Message>, lists: seq<Tools>, box: Toolbox) {
    && |ms| == 2 * n && |lists| == n + 1
    && forall k :: 0 <= k < n ==> ExchangeRecorded(run(k), ms[2 * k], ms[2 * k + 1], lists[k], lists[k + 1], box, k)
  }

  ghost predicate Recorded(run: Run, n: nat, ms: seq<Message>, before: Tools, after: Tools, box: Toolbox) {
    exists lists :: RecordedThrough(run, n, ms, lists, box) && lists[0] == before && lists[n] == after
  }

  lemma OneAnswered(use: Block, box: Toolbox, turn: nat, j: nat, t: Tools)
    requires use.ToolUse?
    ensures CallAnswered(use, ResultOf(use, box, turn, j, t), t, AfterCall(use, box, t), box, turn, j)
  {
  }

  lemma {:induction false} ResultsAnswered(uses: seq<Block>, box: Toolbox, turn: nat, t: Tools)
    requires AllCalls(uses)
    ensures AllAnswered(uses, ResultsOf(uses, box, turn, t), t, AfterCalls(uses, box, t), box, turn)
  {
    if |uses| == 0 {
      assert CallsAnswered(uses, [], [t], box, turn);
    } else {
      var init, last := uses[..|uses| - 1], uses[|uses| - 1];
      ResultsAnswered(init, box, turn, t);
      var mid := AfterCalls(init, box, t);
      var lists :| CallsAnswered(init, ResultsOf(init, box, turn, t), lists, box, turn)
                   && lists[0] == t && lists[|init|] == mid;
      OneAnswered(last, box, turn, |init|, mid);
      AnsweredOneMore(init, last, ResultsOf(init, box, turn, t), ResultOf(last, box, turn, |init|, mid), lists,
                      AfterCall(last, box, mid), box, turn);
      assert uses == init + [last];
    }
  }

  lemma AnsweredOneMore(calls: seq<Block>, call: Block, results: seq<Block>, r: Block, lists: seq<Tools>, after: Tools,
                        box: Toolbox, turn: nat)
    requires CallsAnswered(calls, results, lists, box, turn)
    requires CallAnswered(call, r, lists[|calls|], after, box, turn, |calls|)
    ensures AllAnswered(calls + [call], results + [r], lists[0], after, box, turn)
  {
    assert CallsAnswered(calls + [call], results + [r], lists + [after], box, turn);
  }

  /** One more round on the state's conversation. */
  ghost predicate Extends(s: Seen, st: State, next: State, box: Toolbox) {
    && next.turns == st.turns + 1
    && |next.messages| == |st.messages| + 2 && next.messages[..|st.messages|] == st.messages
    && ExchangeRecorded(s, next.messages[|st.messages|], next.messages[|st.messages| + 1], st.tools, next.tools, box, st.turns)
  }

  lemma RoundRecorded(s: Seen, box: Toolbox, turn: nat, t: Tools)
    requires VerdictOf(s).Onward?
    ensures var ms := Round(s, box, turn, t);
            ExchangeRecorded(s, ms[0], ms[1], t, AfterCalls(CallsIn(s), box, t), box, turn)
  {
    ResultsAnswered(CallsIn(s), box, turn, t);
  }

  lemma OnwardExtends(s: Seen, st: State, box: Toolbox, listening: bool)
    requires VerdictOf(s).Onward?
    ensures Extends(s, st, After(s, box, listening, st), box)
  {
    RoundRecorded(s, box, st.turns, st.tools);
    var ms := Round(s, box, st.turns, st.tools);
    assert (st.messages + ms)[|st.messages|] == ms[0] && (st.messages + ms)[|st.messages| + 1] == ms[1];
  }

  lemma OtherwiseUnchanged(s: Seen, st: State, box: Toolbox, listening: bool)
    requires !VerdictOf(s).Onward?
    ensures After(s, box, listening, st).messages == st.messages && After(s, box, listening, st).tools == st.tools
  {
    assert CallsIn(s) == [];
  }

  /** After n exchanges the state's conversation is the first one's, then n rounds. */
  ghost predicate HoldsRounds(run: Run, n: nat, first: State, st: State, box: Toolbox) {
    && st.turns == n && |st.messages| == |first.messages| + 2 * n && first.messages <= st.messages
    && Recorded(run, n, st.messages[|first.messages|..], first.tools, st.tools, box)
  }

  /** What holds of the first state and is kept by an exchange that asks to go on. */
  lemma {:induction false} StateKeeps(step: Step, run: Run, n: nat, first: State, holds: (nat, State) -> bool)
    requires holds(0, first) && AllOnward(run, n)
    requires forall k: nat, st :: holds(k, st) && VerdictOf(run(k)).Onward? ==> holds(k + 1, step(run(k), st))
    ensures holds(n, StateAt(step, run, n, first))
  {
    if n > 0 { StateKeeps(step, run, n - 1, first, holds); }
  }

  lemma StateRecorded(step: Step, run: Run, n: nat, first: State, box: Toolbox)
    requires forall s, st :: VerdictOf(s).Onward? ==> Extends(s, st, step(s, st), box)
    requires first.turns == 0 && AllOnward(run, n)
    ensures HoldsRounds(run, n, first, StateAt(step, run, n, first), box)
  {
    var holds := (k: nat, st: State) => HoldsRounds(run, k, first, st, box);
    assert holds(0, first) by {
      assert RecordedThrough(run, 0, first.messages[|first.messages|..], [first.tools], box);
    }
    forall k: nat, st | holds(k, st) && VerdictOf(run(k)).Onward?
      ensures holds(k + 1, step(run(k), st))
    {
      OneMoreRecorded(run, k, first, st, step(run(k), st), box);
    }
    StateKeeps(step, run, n, first, holds);
  }

  lemma OneMoreRecorded(run: Run, n: nat, first: State, before: State, next: State, box: Toolbox)
    requires HoldsRounds(run, n, first, before, box) && Extends(run(n), before, next, box)
    ensures HoldsRounds(run, n + 1, first, next, box)
  {
    var k := |first.messages|;
    var sofar, ms := before.messages[k..], next.messages[k..];
    var lists :| RecordedThrough(run, n, sofar, lists, box) && lists[0] == first.tools && lists[n] == before.tools;
    assert ms == sofar + [next.messages[k + 2 * n], next.messages[k + 2 * n + 1]];
    RecordedOneMore(run, n, sofar, next.messages[k + 2 * n], next.messages[k + 2 * n + 1], lists, next.tools, box);
  }

  lemma RecordedOneMore(run: Run, n: nat, ms: seq<Message>, said: Message, next: Message, lists: seq<Tools>, after: Tools,
                        box: Toolbox)
    requires RecordedThrough(run, n, ms, lists, box)
    requires ExchangeRecorded(run(n), said, next, lists[n], after, box, n)
    ensures Recorded(run, n + 1, ms + [said, next], lists[0], after, box)
  {
    assert RecordedThrough(run, n + 1, ms + [said, next], lists + [after], box);
  }

  /** What a piece is of every exchange, in order. */
  function Pieces(piece: Seen -> string, run: Run, n: nat): (pieces: seq<string>)
    ensures |pieces| == n && forall i :: 0 <= i < n ==> pieces[i] == piece(run(i))
  {
    seq(n, (i: nat) => piece(run(i)))
  }

  lemma {:induction false} JoinedPieces(piece: Seen -> string, run: Run, n: nat)
    ensures Joined(Pieces(piece, run, n)) == AddedUp(piece, run, n)
  {
    if n > 0 {
      JoinedPieces(piece, run, n - 1);
      assert Pieces(piece, run, n)[..n - 1] == Pieces(piece, run, n - 1);
    }
  }

  lemma PiecesTell(run: Run, n: nat)
    ensures Told(run, n, Pieces(AnswerPiece, run, n), Pieces(SentPiece, run, n))
  {
    forall k | 0 <= k < n
      ensures Says(run(k), AnswerPiece(run(k)))
      ensures SentPiece(run(k)) == run(k).delivered + if run(k).streamed then "" else AnswerPiece(run(k))
    {
      OneTold(run(k));
    }
  }

  lemma OneTold(s: Seen)
    ensures Says(s, AnswerPiece(s))
    ensures SentPiece(s) == s.delivered + if s.streamed then "" else AnswerPiece(s)
  {
    assert s.delivered + "" == s.delivered;
    if s.reply.Ok? { CallsFound(s.reply.value.content); }
  }

  lemma {:induction false} NothingSent(step: Step, run: Run, n: nat, first: State)
    requires forall s, st :: step(s, st).sent == st.sent
    ensures StateAt(step, run, n, first).sent == first.sent
  {
    if n > 0 { NothingSent(step, run, n - 1, first); }
  }

  lemma {:induction false} StateAnswer(step: Step, run: Run, n: nat, first: State)
    requires forall s, st :: step(s, st).answer == st.answer + AnswerPiece(s)
    requires first.answer == ""
    ensures StateAt(step, run, n, first).answer == Joined(Pieces(AnswerPiece, run, n))
  {
    StateAddsUp(step, run, n, first, (st: State) => st.answer, AnswerPiece);
    JoinedPieces(AnswerPiece, run, n);
  }

  lemma {:induction false} StateSent(step: Step, run: Run, n: nat, first: State)
    requires forall s, st :: step(s, st).sent == st.sent + SentPiece(s)
    requires first.sent == ""
    ensures StateAt(step, run, n, first).sent == Joined(Pieces(SentPiece, run, n))
  {
    StateAddsUp(step, run, n, first, (st: State) => st.sent, SentPiece);
    JoinedPieces(SentPiece, run, n);
  }

  lemma SentIsJoined(step: Step, run: Run, n: nat, first: State, box: Toolbox, listening: bool)
    requires Implements(step, box, listening) && first.sent == ""
    ensures StateAt(step, run, n, first).sent == if listening then Joined(Pieces(SentPiece, run, n)) else ""
  {
    forall s, st
      ensures step(s, st).sent == if listening then st.sent + SentPiece(s) else st.sent
    {
      assert step(s, st) == After(s, box, listening, st);
    }
    if listening {
      StateSent(step, run, n, first);
    } else {
      NothingSent(step, run, n, first);
    }
  }

  lemma AnswerIsJoined(step: Step, run: Run, n: nat, first: State, box: Toolbox, listening: bool)
    requires Implements(step, box, listening) && first.answer == ""
    ensures StateAt(step, run, n, first).answer == Joined(Pieces(AnswerPiece, run, n))
  {
    forall s, st
      ensures step(s, st).answer == st.answer + AnswerPiece(s)
    {
      assert step(s, st) == After(s, box, listening, st);
    }
    StateAnswer(step, run, n, first);
  }

  lemma EndingIs(last: Seen, st: State, w: Wording)
    requires st.verdict == VerdictOf(last)
    ensures EndsWith(last, st.answer, Ending(st, w), w)
  {
    VerdictMeans(last);
  }

  /** What is kept and sent, from the exchanges. */
  lemma TurnSpoken(step: Step, run: Run, n: nat, first: State, st: State, box: Toolbox, listening: bool,
                   result: Result<string>, sent: string)
    requires Implements(step, box, listening) && first.sent == "" && first.answer == ""
    requires n >= 1 && st == StateAt(step, run, n, first) && st.verdict == VerdictOf(run(n - 1))
    requires result.Ok? ==> result.value == st.answer + Ending(st, box.wording)
    requires sent == if listening && result.Ok? then st.sent + Ending(st, box.wording) else st.sent
    ensures Spoken(run, n, result, sent, listening, box.wording)
  {
    AnswerIsJoined(step, run, n, first, box, listening);
    SentIsJoined(step, run, n, first, box, listening);
    PiecesTell(run, n);
    EndingIs(run(n - 1), st, box.wording);
    assert SpokenAs(run, n, Pieces(AnswerPiece, run, n), Pieces(SentPiece, run, n), Ending(st, box.wording),
                    result, sent, listening, box.wording);
  }

  lemma {:induction false} OnwardAsks(run: Run, n: nat)
    requires AllOnward(run, n)
    ensures forall k :: 0 <= k < n ==> AsksOn(run(k))
  {
    if n > 0 {
      VerdictMeans(run(n - 1));
      OnwardAsks(run, n - 1);
    }
  }

  lemma TurnConducted(run: Run, n: nat, st: State, result: Result<string>)
    requires 1 <= n <= MAX_ITERATIONS && AllOnward(run, n - 1) && st.verdict == VerdictOf(run(n - 1))
    requires n < MAX_ITERATIONS ==> !st.verdict.Onward?
    requires if st.verdict.Failed? then result == Err(st.verdict.error) else result.Ok?
    ensures Conducted(run, n, result)
  {
    OnwardAsks(run, n - 1);
    VerdictMeans(run(n - 1));
  }

  /** How many rounds the turn added: one for every exchange that asked to go on. */
  ghost function Rounds(run: Run, n: nat): nat
    requires n >= 1
  {
    if AsksOn(run(n - 1)) then n else n - 1
  }

  lemma TurnRecorded(step: Step, run: Run, n: nat, first: State, st: State, box: Toolbox, listening: bool)
    requires Implements(step, box, listening) && first.turns == 0
    requires n >= 1 && st == StateAt(step, run, n, first) && AllOnward(run, n - 1)
    ensures first.messages <= st.messages
    ensures Recorded(run, Rounds(run, n), st.messages[|first.messages|..], first.tools, st.tools, box)
  {
    VerdictMeans(run(n - 1));
    if AsksOn(run(n - 1)) {
      StepExtends(step, box, listening);
      StateRecorded(step, run, n, first, box);
    } else {
      RecordedButLast(step, run, n - 1, first, st, box, listening);
    }
  }

  lemma RecordedButLast(step: Step, run: Run, n: nat, first: State, st: State, box: Toolbox, listening: bool)
    requires Implements(step, box, listening) && first.turns == 0
    requires st == step(run(n), StateAt(step, run, n, first)) && AllOnward(run, n) && !VerdictOf(run(n)).Onward?
    ensures first.messages <= st.messages
    ensures Recorded(run, n, st.messages[|first.messages|..], first.tools, st.tools, box)
  {
    var before := StateAt(step, run, n, first);
    StepExtends(step, box, listening);
    StateRecorded(step, run, n, first, box);
    LastAddsNothing(step, run(n), before, box, listening);
    SameRounds(run, n, first, before, st, box);
  }

  lemma SameRounds(run: Run, n: nat, first: State, before: State, st: State, box: Toolbox)
    requires HoldsRounds(run, n, first, before, box) && st.messages == before.messages && st.tools == before.tools
    ensures first.messages <= st.messages
    ensures Recorded(run, n, st.messages[|first.messages|..], first.tools, st.tools, box)
  {
  }

  lemma StepExtends(step: Step, box: Toolbox, listening: bool)
    requires Implements(step, box, listening)
    ensures forall s, st :: VerdictOf(s).Onward? ==> Extends(s, st, step(s, st), box)
  {
    forall s, st | VerdictOf(s).Onward?
      ensures Extends(s, st, step(s, st), box)
    {
      assert step(s, st) == After(s, box, listening, st);
      OnwardExtends(s, st, box, listening);
    }
  }

  lemma LastAddsNothing(step: Step, s: Seen, before: State, box: Toolbox, listening: bool)
    requires Implements(step, box, listening) && !VerdictOf(s).Onward?
    ensures step(s, before).messages == before.messages && step(s, before).tools == before.tools
  {
    assert step(s, before) == After(s, box, listening, before);
    OtherwiseUnchanged(s, before, box, listening);
  }

  /**
   The whole turn, told from its exchanges: which were made, what was said and
   sent, and what the conversation and the tool list have become.
   */
  ghost predicate Describes(run: Run, n: nat, result: Result<string>, sent: string, listening: bool, box: Toolbox,
                            first: State, messages: seq<Message>, tools: Tools) {
    && Conducted(run, n, result) && Spoken(run, n, result, sent, listening, box.wording)
    && first.messages <= messages
    && Recorded(run, Rounds(run, n), messages[|first.messages|..], first.tools, tools, box)
  }

  lemma TurnDescribed(step: Step, run: Run, n: nat, first: State, st: State, box: Toolbox, listening: bool,
                      result: Result<string>, sent: string)
    requires Implements(step, box, listening)
    requires first.turns == 0 && first.sent == "" && first.answer == ""
    requires 1 <= n <= MAX_ITERATIONS && st == StateAt(step, run, n, first) && KeptGoing(step, run, n - 1, first)
    requires n < MAX_ITERATIONS ==> !st.verdict.Onward?
    requires result == if st.verdict.Failed? then Err(st.verdict.error) else Ok(st.answer + Ending(st, box.wording))
    requires sent == if listening && result.Ok? then st.sent + Ending(st, box.wording) else st.sent
    ensures Describes(run, n, result, sent, listening, box, first, st.messages, st.tools)
  {
    forall s, st
      ensures step(s, st).verdict == VerdictOf(s)
    {
      assert step(s, st) == After(s, box, listening, st);
    }
    KeptGoingMeansOnward(step, run, n - 1, first);
    TurnConducted(run, n, st, result);
    TurnSpoken(step, run, n, first, st, box, listening, result, sent);
    TurnRecorded(step, run, n, first, st, box, listening);
  }

  // ------------------------------------------------------------- the chat turn

  /** In the first n exchanges, whatever was streamed was its response's text. */
  ghost predicate AllInOrder(run: Run, n: nat) {
    forall i :: 0 <= i < n ==> InOrder(run(i))
  }

  /** What the turn returns is what it sent, unless something leaked. */
  lemma KeptUnlessLeaked(exchanges: nat -> Exchange, run: Run, n: nat, box: Toolbox, listening: bool,
                         start: seq<Tool>, ms: seq<Message>, st: State)
    requires listening && Watches(run, exchanges) && AllReplied(run, n) && AllInOrder(run, n)
    requires st == StateAt(StepOf(box, listening), run, n, FirstState(start, ms))
    ensures st.answer + Ending(st, box.wording) == st.sent + Ending(st, box.wording) <==> Leaked(run, n) == ""
  {
    AllPossible(exchanges, run);
    KeptIsSent(run, n, box, start, ms);
  }

  lemma AllPossible(exchanges: nat -> Exchange, run: Run)
    requires Watches(run, exchanges)
    ensures forall i :: Possible(run(i))
  {
  }

  lemma ToolsOfTheTurn(run: Run, n: nat, box: Toolbox, listening: bool, start: seq<Tool>, ms: seq<Message>)
    requires DistinctNames(start)
    ensures forall catalogue :: WithinLimits(box.grant, catalogue) ==>
              ValidTools(StateAt(StepOf(box, listening), run, n, FirstState(start, ms)).tools, start, catalogue)
  {
    forall catalogue | WithinLimits(box.grant, catalogue)
      ensures ValidTools(StateAt(StepOf(box, listening), run, n, FirstState(start, ms)).tools, start, catalogue)
    {
      ToolsStayValid(run, n, box, listening, start, ms, catalogue);
    }
  }

  /** The error the loop stopped at, or the answer with what the turn adds to it. */
  method Close(st: State, w: Wording, listening: bool) returns (result: Result<string>, sent: string)
    ensures result == if st.verdict.Failed? then Err(st.verdict.error) else Ok(st.answer + Ending(st, w))
    ensures sent == if listening && result.Ok? then st.sent + Ending(st, w) else st.sent
  {
    sent := st.sent;
    if st.verdict.Failed? {
      return Err(st.verdict.error), sent;
    }
    var ending := Ending(st, w);
    if listening { sent := sent + ending; }
    result := Ok(st.answer + ending);
  }

  method Conclude(exchanges: nat -> Exchange, box: Toolbox, listening: bool, first: State, ghost step: Step,
                  ghost run: Run) returns (result: Result<string>, sent: string, st: State)
    requires first.turns == 0 && first.verdict.Onward? && first.sent == "" && first.answer == ""
    requires Implements(step, box, listening) && Watches(run, exchanges)
    requires forall s, st :: step(s, st).verdict == VerdictOf(s)
    ensures 1 <= st.turns <= MAX_ITERATIONS && st == StateAt(step, run, st.turns, first)
    ensures KeptGoing(step, run, st.turns - 1, first)
    ensures st.turns < MAX_ITERATIONS ==> !st.verdict.Onward?
    ensures result == if st.verdict.Failed? then Err(st.verdict.error) else Ok(st.answer + Ending(st, box.wording))
    ensures sent == if listening && result.Ok? then st.sent + Ending(st, box.wording) else st.sent
    ensures result.Ok? ==> AllReplied(run, st.turns)
    ensures Describes(run, st.turns, result, sent, listening, box, first, st.messages, st.tools)
  {
    st := Converse(exchanges, box, listening, first, step, run);
    result, sent := Close(st, box.wording, listening);
    TurnDescribed(step, run, st.turns, first, st, box, listening, result, sent);
  }

  /** One chat turn against an endpoint that may do anything in each exchange. */
  method Turns(exchanges: nat -> Exchange, box: Toolbox, start: seq<Tool>, messages0: seq<Message>, listening: bool)
    returns (result: Result<string>, sent: string, st: State)
    ensures 1 <= st.turns <= MAX_ITERATIONS
    ensures st == StateAt(StepOf(box, listening), Observed(exchanges), st.turns, FirstState(start, messages0))
    ensures KeptGoing(StepOf(box, listening), Observed(exchanges), st.turns - 1, FirstState(start, messages0))
    ensures st.turns < MAX_ITERATIONS ==> !st.verdict.Onward?
    ensures result == if st.verdict.Failed? then Err(st.verdict.error) else Ok(st.answer + Ending(st, box.wording))
    ensures sent == if listening && result.Ok? then st.sent + Ending(st, box.wording) else st.sent
    ensures result.Ok? ==> AllReplied(Observed(exchanges), st.turns)
    ensures Describes(Observed(exchanges), st.turns, result, sent, listening, box, FirstState(start, messages0),
                      st.messages, st.tools)
  {
    ObservedWatches(exchanges);
    result, sent, st := Conclude(exchanges, box, listening, FirstState(start, messages0), StepOf(box, listening),
                                 Observed(exchanges));
  }

  /**
   The same turn, with what holds however it went: one to nine exchanges, a
   conversation that grew by whole rounds, a tool list that kept to its
   limits, and, without an error, a returned answer that is what the user was
   sent exactly when no tool-calling response let text through.
   */
  method RunChat(exchanges: nat -> Exchange, box: Toolbox, start: seq<Tool>, messages0: seq<Message>, listening: bool)
    returns (result: Result<string>, sent: string, st: State)
    ensures 1 <= st.turns <= MAX_ITERATIONS && (st.turns < MAX_ITERATIONS ==> !st.verdict.Onward?)
    ensures st == StateAt(StepOf(box, listening), Observed(exchanges), st.turns, FirstState(start, messages0))
    ensures KeptGoing(StepOf(box, listening), Observed(exchanges), st.turns - 1, FirstState(start, messages0))
    ensures result == if st.verdict.Failed? then Err(st.verdict.error) else Ok(st.answer + Ending(st, box.wording))
    ensures sent == if listening && result.Ok? then st.sent + Ending(st, box.wording) else st.sent
    ensures messages0 <= st.messages && IsDialogue(st.messages[|messages0|..], box)
    ensures DistinctNames(start) ==>
              forall catalogue :: WithinLimits(box.grant, catalogue) ==> ValidTools(st.tools, start, catalogue)
    ensures listening && result.Ok? && AllInOrder(Observed(exchanges), st.turns) ==>
              (result.value == sent <==> Leaked(Observed(exchanges), st.turns) == "")
    ensures Describes(Observed(exchanges), st.turns, result, sent, listening, box, FirstState(start, messages0),
                      st.messages, st.tools)
  {
    ObservedWatches(exchanges);
    result, sent, st := Turns(exchanges, box, start, messages0, listening);
    ConversationIsDialogue(Observed(exchanges), st.turns, box, listening, start, messages0);
    if DistinctNames(start) {
      ToolsOfTheTurn(Observed(exchanges), st.turns, box, listening, start, messages0);
    }
    if listening && result.Ok? && AllInOrder(Observed(exchanges), st.turns) {
      KeptUnlessLeaked(exchanges, Observed(exchanges), st.turns, box, listening, start, messages0, st);
    }
  }

  lemma {:induction false} LeakShows(run: Run, n: nat, i: nat)
    requires i < n && LeakedPiece(run(i)) != ""
    ensures Leaked(run, n) != ""
  {
    if i < n - 1 { LeakShows(run, n - 1, i); }
  }

  lemma NoneFatal(events: seq<Event>)
    requires forall k :: 0 <= k < |events| ==> !IsFatal(events[k])
    ensures ReadUntil(events) == |events| && events[..|events|] == events
  {
  }

  lemma TextOfTextThenCall(text: string)
    ensures TextOf([Text(text), ToolUse("call", "spending", "{}")]) == text
    ensures ToolUsesOf([Text(text), ToolUse("call", "spending", "{}")]) != []
  {
    var content := [Text(text), ToolUse("call", "spending", "{}")];
    assert content[..1] == [Text(text)] && content[..1][..0] == [];
    assert TextOf(content[..1]) == text;
  }

  /** What a response that talks before it calls a tool looks like to the loop. */
  lemma TalkingCallIsSeen(text: string, plain: Result<Response>)
    ensures var s := SeenOf(Exchange(false, TextThenCall(text), false, plain));
            CallsTools(s) && InOrder(s) && s.delivered == text && LeakedPiece(s) == text && AnswerPiece(s) == ""
  {
    var events, content := TextThenCall(text), [Text(text), ToolUse("call", "spending", "{}")];
    TextThenCallCarries(text);
    TextThenCallRebuilt(text);
    TextOfTextThenCall(text);
    NoneFatal(events);
    ShownEqualsText(events, [Text(text), ToolUse("call", "spending", "")]);
  }

  /**
   A model that says anything at all before it calls a tool leaves the user
   with text the turn does not keep, whatever comes after.
   */
  lemma TalkingBeforeACallLeaks(exchanges: nat -> Exchange, n: nat, i: nat, text: string, plain: Result<Response>)
    requires i < n && text != "" && exchanges(i) == Exchange(false, TextThenCall(text), false, plain)
    ensures Leaked(Observed(exchanges), n) != ""
  {
    TalkingCallIsSeen(text, plain);
    LeakShows(Observed(exchanges), n, i);
  }

  /** The streams must be in order for that: blocks that take turns deliver something else than their response's text. */
  lemma TakingTurnsIsNotInOrder(plain: Result<Response>)
    ensures !InOrder(SeenOf(Exchange(false, TakingTurns(), false, plain)))
  {
    InterleavedTextDiffers();
    DifferentOrders();
    TakingTurnsEvents();
    NoneFatal(TakingTurns());
  }
}
