/** One streamed model response: events are folded into text, thinking and tool calls, with fallbacks to a
    plain chat call.

    The provider, the clock and the cancellation of the context are inputs: each round of the loop sees a Tick,
    and after the last tick the stream ends.  The chat call of the fallbacks and the parser for tool calls in
    plain text are inputs as well. */
module StreamAssembly {
  import opened Text
  import opened Provider

  datatype Event =
    | TextDelta(text: string)
    | ThinkingDelta(thought: string)
    | ToolCallDelta(call: ToolCall)
    | EmptyToolCallDelta
    | Done(finishReason: string)

  datatype Outcome =
    | Next(event: Event)
    | ReadError(finishReason: string)
    | Stalled
    | Cancelled

  /** `overdue` says that the watchdog's time without text or tool calls has passed. */
  datatype Tick = Tick(overdue: bool, outcome: Outcome)

  datatype ChatResult = ChatOk(response: Response) | ChatError

  datatype StreamResult = Got(response: Response, chunks: seq<string>, fellBack: bool) | Failed

  type Parser = string -> seq<ToolCall>

  // ---------- The accumulator ----------

  datatype Acc = Acc(
    content: string, thinking: string, chunks: seq<string>, inThink: bool, finishReason: string,
    toolCalls: seq<ToolCall>)

  const EMPTY := Acc("", "", [], false, "", [])

  const THINK_OPEN: string := "<think>"
  const THINK_CLOSE: string := "</think>"

  function FeedText(acc: Acc, text: string): Acc {
    if !acc.inThink && THINK_OPEN <= Trim(acc.content + text) then
      acc.(inThink := true, thinking := acc.thinking + text)
    else if acc.inThink then
      var idx := Index(text, THINK_CLOSE);
      var a := acc.(thinking := acc.thinking + text);
      if idx < 0 then a
      else
        var rest := text[idx + |THINK_CLOSE|..];
        if Trim(rest) == "" then a.(inThink := false)
        else a.(inThink := false, content := a.content + rest, chunks := a.chunks + [rest])
    else acc.(content := acc.content + text, chunks := acc.chunks + [text])
  }

  function FeedToolCall(calls: seq<ToolCall>, tc: ToolCall): seq<ToolCall> {
    if tc.id != "" then calls + [tc]
    else if calls == [] then calls
    else
      var last := calls[|calls| - 1];
      calls[..|calls| - 1]
      + [ToolCall(last.id, if tc.name != "" then tc.name else last.name, last.arguments + tc.arguments)]
  }

  function Feed(acc: Acc, ev: Event): Acc {
    match ev
    case TextDelta(text) => FeedText(acc, text)
    case ThinkingDelta(thought) => acc.(thinking := acc.thinking + thought)
    case ToolCallDelta(tc) => acc.(toolCalls := FeedToolCall(acc.toolCalls, tc))
    case EmptyToolCallDelta => acc
    case Done(reason) => acc.(finishReason := reason)
  }

  /** How the loop ends. */
  datatype LoopEnd = Finished(acc: Acc) | Aborted

  function Loop(acc: Acc, ticks: seq<Tick>): LoopEnd
    decreases |ticks|
  {
    if ticks == [] then Finished(acc)
    else if ticks[0].overdue && acc.thinking != "" then Aborted
    else
      match ticks[0].outcome
      case Cancelled => Aborted
      case Stalled => Finished(acc)
      case ReadError(reason) => Finished(if reason != "" then acc.(finishReason := reason) else acc)
      case Next(ev) => Loop(Feed(acc, ev), ticks[1..])
  }

  predicate Nothing(acc: Acc) {
    acc.content == "" && acc.thinking == "" && acc.toolCalls == []
  }

  function ChatFallback(chat: ChatResult): StreamResult {
    match chat
    case ChatError => Failed
    case ChatOk(r) => Got(r, if r.content != "" then [r.content] else [], true)
  }

  /** A response without tool calls whose text parses as tool calls becomes those calls. */
  function ContentFallback(r: Response, chunks: seq<string>, parser: Parser): StreamResult {
    if r.toolCalls != [] || Trim(r.content) == "" || parser(r.content) == [] then Got(r, chunks, false)
    else Got(r.(toolCalls := parser(r.content), content := ""), [], false)
  }

  /** `streamOpened` is false when the stream could not be opened. */
  function StreamFinal(streamOpened: bool, ticks: seq<Tick>, chat: ChatResult, parser: Parser): StreamResult {
    if !streamOpened then ChatFallback(chat)
    else
      match Loop(EMPTY, ticks)
      case Aborted => Failed
      case Finished(acc) =>
        if Nothing(acc) then ChatFallback(chat)
        else
          ContentFallback(
            Response(acc.content, acc.thinking, acc.toolCalls, acc.finishReason in {"length", "max_tokens"}, false),
            acc.chunks, parser)
  }

  // ---------- The loop ----------

  method StreamFinalResponse(streamOpened: bool, ticks: seq<Tick>, chat: ChatResult, parser: Parser)
    returns (r: StreamResult)
    ensures r == StreamFinal(streamOpened, ticks, chat, parser)
  {
    if !streamOpened {
      return ChatFallback(chat);
    }
    var acc := EMPTY;
    var i := 0;
    while i < |ticks|
      invariant i <= |ticks| && Loop(acc, ticks[i..]) == Loop(EMPTY, ticks)
    {
      var rest := ticks[i..];
      assert rest[0] == ticks[i] && rest[1..] == ticks[i + 1..];
      if ticks[i].overdue && acc.thinking != "" {
        return Failed;
      }
      match ticks[i].outcome
      case Cancelled =>
        return Failed;
      case Stalled =>
        if Nothing(acc) {
          return ChatFallback(chat);
        }
        break;
      case ReadError(reason) =>
        if reason != "" {
          acc := acc.(finishReason := reason);
        }
        i := |ticks|;
        assert ticks[i..] == [];
        break;
      case Next(ev) =>
        acc := Feed(acc, ev);
        i := i + 1;
    }
    assert Loop(EMPTY, ticks) == Finished(acc);
    if Nothing(acc) {
      return ChatFallback(chat);
    }
    var truncated := acc.finishReason == "length" || acc.finishReason == "max_tokens";
    r := ContentFallback(Response(acc.content, acc.thinking, acc.toolCalls, truncated, false), acc.chunks, parser);
  }

  // ---------- What the user is shown is the content ----------

  lemma FeedKeepsChunks(acc: Acc, ev: Event)
    requires Flatten(acc.chunks) == acc.content
    ensures Flatten(Feed(acc, ev).chunks) == Feed(acc, ev).content
  {
    match ev {
      case TextDelta(text) =>
        FlattenSnoc(acc.chunks, text);
        var idx := Index(text, THINK_CLOSE);
        if idx >= 0 {
          FlattenSnoc(acc.chunks, text[idx + |THINK_CLOSE|..]);
        }
      case _ =>
    }
  }

  lemma {:induction false} LoopKeepsChunks(acc: Acc, ticks: seq<Tick>)
    requires Flatten(acc.chunks) == acc.content
    ensures Loop(acc, ticks).Finished? ==>
              Flatten(Loop(acc, ticks).acc.chunks) == Loop(acc, ticks).acc.content
    decreases |ticks|
  {
    hide Feed, Flatten;
    if ticks != [] && ticks[0].outcome.Next? {
      FeedKeepsChunks(acc, ticks[0].outcome.event);
      LoopKeepsChunks(Feed(acc, ticks[0].outcome.event), ticks[1..]);
    }
  }

  /** On every return without an error, whatever the provider streams and on every fallback, the chunks shown
      to the user add up to the content of the response. */
  lemma ChunksAreContent(streamOpened: bool, ticks: seq<Tick>, chat: ChatResult, parser: Parser)
    ensures var r := StreamFinal(streamOpened, ticks, chat, parser);
            r.Got? ==> Flatten(r.chunks) == r.response.content
  {
    assert Flatten([]) == "";
    LoopKeepsChunks(EMPTY, ticks);
    if chat.ChatOk? {
      FlattenSnoc([], chat.response.content);
      ConcatNil([chat.response.content]);
      ConcatNil(chat.response.content);
    }
  }

  // ---------- Reassembly of tool calls ----------

  function Arguments(deltas: seq<ToolCall>): string {
    if deltas == [] then "" else Arguments(deltas[..|deltas| - 1]) + deltas[|deltas| - 1].arguments
  }

  /** The last name that was sent. */
  function LastName(deltas: seq<ToolCall>): string {
    if deltas == [] then ""
    else if deltas[|deltas| - 1].name != "" then deltas[|deltas| - 1].name
    else LastName(deltas[..|deltas| - 1])
  }

  /** `deltas` is `call`, cut into a head that carries the ID and any number of continuations without one. */
  predicate IsCutOf(call: ToolCall, deltas: seq<ToolCall>) {
    && call.id != "" && deltas != [] && deltas[0].id == call.id
    && (forall k :: 1 <= k < |deltas| ==> deltas[k].id == "")
    && Arguments(deltas) == call.arguments && LastName(deltas) == call.name
  }

  predicate AreCutsOf(calls: seq<ToolCall>, cuts: seq<seq<ToolCall>>) {
    |cuts| == |calls| && forall i :: 0 <= i < |calls| ==> IsCutOf(calls[i], cuts[i])
  }

  function FeedAll(calls: seq<ToolCall>, deltas: seq<ToolCall>): seq<ToolCall> {
    if deltas == [] then calls else FeedToolCall(FeedAll(calls, deltas[..|deltas| - 1]), deltas[|deltas| - 1])
  }

  lemma {:induction false} FeedAllConcat(calls: seq<ToolCall>, a: seq<ToolCall>, b: seq<ToolCall>)
    ensures FeedAll(calls, a + b) == FeedAll(FeedAll(calls, a), b)
  {
    hide FeedToolCall;
    if b == [] {
      ConcatNil(a);
    } else {
      FeedAllConcat(calls, a, b[..|b| - 1]);
      ConcatAssoc(a, b[..|b| - 1], [b[|b| - 1]]);
      InitLast(b);
      SnocInit(a + b[..|b| - 1], b[|b| - 1]);
    }
  }

  /** A head starts a new call and its continuations complete it. */
  lemma {:induction false} FeedCut(calls: seq<ToolCall>, deltas: seq<ToolCall>)
    requires deltas != [] && deltas[0].id != "" && forall k :: 1 <= k < |deltas| ==> deltas[k].id == ""
    ensures FeedAll(calls, deltas) == calls + [ToolCall(deltas[0].id, LastName(deltas), Arguments(deltas))]
  {
    var n := |deltas| - 1;
    if n == 0 {
      assert deltas[..0] == [];
      ConcatNil(deltas[0].arguments);
    } else {
      FeedCut(calls, deltas[..n]);
      SnocInit(calls, ToolCall(deltas[0].id, LastName(deltas[..n]), Arguments(deltas[..n])));
    }
  }

  /** Feeding the cuts of some calls one after another rebuilds the calls. */
  lemma {:induction false} FeedCuts(before: seq<ToolCall>, calls: seq<ToolCall>, cuts: seq<seq<ToolCall>>)
    requires AreCutsOf(calls, cuts)
    ensures FeedAll(before, Flatten(cuts)) == before + calls
  {
    if calls == [] {
      ConcatNil(before);
    } else {
      var n := |calls| - 1;
      FeedCuts(before, calls[..n], cuts[..n]);
      FeedAllConcat(before, Flatten(cuts[..n]), cuts[n]);
      assert IsCutOf(calls[n], cuts[n]);
      FeedCut(before + calls[..n], cuts[n]);
      InitLast(calls);
      ConcatAssoc(before, calls[..n], [calls[n]]);
    }
  }

  /** Continuations before any head are dropped. */
  lemma {:induction false} FeedOrphans(deltas: seq<ToolCall>)
    requires forall k :: 0 <= k < |deltas| ==> deltas[k].id == ""
    ensures FeedAll([], deltas) == []
  {
    if deltas != [] {
      FeedOrphans(deltas[..|deltas| - 1]);
    }
  }

  /** The tool call deltas of the events the loop consumes, in order. */
  function Deltas(ticks: seq<Tick>): seq<ToolCall> {
    if ticks == [] || !ticks[0].outcome.Next? then []
    else
      (if ticks[0].outcome.event.ToolCallDelta? then [ticks[0].outcome.event.call] else [])
      + Deltas(ticks[1..])
  }

  lemma {:induction false} LoopFeedsDeltas(acc: Acc, ticks: seq<Tick>)
    ensures Loop(acc, ticks).Finished? ==>
              Loop(acc, ticks).acc.toolCalls == FeedAll(acc.toolCalls, Deltas(ticks))
    decreases |ticks|
  {
    hide FeedToolCall, Trim, Index;
    if ticks != [] && ticks[0].outcome.Next? {
      var ev := ticks[0].outcome.event;
      LoopFeedsDeltas(Feed(acc, ev), ticks[1..]);
      if ev.ToolCallDelta? {
        FeedAllConcat(acc.toolCalls, [ev.call], Deltas(ticks[1..]));
        FeedOne(acc.toolCalls, ev.call);
      } else {
        ConcatNil(Deltas(ticks[1..]));
      }
    }
  }

  lemma FeedOne(calls: seq<ToolCall>, tc: ToolCall)
    ensures FeedAll(calls, [tc]) == FeedToolCall(calls, tc)
  {
    assert [tc][..0] == [];
  }

  /** Whatever text, thinking and end-of-stream events are interleaved, and whatever continuations without a
      head precede them, tool calls that were cut into a head and continuations come out as they were. */
  lemma ToolCallsAreRebuilt(
    ticks: seq<Tick>, chat: ChatResult, parser: Parser,
    orphans: seq<ToolCall>, calls: seq<ToolCall>, cuts: seq<seq<ToolCall>>)
    requires Deltas(ticks) == orphans + Flatten(cuts)
    requires (forall k :: 0 <= k < |orphans| ==> orphans[k].id == "") && AreCutsOf(calls, cuts)
    requires calls != [] && Loop(EMPTY, ticks).Finished?
    ensures var r := StreamFinal(true, ticks, chat, parser);
            r.Got? && !r.fellBack && r.response.toolCalls == calls
  {
    LoopFeedsDeltas(EMPTY, ticks);
    FeedAllConcat([], orphans, Flatten(cuts));
    FeedOrphans(orphans);
    FeedCuts([], calls, cuts);
    ConcatNil(calls);
  }
}
