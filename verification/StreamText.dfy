/** What a streamed response says, told from the deltas that were consumed: the text, the chunks and the thinking of a
    stream without a think tag, and where the text of a stream with one resumes. */
module StreamText {
  import opened Text
  import opened Provider
  import opened StreamAssembly

  // ---------- The events that are consumed ----------

  /** The events up to the end of the stream, a read error or a stall. */
  function Consumed(ticks: seq<Tick>): seq<Event> {
    if ticks == [] || !ticks[0].outcome.Next? then [] else [ticks[0].outcome.event] + Consumed(ticks[1..])
  }

  function TextDeltas(evs: seq<Event>): seq<string> {
    if evs == [] then []
    else (if evs[0].TextDelta? then [evs[0].text] else []) + TextDeltas(evs[1..])
  }

  function ThoughtDeltas(evs: seq<Event>): seq<string> {
    if evs == [] then []
    else (if evs[0].ThinkingDelta? then [evs[0].thought] else []) + ThoughtDeltas(evs[1..])
  }

  /** Text and thinking alike. */
  function Words(evs: seq<Event>): string {
    if evs == [] then ""
    else
      (match evs[0]
       case TextDelta(text) => text
       case ThinkingDelta(thought) => thought
       case _ => "")
      + Words(evs[1..])
  }

  /** The reason of the last end-of-stream event, or of the read error that ends the stream, if it names one. */
  function LastReason(before: string, ticks: seq<Tick>): string
    decreases |ticks|
  {
    if ticks == [] then before
    else
      match ticks[0].outcome
      case Next(ev) => LastReason(if ev.Done? then ev.finishReason else before, ticks[1..])
      case ReadError(reason) => if reason != "" then reason else before
      case _ => before
  }

  /** Behind blanks, the text begins with a think tag. */
  predicate StartsThinking(text: string) {
    "<think>" <= Trim(text)
  }

  // ---------- Folding the events ----------

  function FeedEvents(acc: Acc, evs: seq<Event>): Acc
    decreases |evs|
  {
    if evs == [] then acc else FeedEvents(Feed(acc, evs[0]), evs[1..])
  }

  lemma {:induction false} LoopFeedsEvents(acc: Acc, ticks: seq<Tick>)
    requires Loop(acc, ticks).Finished?
    ensures var end, fed := Loop(acc, ticks).acc, FeedEvents(acc, Consumed(ticks));
            end == fed.(finishReason := end.finishReason)
    ensures Loop(acc, ticks).acc.finishReason == LastReason(acc.finishReason, ticks)
    decreases |ticks|
  {
    hide Trim, Index, FeedToolCall;
    if ticks != [] && ticks[0].outcome.Next? {
      var ev := ticks[0].outcome.event;
      LoopFeedsEvents(Feed(acc, ev), ticks[1..]);
      assert Consumed(ticks)[0] == ev && Consumed(ticks)[1..] == Consumed(ticks[1..]);
    }
  }

  lemma {:induction false} FeedEventsConcat(acc: Acc, a: seq<Event>, b: seq<Event>)
    ensures FeedEvents(acc, a + b) == FeedEvents(FeedEvents(acc, a), b)
    decreases |a|
  {
    hide Feed;
    if a == [] {
      ConcatNil(b);
    } else {
      assert (a + b)[0] == a[0] && (a + b)[1..] == a[1..] + b;
      FeedEventsConcat(Feed(acc, a[0]), a[1..], b);
    }
  }

  // ---------- A text that starts with the tag ----------

  lemma NonBlankIsKept(s: string, i: nat)
    requires i < |s| && !IsSpace(s[i])
    ensures i < |TrimRight(s)|
  {
    hide TrimRight;
    TrimRightIs(s);
    var n := |TrimRight(s)|;
    assert forall k :: n <= k < |s| ==> s[k] == s[n..][k - n] && IsSpace(s[k]);
  }

  lemma StartsThinkingIff(s: string)
    ensures StartsThinking(s) <==> "<think>" <= TrimLeft(s)
  {
    hide TrimLeft, TrimRight;
    var x := TrimLeft(s);
    TrimRightIs(x);
    if "<think>" <= x {
      assert x[6] == '>' && x[..7] == "<think>";
      NonBlankIsKept(x, 6);
      assert TrimRight(x)[..7] == x[..7];
    }
    if StartsThinking(s) {
      assert x[..7] == TrimRight(x)[..7];
    }
  }

  /** A text that starts with the tag still does when more follows. */
  lemma StartsThinkingStays(a: string, b: string)
    requires StartsThinking(a)
    ensures StartsThinking(a + b)
  {
    hide TrimLeft, StartsThinking;
    StartsThinkingIff(a);
    StartsThinkingIff(a + b);
    TrimLeftIs(a);
    var x := TrimLeft(a);
    assert x[0] == '<' && x[0] == a[|a| - |x|];
    TrimLeftKeepsEnd(a, b);
  }

  // ---------- Text outside of thinking ----------

  lemma FlattenCons(x: string, rest: seq<string>)
    ensures Flatten([x] + rest) == x + Flatten(rest)
  {
    FlattenConcat([x], rest);
    assert [x][..0] == [];
    ConcatNil(x);
  }

  /** As long as the text does not start with the tag, it is collected as it comes. */
  lemma {:induction false} PlainEvents(acc: Acc, evs: seq<Event>)
    requires !acc.inThink && !StartsThinking(acc.content + Flatten(TextDeltas(evs)))
    ensures var end := FeedEvents(acc, evs);
            && !end.inThink && end.content == acc.content + Flatten(TextDeltas(evs))
            && end.chunks == acc.chunks + TextDeltas(evs)
            && end.thinking == acc.thinking + Flatten(ThoughtDeltas(evs))
    decreases |evs|
  {
    hide StartsThinking, Index, FeedToolCall, Flatten;
    if evs == [] {
      NothingFlat();
      ConcatNil(acc.content);
      ConcatNil(acc.chunks);
      ConcatNil(acc.thinking);
    } else {
      PlainEvent(acc, evs[0], evs[1..]);
      PlainEvents(Feed(acc, evs[0]), evs[1..]);
    }
  }

  lemma NothingFlat()
    ensures Flatten<char>([]) == ""
  {
  }

  lemma PlainEvent(acc: Acc, ev: Event, rest: seq<Event>)
    requires !acc.inThink && !StartsThinking(acc.content + Flatten(TextDeltas([ev] + rest)))
    ensures var next := Feed(acc, ev);
            && !next.inThink
            && next.content + Flatten(TextDeltas(rest)) == acc.content + Flatten(TextDeltas([ev] + rest))
            && next.chunks + TextDeltas(rest) == acc.chunks + TextDeltas([ev] + rest)
            && next.thinking + Flatten(ThoughtDeltas(rest)) == acc.thinking + Flatten(ThoughtDeltas([ev] + rest))
  {
    hide StartsThinking, Index, FeedToolCall, Flatten;
    var texts, thoughts := TextDeltas(rest), ThoughtDeltas(rest);
    assert ([ev] + rest)[1..] == rest;
    ConcatNil(texts);
    ConcatNil(thoughts);
    match ev
    case TextDelta(text) =>
      FlattenCons(text, texts);
      ConcatAssoc(acc.content, text, Flatten(texts));
      ConcatAssoc(acc.chunks, [text], texts);
      if StartsThinking(acc.content + text) {
        StartsThinkingStays(acc.content + text, Flatten(texts));
      }
      StartsThinkingIs(acc.content + text);
    case ThinkingDelta(thought) =>
      FlattenCons(thought, thoughts);
      ConcatAssoc(acc.thinking, thought, Flatten(thoughts));
    case _ =>
  }

  lemma StartsThinkingIs(s: string)
    ensures StartsThinking(s) <==> THINK_OPEN <= Trim(s)
  {
  }

  // ---------- Thinking in the text ----------

  predicate HasNoClose(evs: seq<Event>) {
    forall i :: 0 <= i < |evs| && evs[i].TextDelta? ==> !Contains(evs[i].text, "</think>")
  }

  /** While no delta holds a closing tag, nothing is added to the text and everything to the thinking. */
  lemma {:induction false} ThinkingEvents(acc: Acc, evs: seq<Event>)
    requires acc.inThink && HasNoClose(evs)
    ensures var end := FeedEvents(acc, evs);
            && end.inThink && end.content == acc.content && end.chunks == acc.chunks
            && end.thinking == acc.thinking + Words(evs)
    decreases |evs|
  {
    hide Feed, Contains, Words;
    if evs == [] {
      NoWords();
      ConcatNil(acc.thinking);
    } else {
      ThinkingEvent(acc, evs[0], evs[1..]);
      assert [evs[0]] + evs[1..] == evs;
      ThinkingEvents(Feed(acc, evs[0]), evs[1..]);
    }
  }

  lemma NoWords()
    ensures Words([]) == ""
  {
  }

  lemma ThinkingEvent(acc: Acc, ev: Event, rest: seq<Event>)
    requires acc.inThink && (ev.TextDelta? ==> !Contains(ev.text, "</think>"))
    ensures var next := Feed(acc, ev);
            && next.inThink && next.content == acc.content && next.chunks == acc.chunks
            && next.thinking + Words(rest) == acc.thinking + Words([ev] + rest)
  {
    hide Index, Contains, FeedToolCall, Trim;
    assert ([ev] + rest)[1..] == rest;
    ConcatNil(Words(rest));
    match ev
    case TextDelta(text) =>
      ConcatAssoc(acc.thinking, text, Words(rest));
    case ThinkingDelta(thought) =>
      ConcatAssoc(acc.thinking, thought, Words(rest));
    case _ =>
  }

  /** What follows the first closing tag, unless it is blank. */
  function AfterClose(text: string): seq<string>
    requires Contains(text, "</think>")
  {
    var rest := text[Index(text, "</think>") + 8..];
    if Trim(rest) == "" then [] else [rest]
  }

  lemma OpeningEvent(acc: Acc, text: string)
    requires !acc.inThink && StartsThinking(acc.content + text)
    ensures Feed(acc, TextDelta(text)) == acc.(inThink := true, thinking := acc.thinking + text)
  {
    hide Trim, Index;
  }

  lemma ClosingEvent(acc: Acc, text: string)
    requires acc.inThink && Contains(text, "</think>")
    ensures var end := Feed(acc, TextDelta(text));
            && !end.inThink && end.content == acc.content + Flatten(AfterClose(text))
            && end.chunks == acc.chunks + AfterClose(text) && end.thinking == acc.thinking + text
  {
    hide Trim, Contains, Flatten, FeedToolCall;
    var rest := text[Index(text, "</think>") + 8..];
    NothingFlat();
    FlattenCons(rest, []);
    ConcatNil(rest);
    ConcatNil([rest]);
    ConcatNil(acc.content);
    ConcatNil(acc.chunks);
  }

  /** The thinking of a stream whose text starts with a think tag, up to its closing tag. */
  function Thoughts(pre: seq<Event>, open: string, mid: seq<Event>): string {
    Flatten(ThoughtDeltas(pre)) + open + Words(mid)
  }

  lemma ThoughtsFrom(before: string, pre: seq<Event>, open: string, mid: seq<Event>)
    ensures before + Flatten(ThoughtDeltas(pre)) + open + Words(mid) == before + Thoughts(pre, open, mid)
  {
    var a := Flatten(ThoughtDeltas(pre));
    ConcatAssoc(before, a, open);
    ConcatAssoc(before, a + open, Words(mid));
  }

  /** Where the text resumes: deltas before the one with which it starts with the tag are kept, that delta and all up to
      the first with a closing tag are not, and of that one only what follows the tag is, unless it is blank. */
  lemma TextResumes(acc: Acc, pre: seq<Event>, open: string, mid: seq<Event>, close: string, rest: seq<Event>)
    requires !acc.inThink && !StartsThinking(acc.content + Flatten(TextDeltas(pre)))
    requires StartsThinking(acc.content + Flatten(TextDeltas(pre)) + open)
    requires HasNoClose(mid) && Contains(close, "</think>")
    ensures var evs := pre + [TextDelta(open)] + mid + [TextDelta(close)] + rest;
            exists next :: && FeedEvents(acc, evs) == FeedEvents(next, rest) && !next.inThink
                           && next.content == acc.content + Flatten(TextDeltas(pre)) + Flatten(AfterClose(close))
                           && next.chunks == acc.chunks + TextDeltas(pre) + AfterClose(close)
                           && next.thinking == acc.thinking + Thoughts(pre, open, mid) + close
  {
    hide StartsThinking, Feed, Flatten, FeedEvents, HasNoClose, AfterClose;
    var one, two, three := pre + [TextDelta(open)], pre + [TextDelta(open)] + mid,
                           pre + [TextDelta(open)] + mid + [TextDelta(close)];
    PlainEvents(acc, pre);
    OpeningEvent(FeedEvents(acc, pre), open);
    FeedEventsConcat(acc, pre, [TextDelta(open)]);
    FeedEventsOne(FeedEvents(acc, pre), TextDelta(open));
    FeedEventsConcat(acc, one, mid);
    ThinkingEvents(FeedEvents(acc, one), mid);
    FeedEventsConcat(acc, two, [TextDelta(close)]);
    FeedEventsOne(FeedEvents(acc, two), TextDelta(close));
    ClosingEvent(FeedEvents(acc, two), close);
    FeedEventsConcat(acc, three, rest);
    var next := FeedEvents(acc, three);
    ThoughtsFrom(acc.thinking, pre, open, mid);
    assert FeedEvents(acc, three + rest) == FeedEvents(next, rest);
  }

  lemma FeedEventsOne(acc: Acc, ev: Event)
    ensures FeedEvents(acc, [ev]) == Feed(acc, ev)
  {
    hide Feed;
    assert [ev][1..] == [];
  }

  // ---------- Streams that are given up ----------

  /** The events brought some thinking, in deltas of its own or behind a think tag. */
  predicate Thought(evs: seq<Event>) {
    Flatten(ThoughtDeltas(evs)) != "" || StartsThinking(Flatten(TextDeltas(evs)))
  }

  predicate AllNext(ticks: seq<Tick>) {
    forall j :: 0 <= j < |ticks| ==> ticks[j].outcome.Next?
  }

  /** At this tick the stream is cancelled, or the watchdog finds thinking but for too long nothing else. */
  predicate GivenUpAt(ticks: seq<Tick>, i: nat) {
    && i < |ticks| && AllNext(ticks[..i])
    && ((ticks[i].overdue && Thought(Consumed(ticks[..i]))) || ticks[i].outcome.Cancelled?)
  }

  ghost predicate GivenUp(ticks: seq<Tick>) {
    exists i :: GivenUpAt(ticks, i)
  }

  lemma {:induction false} DeltasSnoc(evs: seq<Event>, ev: Event)
    ensures TextDeltas(evs + [ev]) == TextDeltas(evs) + (if ev.TextDelta? then [ev.text] else [])
  {
    if evs != [] {
      assert (evs + [ev])[1..] == evs[1..] + [ev];
      DeltasSnoc(evs[1..], ev);
    }
  }

  /** Thinking is collected exactly if the events brought some. */
  lemma {:induction false} CollectsThought(evs: seq<Event>)
    ensures FeedEvents(EMPTY, evs).thinking != "" <==> Thought(evs)
  {
    hide StartsThinking, Flatten, FeedEvents, ThoughtDeltas, TextDeltas, Feed;
    ConcatNil(Flatten(TextDeltas(evs)));
    ConcatNil(Flatten(ThoughtDeltas(evs)));
    if !StartsThinking(Flatten(TextDeltas(evs))) {
      PlainEvents(EMPTY, evs);
    } else if evs == [] {
      EmptyIsNoThought();
    } else {
      var before, ev := evs[..|evs| - 1], evs[|evs| - 1];
      CollectsThought(before);
      InitLast(evs);
      FeedEventsConcat(EMPTY, before, [ev]);
      FeedEventsOne(FeedEvents(EMPTY, before), ev);
      FeedKeepsThought(FeedEvents(EMPTY, before), ev);
      if !StartsThinking(Flatten(TextDeltas(before))) {
        FirstThought(before, ev);
      }
    }
  }

  lemma EmptyIsNoThought()
    ensures !StartsThinking(Flatten(TextDeltas([])))
  {
    StartsThinkingIff("");
  }

  lemma FeedKeepsThought(acc: Acc, ev: Event)
    ensures acc.thinking != "" ==> Feed(acc, ev).thinking != ""
  {
    hide Trim, Index, FeedToolCall;
  }

  lemma FirstThought(before: seq<Event>, ev: Event)
    requires !StartsThinking(Flatten(TextDeltas(before))) && StartsThinking(Flatten(TextDeltas(before + [ev])))
    ensures Feed(FeedEvents(EMPTY, before), ev).thinking != ""
  {
    hide StartsThinking, Flatten, FeedEvents, ThoughtDeltas, TextDeltas, Feed;
    var all := Flatten(TextDeltas(before));
    DeltasSnoc(before, ev);
    ConcatNil(TextDeltas(before));
    ConcatNil(all);
    PlainEvents(EMPTY, before);
    if ev.TextDelta? {
      FlattenSnoc(TextDeltas(before), ev.text);
      OpeningEvent(FeedEvents(EMPTY, before), ev.text);
    }
  }

  lemma {:induction false} ConsumedSnoc(ticks: seq<Tick>, ev: Event, overdue: bool)
    requires AllNext(ticks)
    ensures Consumed(ticks + [Tick(overdue, Next(ev))]) == Consumed(ticks) + [ev]
  {
    var t := Tick(overdue, Next(ev));
    if ticks == [] {
      assert [t][1..] == [];
    } else {
      assert (ticks + [t])[1..] == ticks[1..] + [t];
      ConsumedSnoc(ticks[1..], ev, overdue);
    }
  }

  ghost predicate GivenUpFrom(ticks: seq<Tick>, n: nat) {
    exists i :: n <= i && GivenUpAt(ticks, i)
  }

  lemma GivenUpFromNext(ticks: seq<Tick>, n: nat)
    requires n < |ticks|
    ensures GivenUpFrom(ticks, n)
       <==> GivenUpAt(ticks, n) || (ticks[n].outcome.Next? && GivenUpFrom(ticks, n + 1))
  {
    hide Thought, Consumed;
    assert forall i :: n < i < |ticks| ==> ticks[..i][n] == ticks[n];
  }

  lemma NeverGivenUpAfterEnd(ticks: seq<Tick>)
    ensures !GivenUpFrom(ticks, |ticks|)
  {
  }

  lemma {:induction false} LoopAborts(before: seq<Tick>, ticks: seq<Tick>)
    requires AllNext(before)
    ensures Loop(FeedEvents(EMPTY, Consumed(before)), ticks).Aborted? <==> GivenUpFrom(before + ticks, |before|)
    decreases |ticks|
  {
    hide FeedEvents, Consumed, Feed, Thought, GivenUpFrom;
    var acc, all := FeedEvents(EMPTY, Consumed(before)), before + ticks;
    NeverGivenUpAfterEnd(all);
    if ticks != [] {
      CollectsThought(Consumed(before));
      assert all[..|before|] == before && all[|before|] == ticks[0];
      GivenUpFromNext(all, |before|);
      if ticks[0].outcome.Next? {
        var ev := ticks[0].outcome.event;
        ConsumedSnoc(before, ev, ticks[0].overdue);
        FeedEventsConcat(EMPTY, Consumed(before), [ev]);
        FeedEventsOne(acc, ev);
        assert ticks[0] == Tick(ticks[0].overdue, Next(ev));
        assert all == before + [ticks[0]] + ticks[1..];
        LoopAborts(before + [ticks[0]], ticks[1..]);
      }
    }
  }

  lemma FinishedIff(ticks: seq<Tick>)
    ensures Loop(EMPTY, ticks).Finished? <==> !GivenUp(ticks)
  {
    hide Loop, GivenUpAt;
    LoopAborts([], ticks);
    ConcatNil(ticks);
  }

  // ---------- Main results ----------

  /** The response of an opened stream that ends, in terms of its text, chunks and thinking. */
  predicate IsResponse(r: StreamResult, ticks: seq<Tick>, chat: ChatResult, parser: Parser,
                       content: string, chunks: seq<string>, thinking: string)
  {
    var calls := FeedAll([], Deltas(ticks));
    if content == "" && thinking == "" && calls == [] then
      match chat
      case ChatError => r.Failed?
      case ChatOk(resp) =>
        r.Got? && r.fellBack && r.response == resp
        && r.chunks == (if resp.content == "" then [] else [resp.content])
    else
      var parsed := calls == [] && Trim(content) != "" && parser(content) != [];
      && r.Got? && !r.fellBack && r.response.thinking == thinking
      && r.response.content == (if parsed then "" else content)
      && r.chunks == (if parsed then [] else chunks)
      && r.response.toolCalls == (if parsed then parser(content) else calls)
      && (r.response.truncated <==> LastReason("", ticks) == "length" || LastReason("", ticks) == "max_tokens")
  }

  lemma ResponseIs(ticks: seq<Tick>, chat: ChatResult, parser: Parser)
    requires !GivenUp(ticks)
    ensures var end := FeedEvents(EMPTY, Consumed(ticks));
            IsResponse(StreamFinal(true, ticks, chat, parser), ticks, chat, parser,
                       end.content, end.chunks, end.thinking)
  {
    hide Loop, GivenUp, Trim, FeedAll, Deltas, Consumed, FeedEvents;
    FinishedIff(ticks);
    LoopFeedsEvents(EMPTY, ticks);
    LoopFeedsDeltas(EMPTY, ticks);
  }

  /** A stream that cannot be opened is replaced by the chat call: its response as it is, shown in one chunk, or its
      error. */
  lemma UnopenedStream(ticks: seq<Tick>, chat: ChatResult, parser: Parser)
    ensures var r := StreamFinal(false, ticks, chat, parser);
            && (r.Failed? <==> chat.ChatError?)
            && (r.Got? ==> r.fellBack && r.response == chat.response && Flatten(r.chunks) == r.response.content
                           && |r.chunks| <= 1)
  {
    ChunksAreContent(false, ticks, chat, parser);
  }

  /** A stream that is cancelled, or on which the watchdog finds nothing but thinking for too long, fails. */
  lemma GivenUpStream(ticks: seq<Tick>, chat: ChatResult, parser: Parser)
    requires GivenUp(ticks)
    ensures StreamFinal(true, ticks, chat, parser) == Failed
  {
    hide Loop, GivenUp;
    FinishedIff(ticks);
  }

  /** A stream whose text never starts with a think tag: the content is the concatenation of the text deltas that were
      consumed, the chunks are these deltas, the thinking is the concatenation of the thinking deltas, and the response
      is truncated exactly if the last reason seen says so.  Only if the stream brought nothing at all the chat call's
      response is returned, and only a text without tool calls that parses as such becomes them. */
  lemma PlainStream(ticks: seq<Tick>, chat: ChatResult, parser: Parser)
    requires !GivenUp(ticks) && !StartsThinking(Flatten(TextDeltas(Consumed(ticks))))
    ensures var texts, thoughts := TextDeltas(Consumed(ticks)), ThoughtDeltas(Consumed(ticks));
            IsResponse(StreamFinal(true, ticks, chat, parser), ticks, chat, parser,
                       Flatten(texts), texts, Flatten(thoughts))
  {
    hide GivenUp, StartsThinking, Flatten, StreamFinal, FeedEvents, Consumed;
    var evs := Consumed(ticks);
    ResponseIs(ticks, chat, parser);
    ConcatNil(Flatten(TextDeltas(evs)));
    ConcatNil(TextDeltas(evs));
    ConcatNil(Flatten(ThoughtDeltas(evs)));
    PlainEvents(EMPTY, evs);
  }

  /** A stream whose text starts with a think tag once: the content is what was there before the tag's delta, what
      follows the first closing tag, and the text deltas after it; everything else is thinking. */
  lemma ThinkingStream(ticks: seq<Tick>, chat: ChatResult, parser: Parser,
                       pre: seq<Event>, open: string, mid: seq<Event>, close: string, rest: seq<Event>)
    requires !GivenUp(ticks)
    requires Consumed(ticks) == pre + [TextDelta(open)] + mid + [TextDelta(close)] + rest
    requires !StartsThinking(Flatten(TextDeltas(pre))) && StartsThinking(Flatten(TextDeltas(pre)) + open)
    requires HasNoClose(mid) && Contains(close, "</think>")
    requires !StartsThinking(Flatten(TextDeltas(pre)) + Flatten(AfterClose(close)) + Flatten(TextDeltas(rest)))
    ensures var content := Flatten(TextDeltas(pre)) + Flatten(AfterClose(close)) + Flatten(TextDeltas(rest));
            var chunks := TextDeltas(pre) + AfterClose(close) + TextDeltas(rest);
            var thinking := Thoughts(pre, open, mid) + close + Flatten(ThoughtDeltas(rest));
            IsResponse(StreamFinal(true, ticks, chat, parser), ticks, chat, parser, content, chunks, thinking)
  {
    hide GivenUp, StartsThinking, Flatten, StreamFinal, FeedEvents, AfterClose, HasNoClose, IsResponse;
    ResponseIs(ticks, chat, parser);
    var a := Flatten(TextDeltas(pre));
    ConcatNil(a);
    ConcatNil(TextDeltas(pre));
    TextResumes(EMPTY, pre, open, mid, close, rest);
    var next :| && FeedEvents(EMPTY, Consumed(ticks)) == FeedEvents(next, rest) && !next.inThink
                && next.content == EMPTY.content + a + Flatten(AfterClose(close))
                && next.chunks == EMPTY.chunks + TextDeltas(pre) + AfterClose(close)
                && next.thinking == EMPTY.thinking + Thoughts(pre, open, mid) + close;
    ConcatNil(Thoughts(pre, open, mid));
    PlainEvents(next, rest);
  }

  /** A think tag that is never closed, in a delta after its own, turns all further text into thinking. */
  lemma UnclosedStream(ticks: seq<Tick>, chat: ChatResult, parser: Parser, pre: seq<Event>, open: string,
                       mid: seq<Event>)
    requires !GivenUp(ticks) && Consumed(ticks) == pre + [TextDelta(open)] + mid
    requires !StartsThinking(Flatten(TextDeltas(pre))) && StartsThinking(Flatten(TextDeltas(pre)) + open)
    requires HasNoClose(mid)
    ensures IsResponse(StreamFinal(true, ticks, chat, parser), ticks, chat, parser,
                       Flatten(TextDeltas(pre)), TextDeltas(pre), Thoughts(pre, open, mid))
  {
    hide GivenUp, StartsThinking, Flatten, StreamFinal, FeedEvents, HasNoClose, IsResponse, Feed;
    ResponseIs(ticks, chat, parser);
    ConcatNil(Flatten(TextDeltas(pre)));
    ConcatNil(TextDeltas(pre));
    PlainEvents(EMPTY, pre);
    var one := pre + [TextDelta(open)];
    FeedEventsConcat(EMPTY, pre, [TextDelta(open)]);
    FeedEventsOne(FeedEvents(EMPTY, pre), TextDelta(open));
    OpeningEvent(FeedEvents(EMPTY, pre), open);
    FeedEventsConcat(EMPTY, one, mid);
    ThinkingEvents(FeedEvents(EMPTY, one), mid);
    ConcatNil(Flatten(ThoughtDeltas(pre)));
  }
}
