/** What holds of every run of the engine: how often the model is called and in which order, what a result
    contains, and what becomes of text that was captured on the way. */
module EngineAccounting {
  import opened Text
  import opened Provider
  import opened EngineRun

  // ---------- The model calls of a run ----------

  function Count(calls: seq<Call>, call: Call): nat {
    if calls == [] then 0 else Count(calls[..|calls| - 1], call) + (if calls[|calls| - 1] == call then 1 else 0)
  }

  lemma CountSnoc(calls: seq<Call>, last: Call, call: Call)
    ensures Count(calls + [last], call) == Count(calls, call) + (if last == call then 1 else 0)
  {
    SnocInit(calls, last);
  }

  predicate Truncated(env: Env, n: nat) {
    env.model(n).Some? && env.model(n).value.truncated
  }

  /** The calls before the memory round: every recovery directly follows the primary call whose answer it
      continues, and that answer was truncated. */
  predicate Rounds(env: Env, calls: seq<Call>) {
    && Memory !in calls
    && forall i :: 0 <= i < |calls| && calls[i] == Recovery ==>
         i > 0 && calls[i - 1] == Primary && Truncated(env, i - 1)
  }

  /** The memory round comes last. */
  predicate WellOrdered(env: Env, calls: seq<Call>) {
    Rounds(env, calls) ||
    (calls != [] && calls[|calls| - 1] == Memory && Rounds(env, calls[..|calls| - 1]))
  }

  predicate WithinLimits(env: Env, cfg: Config, st: State) {
    && Rounds(env, st.calls)
    && Count(st.calls, Primary) == st.turn && Count(st.calls, Recovery) == st.recoveries
    && (st.recoveries == 0 || st.recoveries <= cfg.maxRecoveries)
    && st.parseRetries <= MAX_PARSE_RETRIES
  }

  /** What holds of every result; all counts are taken from the calls made. */
  predicate Accounted(env: Env, cfg: Config, r: Result) {
    var primary, recoveries := Count(r.calls, Primary), Count(r.calls, Recovery);
    && 1 <= primary <= cfg.maxTurns
    && (recoveries == 0 || recoveries <= cfg.maxRecoveries) && recoveries <= primary
    && Count(r.calls, Memory) <= 1 && WellOrdered(env, r.calls)
    && (r.Failed? ==> r.calls[|r.calls| - 1] == Primary && env.model(|r.calls| - 1).None?)
    && (r.Finished? ==>
          && r.parseRetries <= MAX_PARSE_RETRIES
          && r.turnsUsed == primary
          && (r.tools != [] ==> r.content != "")
          && (r.exit == TurnsExhausted ==> primary == cfg.maxTurns))
  }

  lemma PrimaryCall(env: Env, calls: seq<Call>)
    requires Rounds(env, calls)
    ensures Rounds(env, calls + [Primary])
    ensures Count(calls + [Primary], Primary) == Count(calls, Primary) + 1
    ensures Count(calls + [Primary], Recovery) == Count(calls, Recovery)
  {
    hide Count, Truncated;
    CountSnoc(calls, Primary, Primary);
    CountSnoc(calls, Primary, Recovery);
  }

  lemma RecoveryCall(env: Env, calls: seq<Call>)
    requires Rounds(env, calls) && calls != [] && calls[|calls| - 1] == Primary && Truncated(env, |calls| - 1)
    ensures Rounds(env, calls + [Recovery])
    ensures Count(calls + [Recovery], Primary) == Count(calls, Primary)
    ensures Count(calls + [Recovery], Recovery) == Count(calls, Recovery) + 1
  {
    hide Count, Truncated;
    CountSnoc(calls, Recovery, Primary);
    CountSnoc(calls, Recovery, Recovery);
    var all := calls + [Recovery];
    assert forall i :: 0 <= i < |calls| ==> all[i] == calls[i];
  }

  lemma {:induction false} FewRecoveries(env: Env, calls: seq<Call>)
    requires Rounds(env, calls)
    ensures Count(calls, Memory) == 0
    ensures Count(calls, Recovery) <= Count(calls, Primary)
    ensures calls != [] && calls[|calls| - 1] == Primary ==> Count(calls, Recovery) < Count(calls, Primary)
  {
    if calls != [] {
      FewRecoveries(env, calls[..|calls| - 1]);
    }
  }

  lemma MemoryCall(env: Env, messages: seq<Message>, calls: seq<Call>)
    requires Rounds(env, calls)
    ensures var all := MemoryRound(env, messages, calls);
            && WellOrdered(env, all) && Count(all, Memory) <= 1
            && Count(all, Primary) == Count(calls, Primary) && Count(all, Recovery) == Count(calls, Recovery)
  {
    FewRecoveries(env, calls);
    CountSnoc(calls, Memory, Primary);
    CountSnoc(calls, Memory, Recovery);
    CountSnoc(calls, Memory, Memory);
    SnocInit(calls, Memory);
  }

  lemma FinishedIsAccounted(env: Env, cfg: Config, st: State, messages: seq<Message>, r: Result)
    requires WithinLimits(env, cfg, st) && 1 <= st.turn <= cfg.maxTurns
    requires r.Finished? && r.calls == MemoryRound(env, messages, st.calls) && r.turnsUsed == st.turn
    requires r.parseRetries == st.parseRetries && (r.tools != [] ==> r.content != "")
    requires r.exit == TurnsExhausted ==> st.turn == cfg.maxTurns
    ensures Accounted(env, cfg, r)
  {
    hide Rounds, WellOrdered, MemoryRound;
    MemoryCall(env, messages, st.calls);
    FewRecoveries(env, st.calls);
  }

  lemma DecideIsAccounted(env: Env, cfg: Config, st: State, resp: Response)
    requires WithinLimits(env, cfg, st.(turn := st.turn + 1)) && st.turn < cfg.maxTurns
    ensures match Decide(env, cfg, st, resp)
            case Stop(r) => Accounted(env, cfg, r)
            case Continue(next) => WithinLimits(env, cfg, next) && next.turn == st.turn + 1
  {
    hide Rounds, Accounted, MemoryRound, Count, Captured, Synthesized, Passthrough, Valid, ToolMessages, Names;
    match Decide(env, cfg, st, resp)
    case Continue(_) =>
    case Stop(r) =>
      var messages := if r.exit == PassedThrough
        then env.prepare(st.turn, st.messages + [Message(Assistant, resp.content)])
             + ToolMessages(env.results(st.turn))
        else st.messages + [Message(Assistant, resp.content)];
      FinishedIsAccounted(env, cfg, st.(turn := st.turn + 1), messages, r);
  }

  lemma RoundIsAccounted(env: Env, cfg: Config, st: State)
    requires WithinLimits(env, cfg, st) && st.turn < cfg.maxTurns
    ensures match Round(env, cfg, st)
            case Stop(r) => Accounted(env, cfg, r)
            case Continue(next) => WithinLimits(env, cfg, next) && next.turn == st.turn + 1
  {
    hide Rounds, Count, Decide, WellOrdered;
    PrimaryCall(env, st.calls);
    var asked := Asked(env, st);
    match env.model(|st.calls|)
    case None =>
      FailedIsWellOrdered(env, asked.calls);
    case Some(first) =>
      if first.truncated {
        RecoveryCall(env, asked.calls);
      }
      var reply := Recovered(env, cfg, asked, first);
      DecideIsAccounted(env, cfg, reply.state, reply.response);
  }

  lemma FailedIsWellOrdered(env: Env, calls: seq<Call>)
    requires Rounds(env, calls)
    ensures WellOrdered(env, calls) && Count(calls, Memory) == 0 && Count(calls, Recovery) <= Count(calls, Primary)
  {
    FewRecoveries(env, calls);
  }

  lemma {:induction false} RunIsAccounted(env: Env, cfg: Config, st: State)
    requires WithinLimits(env, cfg, st) && st.turn <= cfg.maxTurns && cfg.maxTurns >= 1
    ensures Accounted(env, cfg, RunFrom(env, cfg, st))
    decreases cfg.maxTurns - st.turn
  {
    hide Round, Synthesized, LastAnswer, Rounds, Count, MemoryRound, Accounted;
    if st.turn < cfg.maxTurns {
      RoundIsAccounted(env, cfg, st);
      match Round(env, cfg, st)
      case Stop(_) =>
      case Continue(next) => RunIsAccounted(env, cfg, next);
    } else {
      FinishedIsAccounted(env, cfg, st, st.messages, Exhausted(env, cfg, st));
    }
  }

  /** For every provider, tool and context behaviour, counting the rounds where they are made: between one and
      maxTurns primary rounds, as many as TurnsUsed says; at most the configured number of recoveries, each
      directly after the truncated answer it continues; at most one memory round, the last; at most two parse
      retries; and on every exit without an error a result that is not empty if any tool was invoked. */
  lemma EveryRunIsAccounted(env: Env, cfg: Config, messages: seq<Message>)
    requires cfg.maxTurns >= 1
    ensures Accounted(env, cfg, RunFrom(env, cfg, Start(messages)))
  {
    RunIsAccounted(env, cfg, Start(messages));
  }

  /** With no turns allowed the model is asked at most for the memory round. */
  lemma NoTurnsNoCalls(env: Env, cfg: Config, messages: seq<Message>)
    requires cfg.maxTurns <= 0
    ensures var r := RunFrom(env, cfg, Start(messages));
            && r.Finished? && r.calls == MemoryRound(env, messages, [])
            && r.tools == [] && r.content == LastAnswer(messages)
  {
  }

  // ---------- What a run invoked and delivered ----------

  /** `next` keeps what `st` has invoked and delivered. */
  predicate Keeps(st: State, next: State) {
    st.tools <= next.tools && st.deliverable <= next.deliverable
  }

  predicate IsAnswer(r: Result) {
    r.Finished? && r.exit in {Answered, OnlyGhosts}
  }

  predicate KeptBy(st: State, r: Result) {
    st.tools <= r.tools && (IsAnswer(r) ==> st.deliverable <= r.content)
  }

  lemma ConcludeKeeps(env: Env, st: State, resp: Response, exit: Exit)
    ensures KeptBy(st, Conclude(env, st, resp, exit))
  {
    hide Synthesized;
  }

  lemma RoundKeeps(env: Env, cfg: Config, st: State)
    ensures match Round(env, cfg, st)
            case Stop(r) => KeptBy(st, r)
            case Continue(next) => Keeps(st, next)
  {
    hide Conclude, Passthrough, Valid, ToolMessages, Upgraded;
    match env.model(|st.calls|)
    case None =>
    case Some(first) =>
      var reply := Recovered(env, cfg, Asked(env, st), first);
      ConcludeKeeps(env, reply.state, reply.response, Answered);
      ConcludeKeeps(env, reply.state, reply.response, OnlyGhosts);
  }

  /** From every point of a run: the result lists, in order, all tools invoked so far, and an answer begins
      with all the text captured so far from rounds that only had side effects. */
  lemma {:induction false} AnswersKeepCapturedText(env: Env, cfg: Config, st: State)
    ensures KeptBy(st, RunFrom(env, cfg, st))
    decreases cfg.maxTurns - st.turn
  {
    hide Round, LastAnswer, Synthesized;
    if st.turn < cfg.maxTurns {
      RoundKeeps(env, cfg, st);
      match Round(env, cfg, st)
      case Stop(_) =>
      case Continue(next) =>
        RoundAdvances(env, cfg, st);
        AnswersKeepCapturedText(env, cfg, next);
    }
  }

  // ---------- Whether captured text is delivered ----------

  /** What the model wrote in a round that ran tools or is repeated, and whether the engine captured it. */
  datatype Said = Said(text: string, captured: bool)

  predicate Captures(st: State, resp: Response) {
    && !(resp.needRetry && st.parseRetries < MAX_PARSE_RETRIES)
    && Valid(resp.toolCalls) != [] && OnlySideEffects(Valid(resp.toolCalls))
  }

  function SaidIn(env: Env, cfg: Config, st: State): Said {
    match env.model(|st.calls|)
    case None => Said("", false)
    case Some(first) =>
      var reply := Recovered(env, cfg, Asked(env, st), first);
      Said(reply.response.content, Captures(reply.state, reply.response))
  }

  /** The rounds of the run from `st` on, without the final one of an answer. */
  function History(env: Env, cfg: Config, st: State): seq<Said>
    decreases cfg.maxTurns - st.turn
  {
    if st.turn >= cfg.maxTurns then []
    else
      match Round(env, cfg, st)
      case Stop(r) => if r.Finished? && r.exit == PassedThrough then [SaidIn(env, cfg, st)] else []
      case Continue(next) => [SaidIn(env, cfg, st)] + History(env, cfg, next)
  }

  /** The state at the top of the run's last round, or behind it if the turns are used up. */
  function LastState(env: Env, cfg: Config, st: State): State
    decreases cfg.maxTurns - st.turn
  {
    if st.turn >= cfg.maxTurns then st
    else
      match Round(env, cfg, st)
      case Stop(_) => st
      case Continue(next) => LastState(env, cfg, next)
  }

  /** All captured text, after `before`. */
  function Collected(before: string, said: seq<Said>): string
    decreases |said|
  {
    if said == [] then before
    else Collected(if said[0].captured then Captured(before, said[0].text) else before, said[1..])
  }

  /** The last text that is not empty, or `before`. */
  function LastText(before: string, said: seq<Said>): string
    decreases |said|
  {
    if said == [] then before else LastText(if said[0].text != "" then said[0].text else before, said[1..])
  }

  function CaptureCount(said: seq<Said>): nat {
    if said == [] then 0
    else
      var x := said[|said| - 1];
      CaptureCount(said[..|said| - 1]) + (if x.captured && x.text != "" then 1 else 0)
  }

  /** The last text that is not empty was captured. */
  predicate LastIsCaptured(said: seq<Said>) {
    said != [] &&
    var x := said[|said| - 1];
    if x.text != "" then x.captured else LastIsCaptured(said[..|said| - 1])
  }

  lemma {:induction false} SaidSnoc(a: string, b: string, said: seq<Said>)
    requires said != []
    ensures var n := |said| - 1;
            && Collected(a, said) == (if said[n].captured then Captured(Collected(a, said[..n]), said[n].text)
                                      else Collected(a, said[..n]))
            && LastText(b, said) == (if said[n].text != "" then said[n].text else LastText(b, said[..n]))
    decreases |said|
  {
    hide Captured;
    var n := |said| - 1;
    if n > 0 {
      assert said[1..][..n - 1] == said[..n][1..] && said[1..][n - 1] == said[n];
      SaidSnoc(if said[0].captured then Captured(a, said[0].text) else a,
               if said[0].text != "" then said[0].text else b, said[1..]);
    }
  }

  /** The captured text compared with the last text: the same if there is one capture and nothing after it, and
      longer if the last of several captures is the last text. */
  lemma {:induction false} CollectedIs(said: seq<Said>)
    ensures Collected("", said) == "" <==> CaptureCount(said) == 0
    ensures LastIsCaptured(said) ==> CaptureCount(said) >= 1
    ensures LastIsCaptured(said) && CaptureCount(said) == 1 ==> Collected("", said) == LastText("", said)
    ensures LastIsCaptured(said) && CaptureCount(said) >= 2 ==> |Collected("", said)| > |LastText("", said)|
    ensures CaptureCount(said) >= 1 ==> LastText("", said) != ""
  {
    if said != [] {
      SaidSnoc("", "", said);
      CollectedIs(said[..|said| - 1]);
    }
  }

  /** Neither the reminders and the compression at the top of a turn nor the context builder change the last
      assistant text; both only append, and strip thinking, unless the context is compressed. */
  ghost predicate KeepsLastAnswer(env: Env) {
    && (forall t, ms :: LastAnswer(env.topOfTurn(t, ms)) == LastAnswer(ms))
    && (forall t, ms :: LastAnswer(env.prepare(t, ms)) == LastAnswer(ms))
  }

  lemma {:induction false} LastAnswerSkips(ms: seq<Message>, more: seq<Message>)
    requires forall i :: 0 <= i < |more| ==> more[i].role != Assistant
    ensures LastAnswer(ms + more) == LastAnswer(ms)
  {
    if more == [] {
      ConcatNil(ms);
    } else {
      InitLast(more);
      ConcatAssoc(ms, more[..|more| - 1], [more[|more| - 1]]);
      SnocInit(ms + more[..|more| - 1], more[|more| - 1]);
      LastAnswerSkips(ms, more[..|more| - 1]);
    }
  }

  lemma LastAnswerSnoc(ms: seq<Message>, content: string)
    ensures LastAnswer(ms + [Message(Assistant, content)]) == if content != "" then content else LastAnswer(ms)
  {
    SnocInit(ms, Message(Assistant, content));
  }

  /** One round's effect on the captured text and on the last text. */
  lemma DecideSays(env: Env, cfg: Config, st: State, resp: Response)
    requires Decide(env, cfg, st, resp).Continue?
    ensures var next := Decide(env, cfg, st, resp).state;
            && next.deliverable == (if Captures(st, resp) then Captured(st.deliverable, resp.content)
                                    else st.deliverable)
            && (KeepsLastAnswer(env) ==>
                  LastAnswer(next.messages) == if resp.content != "" then resp.content else LastAnswer(st.messages))
  {
    hide Captured, Passthrough, Valid, OnlySideEffects, Names, ToolMessage, LastAnswer;
    LastAnswerSnoc(st.messages, resp.content);
    var prepared := env.prepare(st.turn, st.messages + [Message(Assistant, resp.content)]);
    LastAnswerSkips(prepared, [Message(User, "<system-reminder>")]);
    var results := env.results(st.turn);
    forall i | 0 <= i < |results| ensures ToolMessages(results)[i].role != Assistant {
      ToolMessageIsTool(results[i]);
    }
    LastAnswerSkips(prepared, ToolMessages(results));
  }

  lemma RoundSays(env: Env, cfg: Config, st: State)
    requires Round(env, cfg, st).Continue?
    ensures var next, said := Round(env, cfg, st).state, SaidIn(env, cfg, st);
            && next.deliverable == (if said.captured then Captured(st.deliverable, said.text) else st.deliverable)
            && (KeepsLastAnswer(env) ==>
                  LastAnswer(next.messages) == if said.text != "" then said.text else LastAnswer(st.messages))
  {
    hide Decide, Captured, LastAnswer, Captures, Upgraded;
    var first := env.model(|st.calls|).value;
    var reply := Recovered(env, cfg, Asked(env, st), first);
    DecideSays(env, cfg, reply.state, reply.response);
  }

  /** How a run ends, in terms of what was said on the way. */
  lemma {:induction false} RunSays(env: Env, cfg: Config, st: State)
    ensures var last, said, r := LastState(env, cfg, st), History(env, cfg, st), RunFrom(env, cfg, st);
            && r == RunFrom(env, cfg, last)
            && (r.Finished? && r.exit == TurnsExhausted ==>
                  && r == Exhausted(env, cfg, last)
                  && (KeepsLastAnswer(env) ==>
                        LastAnswer(last.messages) == LastText(LastAnswer(st.messages), said)))
            && (r.Finished? && r.exit == PassedThrough ==> r.content == Passthrough(env.rawResults(last.turn)))
            && (IsAnswer(r) ==> last.deliverable == Collected(st.deliverable, said))
    decreases cfg.maxTurns - st.turn
  {
    hide Round, SaidIn, Captured, Exhausted, LastAnswer, KeepsLastAnswer, Passthrough;
    if st.turn >= cfg.maxTurns {
      ExhaustedExit(env, cfg, st);
    } else {
      match Round(env, cfg, st)
      case Stop(r) =>
        StopExit(env, cfg, st);
      case Continue(next) =>
        RoundAdvances(env, cfg, st);
        RoundSays(env, cfg, st);
        RunSays(env, cfg, next);
        var said, rest := SaidIn(env, cfg, st), History(env, cfg, next);
        assert ([said] + rest)[1..] == rest;
    }
  }

  lemma ExhaustedExit(env: Env, cfg: Config, st: State)
    ensures Exhausted(env, cfg, st).Finished? && Exhausted(env, cfg, st).exit == TurnsExhausted
  {
  }

  lemma StopExit(env: Env, cfg: Config, st: State)
    requires Round(env, cfg, st).Stop?
    ensures var r := Round(env, cfg, st).result;
            r.Finished? ==> r.exit != TurnsExhausted
                            && (r.exit == PassedThrough ==> r.content == Passthrough(env.rawResults(st.turn)))
  {
    hide Upgraded, Captured, Synthesized, Passthrough, Valid, ToolMessages, Names, MemoryRound;
  }

  /** Exactly when the text that was captured on the way, all of it, is what the result begins with.  An answer
      always begins with it.  When a report is passed through, the result is that report.  When the turns are used
      up, the result is the last text: the captured text if there was one capture and no later text, never if the
      last of several captures was the last text, and otherwise only if the last text repeats it. */
  lemma CapturedTextIsDeliveredIff(env: Env, cfg: Config, messages: seq<Message>)
    requires var r := RunFrom(env, cfg, Start(messages));
             r.Finished? && (r.exit == TurnsExhausted ==> KeepsLastAnswer(env))
    ensures var r, said := RunFrom(env, cfg, Start(messages)), History(env, cfg, Start(messages));
            var text := Collected("", said);
            text <= r.content <==>
              match r.exit
              case Answered => true
              case OnlyGhosts => true
              case PassedThrough => text <= Passthrough(env.rawResults(LastState(env, cfg, Start(messages)).turn))
              case TurnsExhausted =>
                if LastIsCaptured(said) then CaptureCount(said) == 1
                else CaptureCount(said) == 0 || text <= LastText("", said)
  {
    hide RunFrom, History, LastState, Collected, LastText, LastAnswer, Passthrough, Synthesized, KeepsLastAnswer;
    var st := Start(messages);
    var said, last := History(env, cfg, st), LastState(env, cfg, st);
    RunSays(env, cfg, st);
    AnswersKeepCapturedText(env, cfg, last);
    CollectedIs(said);
    LastTextBefore(LastAnswer(messages), said);
  }

  /** The result of a run that used up its turns, captured text or not: the last text of the run. */
  lemma ExhaustedReturnsLastText(env: Env, cfg: Config, messages: seq<Message>)
    requires KeepsLastAnswer(env)
    requires var r := RunFrom(env, cfg, Start(messages)); r.Finished? && r.exit == TurnsExhausted
    ensures var r, text := RunFrom(env, cfg, Start(messages)),
                           LastText(LastAnswer(messages), History(env, cfg, Start(messages)));
            text != "" ==> r.content == text
  {
    hide RunFrom, History, LastState, LastText, LastAnswer, Synthesized, KeepsLastAnswer;
    RunSays(env, cfg, Start(messages));
  }

  lemma {:induction false} LastTextBefore(before: string, said: seq<Said>)
    ensures LastText(before, said) == if LastText("", said) != "" then LastText("", said) else before
  {
    if said != [] {
      SaidSnoc("", before, said);
      SaidSnoc("", "", said);
      LastTextBefore(before, said[..|said| - 1]);
    }
  }

  // ---------- A report that is captured and lost, and one that is not ----------

  const REPORT_ROUND := Response("REPORT", "", [ToolCall("1", "memory_write", "{}")], false, false)
  const CLOSING_ROUND := Response("hm", "", [ToolCall("2", "sql", "{}")], false, false)

  /** The model writes its report beside a memory write, and then calls another tool in the last turn. */
  function LosingEnv(): Env {
    Env((n: nat) => Some(if n == 0 then REPORT_ROUND else CLOSING_ROUND),
        (turn: nat) => [], (turn: nat) => [ToolResult("tool", "ok", "")],
        (turn: nat, ms: seq<Message>) => ms, (turn: nat, ms: seq<Message>) => ms,
        (s: string) => false, (s: string, tools: seq<string>) => "", (ms: seq<Message>) => false)
  }

  const TOOL_RESULTS: seq<ToolResult> := [ToolResult("tool", "ok", "")]

  /** A round of that environment runs one tool and captures its text if the tool is a memory write. */
  lemma LosingRound(cfg: Config, st: State, resp: Response, call: ToolCall)
    requires resp.toolCalls == [call] && call.id != "" && call.name != "" && !resp.needRetry && resp.content != ""
    ensures Decide(LosingEnv(), cfg, st, resp)
         == Continue(st.(turn := st.turn + 1, tools := st.tools + Names(TOOL_RESULTS),
                         messages := st.messages + [Message(Assistant, resp.content)] + ToolMessages(TOOL_RESULTS),
                         deliverable := if IsSideEffectTool(call.name) then Captured(st.deliverable, resp.content)
                                        else st.deliverable))
  {
    hide Conclude, Synthesized, StripMarker, ToolMessages, Names, Captured;
    ValidOne(call);
  }

  lemma LastAnswerBeforeTool(before: seq<Message>, content: string)
    requires content != ""
    ensures LastAnswer(before + [Message(Assistant, content)] + ToolMessages(TOOL_RESULTS)) == content
  {
    hide ToolMessage;
    var m := ToolMessage(TOOL_RESULTS[0]);
    ToolMessageIsTool(TOOL_RESULTS[0]);
    assert ToolMessages(TOOL_RESULTS) == [m];
    SnocInit(before + [Message(Assistant, content)], m);
    SnocInit(before, Message(Assistant, content));
  }

  lemma ToolMessageIsTool(tr: ToolResult)
    ensures ToolMessage(tr).role == Tool
  {
    hide StripMarker, Contains;
  }

  /** The turns are used up, and the result is the remark of the last round without the captured report. */
  lemma CapturedReportIsLost()
    ensures var env, cfg := LosingEnv(), Config(2, 0);
            var first, r := Round(env, cfg, Start([])), RunFrom(env, cfg, Start([]));
            && first.Continue? && first.state.deliverable == "REPORT"
            && r.Finished? && r.exit == TurnsExhausted && r.content == "hm"
  {
    hide Decide, Synthesized, ToolMessages, Names, LastAnswer;
    var env, cfg, st := LosingEnv(), Config(2, 0), Start([]);
    LosingRound(cfg, Asked(env, st), REPORT_ROUND, REPORT_ROUND.toolCalls[0]);
    var st1 := Round(env, cfg, st).state;
    assert |st1.calls| == 1;
    LosingRound(cfg, Asked(env, st1), CLOSING_ROUND, CLOSING_ROUND.toolCalls[0]);
    LastAnswerBeforeTool(st1.messages, "hm");
    assert RunFrom(env, cfg, st1) == Exhausted(env, cfg, Round(env, cfg, st1).state);
  }

  /** With one turn only the turns are used up as well, and the report is the result: it is the last text. */
  lemma CapturedReportIsReturned()
    ensures var env, cfg := LosingEnv(), Config(1, 0);
            var r := RunFrom(env, cfg, Start([]));
            r.Finished? && r.exit == TurnsExhausted && r.content == "REPORT"
  {
    hide Decide, Synthesized, ToolMessages, Names, LastAnswer;
    var env, cfg, st := LosingEnv(), Config(1, 0), Start([]);
    LosingRound(cfg, Asked(env, st), REPORT_ROUND, REPORT_ROUND.toolCalls[0]);
    LastAnswerBeforeTool(st.messages, "REPORT");
    assert RunFrom(env, cfg, st) == Exhausted(env, cfg, Round(env, cfg, st).state);
  }

  lemma ValidOne(tc: ToolCall)
    requires tc.id != "" && tc.name != ""
    ensures Valid([tc]) == [tc]
  {
    assert [tc][..0] == [];
  }

  /** A truncated answer that is continued keeps what was already shown to the user. */
  lemma RecoveryExtends(env: Env, cfg: Config, st: State, resp: Response)
    ensures resp.content <= Recovered(env, cfg, st, resp).response.content
  {
  }
}
