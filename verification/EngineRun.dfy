/** The engine's run: rounds with the model until it answers, a tool's report is passed through, or the turns
    are used up; then a result that is never empty after tools were invoked.

    The provider, the tools and the context manager are arbitrary: an Env gives the model's answer to the n-th
    call it receives, of whatever kind, and what the tools return in every turn.  Since the theorems hold for
    every Env, they hold for environments that react to the run. */
module EngineRun {
  import opened Text
  import opened Provider

  datatype Option<T> = None | Some(value: T)

  datatype ToolResult = ToolResult(name: string, content: string, error: string)

  datatype Role = System | User | Assistant | Tool

  datatype Message = Message(role: Role, content: string)

  datatype Env = Env(
    /** The model's answer to the n-th call of the run; None when the call fails. */
    model: nat -> Option<Response>,
    /** What the tools return in a turn, before and after the result handler shortens it. */
    rawResults: nat -> seq<ToolResult>,
    results: nat -> seq<ToolResult>,
    /** Reminders and compression at the top of a turn, and the context builder's preparation of the next. */
    topOfTurn: (nat, seq<Message>) -> seq<Message>,
    prepare: (nat, seq<Message>) -> seq<Message>,
    /** Whether a text announces a tool call that did not come. */
    announcesCall: string -> bool,
    /** The warning about evidence from tools that were not invoked, or nothing. */
    evidenceWarning: (string, seq<string>) -> string,
    /** Whether the conversation triggers the memory round. */
    wantsMemory: seq<Message> -> bool)

  datatype Config = Config(maxTurns: int, maxRecoveries: int)

  const MAX_PARSE_RETRIES := 2

  // ---------- Pieces ----------

  predicate IsSideEffectTool(name: string) {
    name == "memory_write" || name == "memory_update"
  }

  method ShouldFlushContent(calls: seq<ToolCall>) returns (flush: bool)
    ensures flush <==> forall i :: 0 <= i < |calls| ==> IsSideEffectTool(calls[i].name)
  {
    for i := 0 to |calls|
      invariant forall k :: 0 <= k < i ==> IsSideEffectTool(calls[k].name)
    {
      if !IsSideEffectTool(calls[i].name) {
        return false;
      }
    }
    return true;
  }

  predicate OnlySideEffects(calls: seq<ToolCall>) {
    forall i :: 0 <= i < |calls| ==> IsSideEffectTool(calls[i].name)
  }

  /** The calls that are not ghosts. */
  function Valid(calls: seq<ToolCall>): (r: seq<ToolCall>)
    ensures forall i :: 0 <= i < |r| ==> r[i].id != "" && r[i].name != ""
  {
    if calls == [] then []
    else
      var tc := calls[|calls| - 1];
      Valid(calls[..|calls| - 1]) + (if tc.id != "" && tc.name != "" then [tc] else [])
  }

  method FilterGhosts(calls: seq<ToolCall>) returns (valid: seq<ToolCall>)
    ensures valid == Valid(calls)
  {
    valid := [];
    for i := 0 to |calls|
      invariant valid == Valid(calls[..i])
    {
      PrefixStep(calls, i);
      if calls[i].id != "" && calls[i].name != "" {
        valid := valid + [calls[i]];
      }
    }
    WholePrefix(calls);
  }

  const MARKER: string := "<!-- WDR_REPORT_BEGIN"

  function TrimNewlines(s: string): string {
    if s != "" && s[0] == '\n' then TrimNewlines(s[1..]) else s
  }

  /** The report without its marker comment; unchanged when the comment is not closed. */
  function StripMarker(content: string): string {
    var idx := Index(content, MARKER);
    if idx < 0 then content
    else
      var close := Index(content[idx..], "-->");
      if close < 0 then content else TrimNewlines(content[..idx] + content[idx..][close + 3..])
  }

  /** The first successful result with a marker, without the marker; empty if there is none. */
  function Passthrough(results: seq<ToolResult>): string {
    if results == [] then ""
    else if results[0].error == "" && Contains(results[0].content, MARKER) then StripMarker(results[0].content)
    else Passthrough(results[1..])
  }

  method FindPassthrough(results: seq<ToolResult>) returns (report: string)
    ensures report == Passthrough(results)
  {
    hide StripMarker;
    for i := 0 to |results|
      invariant Passthrough(results[i..]) == Passthrough(results)
    {
      assert results[i..][0] == results[i] && results[i..][1..] == results[i + 1..];
      if results[i].error == "" && Index(results[i].content, MARKER) >= 0 {
        return StripMarker(results[i].content);
      }
    }
    return "";
  }

  function Names(results: seq<ToolResult>): seq<string> {
    seq(|results|, i requires 0 <= i < |results| => results[i].name)
  }

  function ToolMessage(tr: ToolResult): Message {
    var content := if tr.error != "" then "Error: " + tr.error else tr.content;
    Message(Tool, if Contains(content, MARKER) then StripMarker(content) else content)
  }

  function ToolMessages(results: seq<ToolResult>): seq<Message> {
    seq(|results|, i requires 0 <= i < |results| => ToolMessage(results[i]))
  }

  /** captureDeliverable: non-empty texts, separated by a blank line. */
  function Captured(deliverable: string, content: string): string {
    if content == "" then deliverable
    else if deliverable == "" then content
    else deliverable + "\n\n" + content
  }

  /** The tools without repetition, in the order of their first use. */
  function Unique(tools: seq<string>): (r: seq<string>)
    ensures forall t :: t in r <==> t in tools
    ensures forall i, j :: 0 <= i < j < |r| ==> r[i] != r[j]
  {
    if tools == [] then []
    else
      var before := Unique(tools[..|tools| - 1]);
      var t := tools[|tools| - 1];
      if t in tools[..|tools| - 1] then before else before + [t]
  }

  function Bullets(tools: seq<string>): string {
    if tools == [] then "" else Bullets(tools[..|tools| - 1]) + "- " + tools[|tools| - 1] + "\n"
  }

  /** The last three non-empty tool outputs, oldest first, each cut to 500. */
  function LastOutputs(messages: seq<Message>, n: nat): (r: seq<string>)
    ensures |r| <= n
  {
    if messages == [] || n == 0 then []
    else
      var m, before := messages[|messages| - 1], messages[..|messages| - 1];
      if m.role == Tool && m.content != "" then
        LastOutputs(before, n - 1)
        + [if |m.content| > 500 then m.content[..500] + "...(truncated)" else m.content]
      else LastOutputs(before, n)
  }

  function Fenced(outputs: seq<string>): string {
    if outputs == [] then ""
    else Fenced(outputs[..|outputs| - 1]) + "```\n" + outputs[|outputs| - 1] + "\n```\n\n"
  }

  /** The summary of what was tried. */
  function Synthesized(tools: seq<string>, messages: seq<Message>, rounds: nat): (r: string)
    ensures r != ""
  {
    var outputs := LastOutputs(messages, 3);
    "## 诊断中间结果（轮次耗尽）\n\n" + "已执行 " + Decimal(rounds) + " 轮工具调用，未能生成最终结论。\n\n"
    + "### 已收集的证据\n\n" + Bullets(Unique(tools))
    + (if outputs == [] then "" else "\n### 最近工具输出\n\n" + Fenced(outputs))
  }

  /** The newest assistant message with a text. */
  function LastAnswer(messages: seq<Message>): string {
    if messages == [] then ""
    else
      var m := messages[|messages| - 1];
      if m.role == Assistant && m.content != "" then m.content else LastAnswer(messages[..|messages| - 1])
  }

  method FindLastAnswer(messages: seq<Message>) returns (content: string)
    ensures content == LastAnswer(messages)
  {
    var i := |messages|;
    WholePrefix(messages);
    while i > 0
      invariant 0 <= i <= |messages| && LastAnswer(messages[..i]) == LastAnswer(messages)
    {
      PrefixStep(messages, i - 1);
      i := i - 1;
      if messages[i].role == Assistant && messages[i].content != "" {
        return messages[i].content;
      }
    }
    return "";
  }

  // ---------- One run ----------

  /** What the model is asked for in a run, one entry where each is asked.  A round's stream attempt, its fallback to
      a plain call and the retries count as one. */
  datatype Call = Primary | Recovery | Memory

  /** The state at the top of a turn. */
  datatype State = State(
    turn: nat, messages: seq<Message>, deliverable: string, tools: seq<string>,
    recoveries: nat, parseRetries: nat, calls: seq<Call>)

  datatype Exit = Answered | OnlyGhosts | PassedThrough | TurnsExhausted

  /** A run fails only when a round's call fails. */
  datatype Result =
    | Failed(tools: seq<string>, calls: seq<Call>)
    | Finished(content: string, tools: seq<string>, turnsUsed: int, exit: Exit, parseRetries: nat, calls: seq<Call>)

  datatype Outcome = Continue(state: State) | Stop(result: Result)

  /** A truncated answer with its continuation. */
  function Upgraded(resp: Response, continuation: Option<Response>): Response {
    match continuation
    case None => resp
    case Some(more) => more.(content := resp.content + more.content)
  }

  /** An answer and the state after it. */
  datatype Reply = Reply(response: Response, state: State)

  /** A truncated answer is continued by one more call, as long as the run may recover. */
  function Recovered(env: Env, cfg: Config, st: State, resp: Response): Reply {
    if resp.truncated && st.recoveries < cfg.maxRecoveries then
      Reply(Upgraded(resp, env.model(|st.calls|)),
            st.(recoveries := st.recoveries + 1, calls := st.calls + [Recovery]))
    else Reply(resp, st)
  }

  /** The memory round asks the model once more; its answer changes nothing here. */
  function MemoryRound(env: Env, messages: seq<Message>, calls: seq<Call>): seq<Call> {
    if env.wantsMemory(messages) then calls + [Memory] else calls
  }

  /** Both final rounds: with no tool calls at all, and with ghost calls only. */
  function Conclude(env: Env, st: State, resp: Response, exit: Exit): Result {
    var content := Captured(st.deliverable, resp.content);
    var filled :=
      if content == "" && st.tools != [] then Synthesized(st.tools, st.messages, st.turn + 1) else content;
    var warning := if exit == Answered then env.evidenceWarning(filled, st.tools) else "";
    Finished(if warning != "" then filled + "\n\n" + warning else filled, st.tools, st.turn + 1, exit,
             st.parseRetries, MemoryRound(env, st.messages + [Message(Assistant, resp.content)], st.calls))
  }

  function RunTools(env: Env, st: State, resp: Response, calls: seq<ToolCall>): Outcome {
    var deliverable := if OnlySideEffects(calls) then Captured(st.deliverable, resp.content) else st.deliverable;
    var results := env.results(st.turn);
    var messages := env.prepare(st.turn, st.messages + [Message(Assistant, resp.content)]) + ToolMessages(results);
    var tools := st.tools + Names(results);
    var report := Passthrough(env.rawResults(st.turn));
    if report != "" then
      Stop(Finished(report, tools, st.turn + 1, PassedThrough, st.parseRetries,
                    MemoryRound(env, messages, st.calls)))
    else
      Continue(st.(turn := st.turn + 1, messages := messages, deliverable := deliverable, tools := tools))
  }

  /** The turn is repeated with a corrective message. */
  function Again(env: Env, st: State, resp: Response, parseRetries: nat): Outcome {
    Continue(st.(turn := st.turn + 1, parseRetries := parseRetries,
                 messages := env.prepare(st.turn, st.messages + [Message(Assistant, resp.content)])
                             + [Message(User, "<system-reminder>")]))
  }

  /** What an answer leads to. */
  function Decide(env: Env, cfg: Config, st: State, resp: Response): Outcome {
    if resp.needRetry && st.parseRetries < MAX_PARSE_RETRIES then Again(env, st, resp, st.parseRetries + 1)
    else if resp.toolCalls == [] then Stop(Conclude(env, st, resp, Answered))
    else
      var calls := Valid(resp.toolCalls);
      if calls == [] then
        if st.turn < cfg.maxTurns - 1 && env.announcesCall(resp.content) then Again(env, st, resp, st.parseRetries)
        else Stop(Conclude(env, st, resp, OnlyGhosts))
      else RunTools(env, st, resp, calls)
  }

  /** The state after the round's own call was made. */
  function Asked(env: Env, st: State): State {
    st.(messages := env.topOfTurn(st.turn, st.messages), calls := st.calls + [Primary])
  }

  function Round(env: Env, cfg: Config, st: State): Outcome {
    match env.model(|st.calls|)
    case None => Stop(Failed(st.tools, st.calls + [Primary]))
    case Some(first) =>
      var reply := Recovered(env, cfg, Asked(env, st), first);
      Decide(env, cfg, reply.state, reply.response)
  }

  /** The turns are used up. */
  function Exhausted(env: Env, cfg: Config, st: State): Result {
    var answer := LastAnswer(st.messages);
    var rounds := if cfg.maxTurns < 0 then 0 else cfg.maxTurns;
    Finished(if answer == "" && st.tools != [] then Synthesized(st.tools, st.messages, rounds) else answer,
             st.tools, cfg.maxTurns, TurnsExhausted, st.parseRetries, MemoryRound(env, st.messages, st.calls))
  }

  function RunFrom(env: Env, cfg: Config, st: State): Result
    decreases cfg.maxTurns - st.turn
  {
    if st.turn >= cfg.maxTurns then Exhausted(env, cfg, st)
    else
      match Round(env, cfg, st)
      case Stop(result) => result
      case Continue(next) => RunFrom(env, cfg, next)
  }

  function Start(messages: seq<Message>): State {
    State(0, messages, "", [], 0, 0, [])
  }

  /** One turn; a `Stop` leaves the loop. */
  method RunRound(env: Env, cfg: Config, st: State) returns (out: Outcome)
    ensures out == Round(env, cfg, st)
  {
    hide Decide;
    var messages := env.topOfTurn(st.turn, st.messages);
    var answer := env.model(|st.calls|);
    var calls := st.calls + [Primary];
    if answer.None? {
      return Stop(Failed(st.tools, calls));
    }
    var resp, recoveries := answer.value, st.recoveries;
    if resp.truncated && recoveries < cfg.maxRecoveries {
      recoveries := recoveries + 1;
      resp := Upgraded(resp, env.model(|calls|));
      calls := calls + [Recovery];
    }
    out := HandleAnswer(env, cfg, st.(messages := messages, recoveries := recoveries, calls := calls), resp);
  }

  method HandleAnswer(env: Env, cfg: Config, st: State, resp: Response) returns (out: Outcome)
    ensures out == Decide(env, cfg, st, resp)
  {
    hide Conclude, RunTools, Again, Valid;
    if resp.needRetry && st.parseRetries < MAX_PARSE_RETRIES {
      return Again(env, st, resp, st.parseRetries + 1);
    }
    if |resp.toolCalls| == 0 {
      return Stop(Conclude(env, st, resp, Answered));
    }
    var calls := FilterGhosts(resp.toolCalls);
    if |calls| == 0 && st.turn < cfg.maxTurns - 1 && env.announcesCall(resp.content) {
      return Again(env, st, resp, st.parseRetries);
    }
    if |calls| == 0 {
      return Stop(Conclude(env, st, resp, OnlyGhosts));
    }
    out := ExecuteRound(env, st, resp, calls);
  }

  method CollectResults(results: seq<ToolResult>) returns (names: seq<string>, added: seq<Message>)
    ensures names == Names(results) && added == ToolMessages(results)
  {
    hide ToolMessage;
    names, added := [], [];
    for i := 0 to |results|
      invariant |names| == i && forall k :: 0 <= k < i ==> names[k] == results[k].name
      invariant |added| == i && forall k :: 0 <= k < i ==> added[k] == ToolMessage(results[k])
    {
      names := names + [results[i].name];
      added := added + [ToolMessage(results[i])];
    }
  }

  method ExecuteRound(env: Env, st: State, resp: Response, calls: seq<ToolCall>) returns (out: Outcome)
    ensures out == RunTools(env, st, resp, calls)
  {
    hide Passthrough, Names, ToolMessages, Captured;
    var deliverable := st.deliverable;
    var flush := ShouldFlushContent(calls);
    if flush {
      deliverable := Captured(deliverable, resp.content);
    }
    var messages := env.prepare(st.turn, st.messages + [Message(Assistant, resp.content)]);
    var report := FindPassthrough(env.rawResults(st.turn));
    var names, added := CollectResults(env.results(st.turn));
    var tools := st.tools + names;
    messages := messages + added;
    if report != "" {
      return Stop(Finished(report, tools, st.turn + 1, PassedThrough, st.parseRetries,
                           MemoryRound(env, messages, st.calls)));
    }
    return Continue(st.(turn := st.turn + 1, messages := messages, deliverable := deliverable, tools := tools));
  }

  /** The run ends for every environment, with the result that RunFrom specifies. */
  method Run(env: Env, cfg: Config, messages: seq<Message>) returns (result: Result)
    ensures result == RunFrom(env, cfg, Start(messages))
  {
    hide Round, Exhausted;
    var st := Start(messages);
    while st.turn < cfg.maxTurns
      invariant RunFrom(env, cfg, st) == RunFrom(env, cfg, Start(messages))
      decreases cfg.maxTurns - st.turn
    {
      RoundAdvances(env, cfg, st);
      var out := RunRound(env, cfg, st);
      if out.Stop? {
        return out.result;
      }
      st := out.state;
    }
    result := Exhausted(env, cfg, st);
  }

  lemma RoundAdvances(env: Env, cfg: Config, st: State)
    ensures Round(env, cfg, st).Continue? ==> Round(env, cfg, st).state.turn == st.turn + 1
  {
  }
}
