/** What a run returns, told from what the model and the tools answered, turn by turn: the reference against which the
    engine's loop is proved. */
module EngineTranscript {
  import opened Text
  import opened Provider
  import opened EngineRun
  import opened EngineAccounting

  // ---------- The turns ----------

  datatype Kind = Failure | Retry | Answer | Nudge | Ghosts | Report | Tools

  /** What a turn came to, what the model wrote in it, and whether it called memory tools only. */
  datatype Turn = Turn(kind: Kind, text: string, captured: bool)

  predicate IsGhost(tc: ToolCall) {
    tc.id == "" || tc.name == ""
  }

  predicate Calls(calls: seq<ToolCall>) {
    exists i :: 0 <= i < |calls| && !IsGhost(calls[i])
  }

  predicate CallsMemoryOnly(calls: seq<ToolCall>) {
    forall i :: 0 <= i < |calls| && !IsGhost(calls[i]) ==>
      calls[i].name == "memory_write" || calls[i].name == "memory_update"
  }

  /** A truncated answer is continued by one more call, if the run may recover. */
  predicate Continues(cfg: Config, first: Response, recoveries: nat) {
    first.truncated && recoveries < cfg.maxRecoveries
  }

  /** The answer in which the tool calls are found: the continuation's, if there is one. */
  function Final(env: Env, cfg: Config, n: nat, first: Response, recoveries: nat): Response {
    if Continues(cfg, first, recoveries) && env.model(n + 1).Some? then env.model(n + 1).value else first
  }

  function Written(env: Env, cfg: Config, n: nat, first: Response, recoveries: nat): string {
    if Continues(cfg, first, recoveries) && env.model(n + 1).Some?
    then first.content + env.model(n + 1).value.content
    else first.content
  }

  /** The turn that begins with the n-th call of the model. */
  function TurnAt(env: Env, cfg: Config, turn: nat, n: nat, recoveries: nat, retries: nat): Turn {
    match env.model(n)
    case None => Turn(Failure, "", false)
    case Some(first) =>
      var resp, text := Final(env, cfg, n, first, recoveries), Written(env, cfg, n, first, recoveries);
      var kind :=
        if resp.needRetry && retries < 2 then Retry
        else if resp.toolCalls == [] then Answer
        else if !Calls(resp.toolCalls) then if turn + 1 < cfg.maxTurns && env.announcesCall(text) then Nudge else Ghosts
        else if Passthrough(env.rawResults(turn)) != "" then Report
        else Tools;
      Turn(kind, text, (kind.Tools? || kind.Report?) && CallsMemoryOnly(resp.toolCalls))
  }

  predicate GoesOn(kind: Kind) {
    kind.Retry? || kind.Nudge? || kind.Tools?
  }

  function CallsMade(env: Env, cfg: Config, n: nat, recoveries: nat): nat {
    if env.model(n).Some? && Continues(cfg, env.model(n).value, recoveries) then 2 else 1
  }

  function Transcript(env: Env, cfg: Config, turn: nat, n: nat, recoveries: nat, retries: nat): seq<Turn>
    decreases cfg.maxTurns - turn
  {
    if turn >= cfg.maxTurns then []
    else
      var t := TurnAt(env, cfg, turn, n, recoveries, retries);
      var made := CallsMade(env, cfg, n, recoveries);
      if GoesOn(t.kind) then
        [t] + Transcript(env, cfg, turn + 1, n + made, recoveries + made - 1,
                         retries + if t.kind.Retry? then 1 else 0)
      else [t]
  }

  function From(env: Env, cfg: Config, st: State): seq<Turn> {
    Transcript(env, cfg, st.turn, |st.calls|, st.recoveries, st.parseRetries)
  }

  // ---------- What the turns say together ----------

  /** Texts with a blank line between them. */
  function Glue(parts: seq<string>): string {
    if |parts| == 0 then "" else if |parts| == 1 then parts[0]
    else Glue(parts[..|parts| - 1]) + "\n\n" + parts[|parts| - 1]
  }

  function NonEmpty(text: string): seq<string> {
    if text == "" then [] else [text]
  }

  /** The captured texts that are not empty, in order. */
  function CapturedTexts(ts: seq<Turn>): seq<string> {
    if ts == [] then []
    else (if ts[0].captured then NonEmpty(ts[0].text) else []) + CapturedTexts(ts[1..])
  }

  /** The names in the tool results of the turns, from the given turn on. */
  function ToolsRun(env: Env, turn: nat, ts: seq<Turn>): seq<string>
    decreases |ts|
  {
    if ts == [] then []
    else
      (if ts[0].kind.Tools? || ts[0].kind.Report? then NamesIn(env.results(turn)) else [])
      + ToolsRun(env, turn + 1, ts[1..])
  }

  function NamesIn(results: seq<ToolResult>): (names: seq<string>)
    ensures |names| == |results| && forall i :: 0 <= i < |names| ==> names[i] == results[i].name
  {
    if results == [] then [] else [results[0].name] + NamesIn(results[1..])
  }

  /** The last text that is not empty, or `before`. */
  function LastWritten(before: string, ts: seq<Turn>): string
    decreases |ts|
  {
    if ts == [] then before else LastWritten(if ts[0].text != "" then ts[0].text else before, ts[1..])
  }

  function LastKind(ts: seq<Turn>): Kind {
    if ts == [] then Tools else ts[|ts| - 1].kind
  }

  function ExitOf(kind: Kind): Exit {
    match kind
    case Answer => Answered
    case Ghosts => OnlyGhosts
    case Report => PassedThrough
    case _ => TurnsExhausted
  }

  /** An answer with the warning about its evidence, if there is one. */
  function Warned(env: Env, kind: Kind, tools: seq<string>, text: string): string {
    var warning := env.evidenceWarning(text, tools);
    if kind.Answer? && warning != "" then text + "\n\n" + warning else text
  }

  // ---------- One round ----------

  lemma {:induction false} ValidIffCalls(calls: seq<ToolCall>)
    ensures Valid(calls) == [] <==> forall i :: 0 <= i < |calls| ==> IsGhost(calls[i])
    ensures OnlySideEffects(Valid(calls)) <==>
              forall i :: 0 <= i < |calls| && !IsGhost(calls[i]) ==> IsSideEffectTool(calls[i].name)
  {
    hide IsGhost, IsSideEffectTool;
    if calls == [] {
      SideEffectsNone();
    } else {
      hide Valid, OnlySideEffects;
      var n := |calls| - 1;
      ValidIffCalls(calls[..n]);
      ValidStep(calls);
      assert forall i :: 0 <= i < n ==> calls[..n][i] == calls[i];
    }
  }

  lemma SideEffectsNone()
    ensures Valid([]) == [] && OnlySideEffects(Valid([]))
  {
  }

  lemma ValidStep(calls: seq<ToolCall>)
    requires calls != []
    ensures var n := |calls| - 1;
            && (Valid(calls) == [] <==> Valid(calls[..n]) == [] && IsGhost(calls[n]))
            && (OnlySideEffects(Valid(calls)) <==>
                  OnlySideEffects(Valid(calls[..n])) && (!IsGhost(calls[n]) ==> IsSideEffectTool(calls[n].name)))
  {
    var n := |calls| - 1;
    var more := if IsGhost(calls[n]) then [] else [calls[n]];
    assert Valid(calls) == Valid(calls[..n]) + more;
    hide Valid, OnlySideEffects;
    SideEffectsOne(calls[n]);
    SideEffectsConcat(Valid(calls[..n]), more);
  }

  lemma SideEffectsOne(tc: ToolCall)
    ensures OnlySideEffects([tc]) == IsSideEffectTool(tc.name) && OnlySideEffects([])
  {
    assert [tc][0] == tc;
  }

  lemma SideEffectsConcat(a: seq<ToolCall>, b: seq<ToolCall>)
    ensures OnlySideEffects(a + b) <==> OnlySideEffects(a) && OnlySideEffects(b)
  {
    assert forall i :: 0 <= i < |a| ==> (a + b)[i] == a[i];
    assert forall i :: 0 <= i < |b| ==> (a + b)[|a| + i] == b[i];
  }

  lemma NamesAre(results: seq<ToolResult>)
    ensures Names(results) == NamesIn(results)
  {
  }

  /** The effect of a decision on the state, or the result it stops with. */
  lemma DecideIs(env: Env, cfg: Config, st: State, resp: Response, t: Turn)
    requires st.turn < cfg.maxTurns && t.text == resp.content
    requires t.kind == if resp.needRetry && st.parseRetries < 2 then Retry
                       else if resp.toolCalls == [] then Answer
                       else if !Calls(resp.toolCalls) then
                         if st.turn + 1 < cfg.maxTurns && env.announcesCall(t.text) then Nudge else Ghosts
                       else if Passthrough(env.rawResults(st.turn)) != "" then Report
                       else Tools
    requires t.captured == ((t.kind.Tools? || t.kind.Report?) && CallsMemoryOnly(resp.toolCalls))
    ensures match Decide(env, cfg, st, resp)
            case Continue(next) =>
              && GoesOn(t.kind) && next.turn == st.turn + 1 && next.calls == st.calls
              && next.recoveries == st.recoveries
              && next.parseRetries == st.parseRetries + (if t.kind.Retry? then 1 else 0)
              && next.tools == st.tools + (if t.kind.Tools? then NamesIn(env.results(st.turn)) else [])
              && next.deliverable == (if t.captured then Captured(st.deliverable, t.text) else st.deliverable)
            case Stop(r) =>
              && !GoesOn(t.kind) && !t.kind.Failure? && r.Finished? && r.exit == ExitOf(t.kind)
              && r.turnsUsed == st.turn + 1
              && r.tools == st.tools + (if t.kind.Report? then NamesIn(env.results(st.turn)) else [])
              && (t.kind.Report? ==> r.content == Passthrough(env.rawResults(st.turn)))
              && (IsAnswer(r) ==>
                    var full := Captured(st.deliverable, t.text);
                    && (full != "" || r.tools == [] ==> r.content == Warned(env, t.kind, r.tools, full))
                    && (full == "" && r.tools != [] ==>
                          r.content == Warned(env, t.kind, r.tools,
                                              Synthesized(r.tools, st.messages, st.turn + 1))))
  {
    hide Captured, Passthrough, Valid, Names, ToolMessages, Synthesized, MemoryRound, OnlySideEffects;
    ValidIffCalls(resp.toolCalls);
    NamesAre(env.results(st.turn));
    ConcatNil(st.tools);
    assert Calls(resp.toolCalls) <==> Valid(resp.toolCalls) != [];
    assert CallsMemoryOnly(resp.toolCalls) <==> OnlySideEffects(Valid(resp.toolCalls));
  }

  /** The state in which a round's answer is judged. */
  lemma RoundIs(env: Env, cfg: Config, st: State)
    requires st.turn < cfg.maxTurns
    ensures match env.model(|st.calls|)
            case None => Round(env, cfg, st).Stop? && Round(env, cfg, st).result == Failed(st.tools, st.calls + [Primary])
            case Some(first) =>
              var reply := Recovered(env, cfg, Asked(env, st), first);
              var made := CallsMade(env, cfg, |st.calls|, st.recoveries);
              && Round(env, cfg, st) == Decide(env, cfg, reply.state, reply.response)
              && reply.response == Final(env, cfg, |st.calls|, first, st.recoveries)
                                   .(content := Written(env, cfg, |st.calls|, first, st.recoveries))
              && |reply.state.calls| == |st.calls| + made && reply.state.recoveries == st.recoveries + made - 1
              && reply.state.turn == st.turn && reply.state.parseRetries == st.parseRetries
              && reply.state.tools == st.tools && reply.state.deliverable == st.deliverable
  {
    hide Decide;
  }

  // ---------- Captured text ----------

  predicate AllNonEmpty(parts: seq<string>) {
    forall i :: 0 <= i < |parts| ==> parts[i] != ""
  }

  lemma GlueIsEmptyIff(parts: seq<string>)
    requires AllNonEmpty(parts)
    ensures Glue(parts) == "" <==> parts == []
  {
  }

  lemma GlueSnoc(parts: seq<string>, text: string)
    requires AllNonEmpty(parts)
    ensures Captured(Glue(parts), text) == Glue(parts + NonEmpty(text)) && AllNonEmpty(parts + NonEmpty(text))
  {
    GlueIsEmptyIff(parts);
    if text == "" {
      ConcatNil(parts);
    } else if parts == [] {
      ConcatNil([text]);
    } else {
      SnocInit(parts, text);
    }
  }

  // ---------- The run ----------

  /** The summary of what was tried, for some state of the conversation. */
  ghost predicate IsSummary(env: Env, kind: Kind, tools: seq<string>, rounds: nat, content: string) {
    exists ms :: content == Warned(env, kind, tools, Synthesized(tools, ms, rounds))
  }

  /** How the result follows from the turns, the texts captured before them, and the tools run before them. */
  ghost predicate Returns(env: Env, cfg: Config, st: State, parts: seq<string>, ts: seq<Turn>, r: Result) {
    var kind := LastKind(ts);
    && (r.Failed? <==> kind.Failure?)
    && r.tools == st.tools + ToolsRun(env, st.turn, ts)
    && (r.Finished? ==>
          r.exit == ExitOf(kind) && r.turnsUsed == if GoesOn(kind) then cfg.maxTurns else st.turn + |ts|)
    && (kind.Report? ==> st.turn + |ts| >= 1 && r.content == Passthrough(env.rawResults(st.turn + |ts| - 1)))
    && ((kind.Answer? || kind.Ghosts?) && ts != [] ==>
          var full := Glue(parts + CapturedTexts(ts) + NonEmpty(ts[|ts| - 1].text));
          && (full != "" || r.tools == [] ==> r.content == Warned(env, kind, r.tools, full))
          && (full == "" && r.tools != [] ==> IsSummary(env, kind, r.tools, st.turn + |ts|, r.content)))
  }

  lemma OneTurnReturns(env: Env, cfg: Config, st: State, parts: seq<string>, t: Turn, r: Result, ms: seq<Message>)
    requires !GoesOn(t.kind) && !t.kind.Failure? && AllNonEmpty(parts) && st.deliverable == Glue(parts)
    requires t.captured ==> t.kind.Report?
    requires r.Finished? && r.exit == ExitOf(t.kind) && r.turnsUsed == st.turn + 1
    requires r.tools == st.tools + (if t.kind.Report? then NamesIn(env.results(st.turn)) else [])
    requires t.kind.Report? ==> r.content == Passthrough(env.rawResults(st.turn))
    requires !t.kind.Report? ==>
               var full := Captured(st.deliverable, t.text);
               && (full != "" || r.tools == [] ==> r.content == Warned(env, t.kind, r.tools, full))
               && (full == "" && r.tools != [] ==>
                     r.content == Warned(env, t.kind, r.tools, Synthesized(r.tools, ms, st.turn + 1)))
    ensures Returns(env, cfg, st, parts, [t], r)
  {
    hide Synthesized, Passthrough, Glue, Captured, Warned;
    OneTurn(env, st.turn, t);
    GlueSnoc(parts, t.text);
    ConcatNil(parts);
    if !t.kind.Report? && Captured(st.deliverable, t.text) == "" && r.tools != [] {
      assert IsSummary(env, t.kind, r.tools, st.turn + 1, r.content);
    }
  }

  lemma OneTurn(env: Env, turn: nat, t: Turn)
    requires !t.kind.Tools?
    ensures ToolsRun(env, turn, [t]) == if t.kind.Report? then NamesIn(env.results(turn)) else []
    ensures !t.captured ==> CapturedTexts([t]) == []
  {
    hide NamesIn;
    assert [t][1..] == [];
    ConcatNil(NamesIn(env.results(turn)));
  }

  lemma StoppedReturns(env: Env, cfg: Config, st: State, parts: seq<string>)
    requires st.turn < cfg.maxTurns && AllNonEmpty(parts) && st.deliverable == Glue(parts)
    requires Round(env, cfg, st).Stop?
    ensures From(env, cfg, st) == [TurnAt(env, cfg, st.turn, |st.calls|, st.recoveries, st.parseRetries)]
    ensures Returns(env, cfg, st, parts, From(env, cfg, st), Round(env, cfg, st).result)
  {
    hide Round, Decide, Synthesized, Passthrough, Calls, CallsMemoryOnly, Written, Final, Captured, Glue, Recovered;
    hide Returns;
    var t := TurnAt(env, cfg, st.turn, |st.calls|, st.recoveries, st.parseRetries);
    var r := Round(env, cfg, st).result;
    RoundIs(env, cfg, st);
    match env.model(|st.calls|)
    case None =>
      FailedReturns(env, cfg, st, parts, t);
    case Some(first) =>
      var reply := Recovered(env, cfg, Asked(env, st), first);
      DecideIs(env, cfg, reply.state, reply.response, t);
      OneTurnReturns(env, cfg, st, parts, t, r, reply.state.messages);
  }

  lemma FailedReturns(env: Env, cfg: Config, st: State, parts: seq<string>, t: Turn)
    requires t.kind.Failure? && !t.captured
    ensures Returns(env, cfg, st, parts, [t], Failed(st.tools, st.calls + [Primary]))
  {
    OneTurn(env, st.turn, t);
    ConcatNil(st.tools);
  }

  lemma ContinuedState(env: Env, cfg: Config, st: State, parts: seq<string>) returns (parts': seq<string>)
    requires st.turn < cfg.maxTurns && AllNonEmpty(parts) && st.deliverable == Glue(parts)
    requires Round(env, cfg, st).Continue?
    ensures var t := TurnAt(env, cfg, st.turn, |st.calls|, st.recoveries, st.parseRetries);
            var next := Round(env, cfg, st).state;
            && GoesOn(t.kind) && From(env, cfg, st) == [t] + From(env, cfg, next) && next.turn == st.turn + 1
            && next.tools == st.tools + (if t.kind.Tools? then NamesIn(env.results(st.turn)) else [])
            && AllNonEmpty(parts') && next.deliverable == Glue(parts')
            && parts' == parts + (if t.captured then NonEmpty(t.text) else [])
  {
    hide Round, Decide, Synthesized, Passthrough, Calls, CallsMemoryOnly, Written, Final, Captured, Glue, Recovered;
    var t := TurnAt(env, cfg, st.turn, |st.calls|, st.recoveries, st.parseRetries);
    RoundIs(env, cfg, st);
    var first := env.model(|st.calls|).value;
    var reply := Recovered(env, cfg, Asked(env, st), first);
    DecideIs(env, cfg, reply.state, reply.response, t);
    GlueSnoc(parts, t.text);
    ConcatNil(parts);
    parts' := parts + (if t.captured then NonEmpty(t.text) else []);
  }

  lemma ConsReturns(env: Env, cfg: Config, st: State, next: State, parts: seq<string>, parts': seq<string>,
                    t: Turn, ts: seq<Turn>, r: Result)
    requires GoesOn(t.kind) && next.turn == st.turn + 1
    requires next.tools == st.tools + (if t.kind.Tools? then NamesIn(env.results(st.turn)) else [])
    requires parts' == parts + (if t.captured then NonEmpty(t.text) else [])
    requires Returns(env, cfg, next, parts', ts, r)
    ensures Returns(env, cfg, st, parts, [t] + ts, r)
  {
    hide Synthesized, Passthrough, Glue;
    assert ([t] + ts)[1..] == ts;
    ConcatAssoc(parts, if t.captured then NonEmpty(t.text) else [], CapturedTexts(ts));
    ConcatAssoc(st.tools, if t.kind.Tools? then NamesIn(env.results(st.turn)) else [],
                ToolsRun(env, st.turn + 1, ts));
    if ts == [] {
      assert [t] + ts == [t];
    } else {
      assert ([t] + ts)[|[t] + ts| - 1] == ts[|ts| - 1];
    }
  }

  lemma {:induction false} RunReturns(env: Env, cfg: Config, st: State, parts: seq<string>)
    requires AllNonEmpty(parts) && st.deliverable == Glue(parts) && st.turn <= Turns(cfg)
    ensures Returns(env, cfg, st, parts, From(env, cfg, st), RunFrom(env, cfg, st))
    decreases cfg.maxTurns - st.turn
  {
    hide Round, Returns, TurnAt, Glue, Exhausted;
    if st.turn >= cfg.maxTurns {
      ExhaustedReturns(env, cfg, st, parts);
    } else if Round(env, cfg, st).Stop? {
      StoppedReturns(env, cfg, st, parts);
    } else {
      var next := Round(env, cfg, st).state;
      var parts' := ContinuedState(env, cfg, st, parts);
      RunReturns(env, cfg, next, parts');
      ConsReturns(env, cfg, st, next, parts, parts',
                  TurnAt(env, cfg, st.turn, |st.calls|, st.recoveries, st.parseRetries),
                  From(env, cfg, next), RunFrom(env, cfg, next));
    }
  }

  function Turns(cfg: Config): nat {
    if cfg.maxTurns < 0 then 0 else cfg.maxTurns
  }

  lemma ExhaustedReturns(env: Env, cfg: Config, st: State, parts: seq<string>)
    requires st.turn >= cfg.maxTurns && st.turn <= Turns(cfg)
    ensures From(env, cfg, st) == []
    ensures Returns(env, cfg, st, parts, [], Exhausted(env, cfg, st))
  {
    ConcatNil(st.tools);
  }

  // ---------- The last text ----------

  lemma {:induction false} LastWrittenIs(env: Env, cfg: Config, st: State)
    requires KeepsLastAnswer(env) && RunFrom(env, cfg, st).Finished?
    requires RunFrom(env, cfg, st).exit == TurnsExhausted
    ensures var r := RunFrom(env, cfg, st);
            var text := LastWritten(LastAnswer(st.messages), From(env, cfg, st));
            if text != "" || r.tools == [] then r.content == text
            else exists ms :: r.content == Synthesized(r.tools, ms, Turns(cfg))
    decreases cfg.maxTurns - st.turn
  {
    hide Round, TurnAt, LastAnswer, Synthesized, KeepsLastAnswer;
    if st.turn >= cfg.maxTurns {
      ExhaustedText(env, cfg, st);
    } else if Round(env, cfg, st).Stop? {
      StopExit(env, cfg, st);
    } else {
      var next := Round(env, cfg, st).state;
      NextText(env, cfg, st);
      LastWrittenIs(env, cfg, next);
    }
  }

  lemma ExhaustedText(env: Env, cfg: Config, st: State)
    ensures var r, text := Exhausted(env, cfg, st), LastAnswer(st.messages);
            if text != "" || st.tools == [] then r.content == text
            else exists ms :: r.content == Synthesized(st.tools, ms, Turns(cfg))
    ensures Exhausted(env, cfg, st).tools == st.tools
  {
    hide LastAnswer, Synthesized;
    var rounds := if cfg.maxTurns < 0 then 0 else cfg.maxTurns;
    assert rounds == Turns(cfg);
    if LastAnswer(st.messages) == "" && st.tools != [] {
      assert Exhausted(env, cfg, st).content == Synthesized(st.tools, st.messages, Turns(cfg));
    }
  }

  lemma NextText(env: Env, cfg: Config, st: State)
    requires KeepsLastAnswer(env) && st.turn < cfg.maxTurns && Round(env, cfg, st).Continue?
    ensures var t := TurnAt(env, cfg, st.turn, |st.calls|, st.recoveries, st.parseRetries);
            var next := Round(env, cfg, st).state;
            && next.turn == st.turn + 1
            && From(env, cfg, st)[0] == t && From(env, cfg, st)[1..] == From(env, cfg, next)
            && LastAnswer(next.messages) == if t.text != "" then t.text else LastAnswer(st.messages)
  {
    hide Round, Decide, LastAnswer, KeepsLastAnswer, Captured, Passthrough, Calls, CallsMemoryOnly;
    RoundSays(env, cfg, st);
    RoundAdvances(env, cfg, st);
    NextTurns(env, cfg, st);
    SaidIsWritten(env, cfg, st);
  }

  lemma NextTurns(env: Env, cfg: Config, st: State)
    requires st.turn < cfg.maxTurns && Round(env, cfg, st).Continue?
    ensures var t := TurnAt(env, cfg, st.turn, |st.calls|, st.recoveries, st.parseRetries);
            From(env, cfg, st) == [t] + From(env, cfg, Round(env, cfg, st).state)
  {
    hide Round, Decide, Synthesized, Passthrough, Calls, CallsMemoryOnly, Written, Final, Captured, Recovered;
    var t := TurnAt(env, cfg, st.turn, |st.calls|, st.recoveries, st.parseRetries);
    RoundIs(env, cfg, st);
    var reply := Recovered(env, cfg, Asked(env, st), env.model(|st.calls|).value);
    DecideIs(env, cfg, reply.state, reply.response, t);
  }

  lemma SaidIsWritten(env: Env, cfg: Config, st: State)
    requires st.turn < cfg.maxTurns && Round(env, cfg, st).Continue?
    ensures SaidIn(env, cfg, st).text == TurnAt(env, cfg, st.turn, |st.calls|, st.recoveries, st.parseRetries).text
  {
    hide Round, Decide, Passthrough, Calls, CallsMemoryOnly, Captures, Written, Final;
    RoundIs(env, cfg, st);
  }

  // ---------- Main result ----------

  /** What every run returns, from the answers of the model and the tools alone.  A run fails exactly if a turn's own
      call fails.  It runs the tools of the turns in which a call that is no ghost was made, in order.  An answer is the
      captured texts and the last text, those that are not empty, with blank lines between them, followed by the warning
      about evidence if there is one; only if all these texts are empty the summary of the tools stands in.  A report is
      returned as it was passed through, and a run that used up its turns returns the last text that was written. */
  lemma RunIsTranscript(env: Env, cfg: Config, messages: seq<Message>)
    ensures var ts, r := Transcript(env, cfg, 0, 0, 0, 0), RunFrom(env, cfg, Start(messages));
            var kind := LastKind(ts);
            && (r.Failed? <==> kind.Failure?) && r.tools == ToolsRun(env, 0, ts)
            && (r.Finished? ==> r.exit == ExitOf(kind))
            && (kind.Report? ==> r.content == Passthrough(env.rawResults(|ts| - 1)))
            && (kind.Answer? || kind.Ghosts? ==>
                  var full := Glue(CapturedTexts(ts) + NonEmpty(ts[|ts| - 1].text));
                  && (full != "" || r.tools == [] ==> r.content == Warned(env, kind, r.tools, full))
                  && (full == "" && r.tools != [] ==> IsSummary(env, kind, r.tools, |ts|, r.content)))
            && (r.Finished? && r.exit == TurnsExhausted && KeepsLastAnswer(env) ==>
                  var text := LastWritten(LastAnswer(messages), ts);
                  text != "" || r.tools == [] ==> r.content == text)
  {
    hide RunFrom, Transcript, KeepsLastAnswer, Synthesized, LastAnswer, Passthrough, IsSummary, Glue;
    var st := Start(messages);
    GlueNothing();
    RunReturns(env, cfg, st, []);
    var ts := From(env, cfg, st);
    ConcatNil(ToolsRun(env, 0, ts));
    ConcatNil(CapturedTexts(ts));
    var r := RunFrom(env, cfg, st);
    if r.Finished? && r.exit == TurnsExhausted && KeepsLastAnswer(env) {
      LastWrittenIs(env, cfg, st);
    }
  }

  lemma GlueNothing()
    ensures Glue([]) == "" && AllNonEmpty([])
  {
  }

  /** If nothing was captured, an answer without a warning is exactly what the model wrote last. */
  lemma PlainAnswer(env: Env, cfg: Config, messages: seq<Message>)
    requires var ts := Transcript(env, cfg, 0, 0, 0, 0);
             && ts != [] && (LastKind(ts).Answer? || LastKind(ts).Ghosts?)
             && CapturedTexts(ts) == [] && ts[|ts| - 1].text != ""
             && env.evidenceWarning(ts[|ts| - 1].text, ToolsRun(env, 0, ts)) == ""
    ensures var ts, r := Transcript(env, cfg, 0, 0, 0, 0), RunFrom(env, cfg, Start(messages));
            r.Finished? && r.content == ts[|ts| - 1].text
  {
    hide RunFrom, Transcript, KeepsLastAnswer, Synthesized, LastAnswer, Passthrough, IsSummary, ToolsRun;
    RunIsTranscript(env, cfg, messages);
    var text := Transcript(env, cfg, 0, 0, 0, 0)[|Transcript(env, cfg, 0, 0, 0, 0)| - 1].text;
    ConcatNil([text]);
    GlueOne(text);
  }

  lemma GlueOne(text: string)
    ensures Glue([text]) == text
  {
  }

  // ---------- The report that is passed through ----------

  predicate Marked(tr: ToolResult) {
    tr.error == "" && Contains(tr.content, "<!-- WDR_REPORT_BEGIN")
  }

  lemma {:induction false} PassthroughOfFirst(results: seq<ToolResult>, i: nat)
    requires i < |results| && Marked(results[i]) && forall k :: 0 <= k < i ==> !Marked(results[k])
    ensures Passthrough(results) == StripMarker(results[i].content)
  {
    hide StripMarker, Contains;
    if i > 0 {
      PassthroughOfFirst(results[1..], i - 1);
    }
  }

  lemma {:induction false} NoneMarked(results: seq<ToolResult>)
    requires forall k :: 0 <= k < |results| ==> !Marked(results[k])
    ensures Passthrough(results) == ""
  {
    hide StripMarker, Contains;
    if results != [] {
      NoneMarked(results[1..]);
    }
  }

  lemma {:induction false} TrimmedNewlines(s: string) returns (k: nat)
    ensures k <= |s| && s[k..] == TrimNewlines(s) && (forall i :: 0 <= i < k ==> s[i] == '\n')
    ensures TrimNewlines(s) != "" ==> TrimNewlines(s)[0] != '\n'
  {
    k := 0;
    if s != "" && s[0] == '\n' {
      k := TrimmedNewlines(s[1..]);
      k := k + 1;
    }
  }

  /** The report is what the text says before and behind its marker comment, without newlines at its beginning; it is
      the whole text if the comment is not closed. */
  lemma StrippedIs(content: string) returns (k: nat)
    requires Contains(content, "<!-- WDR_REPORT_BEGIN")
    ensures var a := Index(content, "<!-- WDR_REPORT_BEGIN");
            && 0 <= a <= |content|
            && (!Contains(content[a..], "-->") ==> StripMarker(content) == content)
            && (Contains(content[a..], "-->") ==>
                  var b := a + Index(content[a..], "-->") + 3;
                  && a <= b <= |content|
                  && var rest := content[..a] + content[b..];
                  && k <= |rest| && StripMarker(content) == rest[k..]
                  && (forall i :: 0 <= i < k ==> rest[i] == '\n')
                  && (StripMarker(content) != "" ==> StripMarker(content)[0] != '\n'))
  {
    hide Contains, TrimNewlines;
    k := 0;
    var a := Index(content, MARKER);
    var close := Index(content[a..], "-->");
    if close >= 0 {
      assert content[a..][close + 3..] == content[a + close + 3..];
      k := TrimmedNewlines(content[..a] + content[a + close + 3..]);
    }
  }

  // ---------- The summary ----------

  lemma {:induction false} BulletsList(tools: seq<string>, i: nat) returns (a: string, b: string)
    requires i < |tools|
    ensures Bullets(tools) == a + ("- " + tools[i] + "\n") + b
  {
    var n := |tools| - 1;
    if i == n {
      a, b := Bullets(tools[..n]), "";
      assert Bullets(tools) == a + ("- " + tools[i] + "\n") + "";
    } else {
      a, b := BulletsList(tools[..n], i);
      var line := "- " + tools[n] + "\n";
      assert Bullets(tools) == Bullets(tools[..n]) + line;
      b := b + line;
    }
  }

  /** The summary lists every tool that was run, on a line of its own, behind the number of rounds. */
  lemma SummaryListsTools(tools: seq<string>, messages: seq<Message>, rounds: nat, tool: string)
    returns (a: string, b: string)
    requires tool in tools
    ensures Synthesized(tools, messages, rounds) == a + ("- " + tool + "\n") + b
    ensures ("## 诊断中间结果（轮次耗尽）\n\n" + "已执行 " + Decimal(rounds)) <= a
  {
    hide Bullets, Fenced, LastOutputs, Decimal, Unique;
    var unique := Unique(tools);
    var i :| 0 <= i < |unique| && unique[i] == tool;
    var c, d := BulletsList(unique, i);
    var head := "## 诊断中间结果（轮次耗尽）\n\n" + "已执行 " + Decimal(rounds);
    var mid := " 轮工具调用，未能生成最终结论。\n\n" + "### 已收集的证据\n\n";
    var outputs := LastOutputs(messages, 3);
    var tail := if outputs == [] then "" else "\n### 最近工具输出\n\n" + Fenced(outputs);
    assert Synthesized(tools, messages, rounds) == head + mid + Bullets(unique) + tail;
    a, b := head + mid + c, d + tail;
    Regrouped(head, mid, c, "- " + tool + "\n", d, tail);
  }

  lemma {:induction false} FirstUses(tools: seq<string>, s: string, t: string, p: nat)
    returns (i: nat, j: nat)
    requires p < |tools| && tools[p] == s && t in tools && t !in tools[..p + 1]
    ensures var unique := Unique(tools); i < j < |unique| && unique[i] == s && unique[j] == t
  {
    var n := |tools| - 1;
    if t in tools[..n] {
      assert tools[..n][..p + 1] == tools[..p + 1];
      i, j := FirstUses(tools[..n], s, t, p);
    } else {
      assert s in tools[..n] && tools[n] == t;
      i :| 0 <= i < |Unique(tools[..n])| && Unique(tools[..n])[i] == s;
      j := |Unique(tools[..n])|;
    }
  }

  lemma {:induction false} BulletsPrefix(tools: seq<string>, j: nat)
    requires j <= |tools|
    ensures Bullets(tools[..j]) <= Bullets(tools)
  {
    if j == |tools| {
      WholePrefix(tools);
    } else {
      BulletsPrefix(tools[..|tools| - 1], j);
      assert tools[..|tools| - 1][..j] == tools[..j];
    }
  }

  /** The tools are listed in the order of their first use. */
  lemma SummaryKeepsOrder(tools: seq<string>, messages: seq<Message>, rounds: nat, s: string, t: string, p: nat)
    returns (a: string, b: string, c: string)
    requires p < |tools| && tools[p] == s && t in tools && t !in tools[..p + 1]
    ensures Synthesized(tools, messages, rounds) == a + ("- " + s + "\n") + b + ("- " + t + "\n") + c
  {
    hide Bullets, Fenced, LastOutputs, Decimal, Unique;
    var i, j := FirstUses(tools, s, t, p);
    var unique := Unique(tools);
    var a', b' := BulletsList(unique[..j], i);
    BulletsPrefix(unique, j + 1);
    PrefixStep(unique, j);
    BulletsStep(unique[..j + 1]);
    var lines := Bullets(unique);
    var c' := lines[|Bullets(unique[..j + 1])|..];
    var head := "## 诊断中间结果（轮次耗尽）\n\n" + "已执行 " + Decimal(rounds)
                + " 轮工具调用，未能生成最终结论。\n\n" + "### 已收集的证据\n\n";
    var outputs := LastOutputs(messages, 3);
    var tail := if outputs == [] then "" else "\n### 最近工具输出\n\n" + Fenced(outputs);
    assert Synthesized(tools, messages, rounds) == head + lines + tail;
    assert lines == (a' + ("- " + s + "\n") + b' + ("- " + t + "\n")) + c';
    a, b, c := head + a', b', c' + tail;
    Ordered(head, a', "- " + s + "\n", b', "- " + t + "\n", c', tail);
  }

  lemma BulletsStep(tools: seq<string>)
    requires tools != []
    ensures Bullets(tools) == Bullets(tools[..|tools| - 1]) + ("- " + tools[|tools| - 1] + "\n")
  {
  }

  lemma Ordered(head: string, a: string, s: string, b: string, t: string, c: string, tail: string)
    ensures head + ((a + s + b + t) + c) + tail == (head + a) + s + b + t + (c + tail)
  {
  }

  lemma Regrouped(head: string, mid: string, c: string, line: string, d: string, tail: string)
    ensures head + mid + (c + line + d) + tail == (head + mid + c) + line + (d + tail)
    ensures head <= head + mid + c
  {
  }

  // ---------- The outputs in the summary ----------

  /** The texts of the tools' messages that are not empty. */
  function ToolTexts(messages: seq<Message>): seq<string> {
    if messages == [] then []
    else
      (if messages[0].role == Tool && messages[0].content != "" then [messages[0].content] else [])
      + ToolTexts(messages[1..])
  }

  lemma {:induction false} ToolTextsSnoc(messages: seq<Message>, m: Message)
    ensures ToolTexts(messages + [m])
         == ToolTexts(messages) + (if m.role == Tool && m.content != "" then [m.content] else [])
  {
    if messages != [] {
      assert (messages + [m])[1..] == messages[1..] + [m];
      ToolTextsSnoc(messages[1..], m);
    }
  }

  /** The text, or its first 500 characters with a note that it was cut. */
  predicate IsExcerpt(excerpt: string, text: string) {
    if |text| <= 500 then excerpt == text
    else |excerpt| == 514 && excerpt[..500] == text[..500] && excerpt[500..] == "...(truncated)"
  }

  /** The summary shows the last n of the tools' texts, in their order, or all if there are fewer. */
  lemma {:induction false} OutputsAreTheLast(messages: seq<Message>, n: nat)
    ensures var outputs, texts := LastOutputs(messages, n), ToolTexts(messages);
            var k := if |texts| < n then |texts| else n;
            |outputs| == k && forall i :: 0 <= i < k ==> IsExcerpt(outputs[i], texts[|texts| - k + i])
  {
    if messages != [] && n > 0 {
      var before, m := messages[..|messages| - 1], messages[|messages| - 1];
      InitLast(messages);
      ToolTextsSnoc(before, m);
      OutputsAreTheLast(before, if m.role == Tool && m.content != "" then n - 1 else n);
    }
  }

  lemma {:induction false} FencedList(outputs: seq<string>, i: nat) returns (a: string, b: string)
    requires i < |outputs|
    ensures Fenced(outputs) == a + ("```\n" + outputs[i] + "\n```\n\n") + b
  {
    var n := |outputs| - 1;
    var block := "```\n" + outputs[n] + "\n```\n\n";
    assert Fenced(outputs) == Fenced(outputs[..n]) + block;
    if i == n {
      a, b := Fenced(outputs[..n]), "";
    } else {
      a, b := FencedList(outputs[..n], i);
      b := b + block;
    }
  }

  /** The summary shows each of the last three texts of the tools in a block of its own, or an excerpt of it. */
  lemma SummaryShowsOutputs(tools: seq<string>, messages: seq<Message>, rounds: nat, i: nat)
    returns (a: string, excerpt: string, b: string)
    requires var texts := ToolTexts(messages); i < |texts| && |texts| - i <= 3
    ensures Synthesized(tools, messages, rounds) == a + ("```\n" + excerpt + "\n```\n\n") + b
    ensures IsExcerpt(excerpt, ToolTexts(messages)[i])
  {
    hide Bullets, Fenced, LastOutputs, Decimal, Unique, ToolTexts, IsExcerpt;
    OutputsAreTheLast(messages, 3);
    var outputs, texts := LastOutputs(messages, 3), ToolTexts(messages);
    var k := if |texts| < 3 then |texts| else 3;
    var j := i - (|texts| - k);
    excerpt := outputs[j];
    var c, d := FencedList(outputs, j);
    var head := "## 诊断中间结果（轮次耗尽）\n\n" + "已执行 " + Decimal(rounds)
                + " 轮工具调用，未能生成最终结论。\n\n" + "### 已收集的证据\n\n";
    var list, title := Bullets(Unique(tools)), "\n### 最近工具输出\n\n";
    assert Synthesized(tools, messages, rounds) == head + list + (title + Fenced(outputs));
    a, b := head + list + title + c, d;
    Placed(head + list, title, c, "```\n" + excerpt + "\n```\n\n", d);
  }

  lemma Placed(head: string, title: string, c: string, block: string, d: string)
    ensures head + (title + (c + block + d)) == head + title + c + block + d
  {
  }

  // ---------- What the model is told of a tool ----------

  /** The model reads a tool's output, or its error behind a label, without a report's marker comment. */
  lemma ToolMessageSays(tr: ToolResult)
    ensures var m := ToolMessage(tr);
            var said := if tr.error == "" then tr.content else "Error: " + tr.error;
            && m.role == Tool
            && (!Contains(said, "<!-- WDR_REPORT_BEGIN") ==> m.content == said)
            && (Contains(said, "<!-- WDR_REPORT_BEGIN") ==> m.content == StripMarker(said))
  {
  }
}
