/** The dashboard's markdown renderer: a line-by-line state machine that writes HTML.

    The output is a list of tokens instead of a string.  Attributes are dropped, except for the number of a
    code block, which names the block and is the target of its copy button. */
module MarkdownHtml {
  import opened Text

  datatype Tag = H1 | H2 | H3 | P | Ul | Li | Table | Thead | Tbody | Tr | Th | Td | Pre | Code | Button | Div

  /** `id` is the code block number on Code and Button tags and 0 on all others. */
  datatype Token = Open(tag: Tag, id: nat) | Close(tag: Tag) | Text(text: string) | Newline | Br

  // ---------- Escaping ----------

  /** strings.ReplaceAll for a one-character pattern. */
  function ReplaceAll(s: string, c: char, rep: string): string {
    if s == "" then "" else (if s[0] == c then rep else [s[0]]) + ReplaceAll(s[1..], c, rep)
  }

  function EscapeAmp(s: string): string { ReplaceAll(s, '&', "&amp;") }

  function EscapeLt(s: string): string { ReplaceAll(s, '<', "&lt;") }

  function EscapeGt(s: string): string { ReplaceAll(s, '>', "&gt;") }

  function EscapeQuote(s: string): string { ReplaceAll(s, '\"', "&quot;") }

  function EscapeHTML(s: string): string {
    EscapeQuote(EscapeGt(EscapeLt(EscapeAmp(s))))
  }

  function EscapeChar(c: char): string {
    if c == '&' then "&amp;" else if c == '<' then "&lt;" else if c == '>' then "&gt;"
    else if c == '\"' then "&quot;" else [c]
  }

  /** Escaping in one pass. */
  function EscapeEach(s: string): string {
    if s == "" then "" else EscapeChar(s[0]) + EscapeEach(s[1..])
  }

  lemma ReplaceAllCons(x: char, s: string, c: char, rep: string)
    ensures ReplaceAll([x] + s, c, rep) == (if x == c then rep else [x]) + ReplaceAll(s, c, rep)
  {
    assert ([x] + s)[1..] == s;
  }

  lemma {:induction false} ReplaceAllConcat(a: string, b: string, c: char, rep: string)
    ensures ReplaceAll(a + b, c, rep) == ReplaceAll(a, c, rep) + ReplaceAll(b, c, rep)
  {
    if a == "" {
      assert a + b == b;
    } else {
      ReplaceAllConcat(a[1..], b, c, rep);
      ReplaceAllCons(a[0], a[1..] + b, c, rep);
      ConcatAssoc([a[0]], a[1..], b);
      ConcatAssoc(if a[0] == c then rep else [a[0]], ReplaceAll(a[1..], c, rep), ReplaceAll(b, c, rep));
      assert [a[0]] + a[1..] == a;
    }
  }

  lemma {:induction false} ReplaceAllAbsent(s: string, c: char, rep: string)
    requires c !in s
    ensures ReplaceAll(s, c, rep) == s
  {
    if s != "" {
      ReplaceAllAbsent(s[1..], c, rep);
    }
  }

  lemma ReplaceAllOne(x: char, c: char, rep: string)
    ensures ReplaceAll([x], c, rep) == if x == c then rep else [x]
  {
    assert [x][1..] == "";
    ConcatNil(if x == c then rep else [x]);
  }

  lemma LtPass(c: char)
    ensures EscapeLt([c]) == if c == '<' then "&lt;" else [c]
    ensures EscapeLt("&amp;") == "&amp;"
  {
    ReplaceAllOne(c, '<', "&lt;");
    ReplaceAllAbsent("&amp;", '<', "&lt;");
  }

  lemma GtPass(c: char)
    ensures EscapeGt([c]) == if c == '>' then "&gt;" else [c]
    ensures EscapeGt("&amp;") == "&amp;" && EscapeGt("&lt;") == "&lt;"
  {
    ReplaceAllOne(c, '>', "&gt;");
    ReplaceAllAbsent("&amp;", '>', "&gt;");
    ReplaceAllAbsent("&lt;", '>', "&gt;");
  }

  lemma QuotePass(c: char)
    ensures EscapeQuote([c]) == if c == '\"' then "&quot;" else [c]
    ensures EscapeQuote("&amp;") == "&amp;" && EscapeQuote("&lt;") == "&lt;" && EscapeQuote("&gt;") == "&gt;"
  {
    ReplaceAllOne(c, '\"', "&quot;");
    ReplaceAllAbsent("&amp;", '\"', "&quot;");
    ReplaceAllAbsent("&lt;", '\"', "&quot;");
    ReplaceAllAbsent("&gt;", '\"', "&quot;");
  }

  lemma EscapeHead(c: char)
    ensures EscapeHTML([c]) == EscapeChar(c)
  {
    ReplaceAllOne(c, '&', "&amp;");
    LtPass(c);
    GtPass(c);
    QuotePass(c);
  }

  lemma EscapeConcat(a: string, b: string)
    ensures EscapeHTML(a + b) == EscapeHTML(a) + EscapeHTML(b)
  {
    ReplaceAllConcat(a, b, '&', "&amp;");
    ReplaceAllConcat(EscapeAmp(a), EscapeAmp(b), '<', "&lt;");
    ReplaceAllConcat(EscapeLt(EscapeAmp(a)), EscapeLt(EscapeAmp(b)), '>', "&gt;");
    ReplaceAllConcat(EscapeGt(EscapeLt(EscapeAmp(a))), EscapeGt(EscapeLt(EscapeAmp(b))), '\"', "&quot;");
  }

  /** The four successive passes escape every character once: no pass touches what an earlier one wrote. */
  lemma {:induction false} EscapeIsOnePass(s: string)
    ensures EscapeHTML(s) == EscapeEach(s)
  {
    if s != "" {
      EscapeIsOnePass(s[1..]);
      EscapeHead(s[0]);
      EscapeConcat([s[0]], s[1..]);
      assert s == [s[0]] + s[1..];
    }
  }

  predicate Safe(s: string) {
    '<' !in s && '>' !in s && '\"' !in s
  }

  lemma {:induction false} EachIsSafe(s: string)
    ensures Safe(EscapeEach(s))
  {
    if s != "" {
      EachIsSafe(s[1..]);
    }
  }

  lemma EscapedIsSafe(s: string)
    ensures Safe(EscapeHTML(s))
  {
    EscapeIsOnePass(s);
    EachIsSafe(s);
  }

  lemma CodesDiffer(a: char, b: char, s: string, t: string)
    requires a != b
    ensures EscapeChar(a) + s != EscapeChar(b) + t
  {
    var x, y := EscapeChar(a) + s, EscapeChar(b) + t;
    assert x[0] == EscapeChar(a)[0] && y[0] == EscapeChar(b)[0];
    if |EscapeChar(a)| > 1 && |EscapeChar(b)| > 1 {
      assert x[1] == EscapeChar(a)[1] && y[1] == EscapeChar(b)[1];
    }
  }

  /** Escaping loses nothing: different texts stay different. */
  lemma {:induction false} EscapeIsInjective(a: string, b: string)
    requires a != b
    ensures EscapeHTML(a) != EscapeHTML(b)
  {
    EscapeIsOnePass(a);
    EscapeIsOnePass(b);
    EachIsInjective(a, b);
  }

  lemma {:induction false} EachIsInjective(a: string, b: string)
    requires a != b
    ensures EscapeEach(a) != EscapeEach(b)
  {
    if a != "" && b != "" {
      if a[0] != b[0] {
        CodesDiffer(a[0], b[0], EscapeEach(a[1..]), EscapeEach(b[1..]));
      } else {
        assert a == [a[0]] + a[1..] && b == [b[0]] + b[1..];
        EachIsInjective(a[1..], b[1..]);
        PrefixCancels(EscapeChar(a[0]), EscapeEach(a[1..]), EscapeEach(b[1..]));
      }
    }
  }

  // ---------- Classification of lines ----------

  predicate IsListItem(line: string) {
    "- " <= line || "* " <= line
  }

  predicate IsSeparatorRow(line: string) {
    Trim(ReplaceAll(ReplaceAll(ReplaceAll(line, '|', ""), '-', ""), ':', "")) == ""
  }

  predicate IsFence(trimmed: string) {
    "```" <= trimmed
  }

  /** Whether the language of an opening fence folds to "sql" under Unicode case folding, which also maps the
      long s to s. */
  predicate IsSqlFence(trimmed: string) {
    IsFence(trimmed) &&
    var lang := Trim(trimmed[3..]);
    |lang| == 3 && lang[0] in {'s', 'S', '\U{17F}'} && lang[1] in {'q', 'Q'} && lang[2] in {'l', 'L'}
  }

  function TrimLeftMarkers(s: string): string {
    if s != "" && s[0] in {'-', '*', ' '} then TrimLeftMarkers(s[1..]) else s
  }

  // ---------- Rendering ----------

  function Elem(tag: Tag, text: string): seq<Token> {
    [Open(tag, 0), Text(EscapeHTML(text)), Close(tag)]
  }

  /** An open row with the non-empty cells. */
  function OpenRow(cells: seq<string>, tag: Tag): seq<Token> {
    if cells == [] then [Open(Tr, 0)]
    else
      var row, trimmed := OpenRow(cells[..|cells| - 1], tag), Trim(cells[|cells| - 1]);
      if trimmed == "" then row else row + Elem(tag, trimmed)
  }

  function TableRow(line: string, tag: Tag): seq<Token> {
    OpenRow(Split(line, '|'), tag) + [Close(Tr), Newline]
  }

  method RenderTableRow(line: string, tag: Tag) returns (out: seq<Token>)
    ensures out == TableRow(line, tag)
  {
    var cells := Split(line, '|');
    out := [Open(Tr, 0)];
    for i := 0 to |cells|
      invariant out == OpenRow(cells[..i], tag)
    {
      PrefixStep(cells, i);
      var trimmed := Trim(cells[i]);
      if trimmed == "" {
        continue;
      }
      out := out + Elem(tag, trimmed);
    }
    WholePrefix(cells);
    out := out + [Close(Tr), Newline];
  }

  datatype State = State(inCode: bool, inTable: bool, inList: bool, blockId: nat)

  /** The state after some lines and the tokens they emitted. */
  datatype Emitted = Emitted(st: State, out: seq<Token>)

  const START := State(false, false, false, 0)

  const CLOSE_CODE: seq<Token> := [Close(Code), Close(Pre), Newline]
  const CLOSE_TABLE: seq<Token> := [Close(Tbody), Close(Table), Newline]
  const CLOSE_LIST: seq<Token> := [Close(Ul), Newline]

  function OpenFence(sql: bool, id: nat): seq<Token> {
    (if sql then [Open(Div, 0), Open(Button, id), Text("Copy"), Close(Button)] else [])
    + [Open(Pre, 0), Open(Code, id)]
  }

  /** A line outside code blocks, once the list or table it does not continue was closed. */
  function RenderBlock(st: State, trimmed: string): Emitted {
    if "### " <= trimmed then Emitted(st, Elem(H3, trimmed[4..]) + [Newline])
    else if "## " <= trimmed then Emitted(st, Elem(H2, trimmed[3..]) + [Newline])
    else if "# " <= trimmed then Emitted(st, Elem(H1, trimmed[2..]) + [Newline])
    else if "|" <= trimmed then
      if IsSeparatorRow(trimmed) then Emitted(st, [])
      else if !st.inTable then
        Emitted(st.(inTable := true),
         [Open(Table, 0), Open(Thead, 0)] + TableRow(trimmed, Th) + [Close(Thead), Open(Tbody, 0), Newline])
      else Emitted(st, TableRow(trimmed, Td))
    else if IsListItem(trimmed) then
      Emitted(st.(inList := true),
       (if st.inList then [] else [Open(Ul, 0), Newline]) + (Elem(Li, TrimLeftMarkers(trimmed)) + [Newline]))
    else if trimmed == "" then Emitted(st, [Br, Newline])
    else Emitted(st, Elem(P, trimmed) + [Newline])
  }

  /** Closes the list or table that the line does not continue. */
  function Closing(st: State, trimmed: string): Emitted {
    var endList := st.inList && !IsListItem(trimmed);
    var endTable := st.inTable && !("|" <= trimmed);
    Emitted(st.(inList := st.inList && !endList, inTable := st.inTable && !endTable),
     (if endList then CLOSE_LIST else []) + (if endTable then CLOSE_TABLE else []))
  }

  function RenderLine(st: State, line: string): Emitted {
    var trimmed := Trim(line);
    if IsFence(trimmed) then
      if st.inCode then Emitted(st.(inCode := false), CLOSE_CODE)
      else Emitted(st.(inCode := true, blockId := st.blockId + 1), OpenFence(IsSqlFence(trimmed), st.blockId + 1))
    else if st.inCode then Emitted(st, [Text(EscapeHTML(line)), Newline])
    else
      var Emitted(st1, closing) := Closing(st, trimmed);
      var Emitted(st2, body) := RenderBlock(st1, trimmed);
      Emitted(st2, closing + body)
  }

  function RenderLines(lines: seq<string>): Emitted {
    if lines == [] then Emitted(START, [])
    else
      var Emitted(st, out) := RenderLines(lines[..|lines| - 1]);
      var Emitted(st', more) := RenderLine(st, lines[|lines| - 1]);
      Emitted(st', out + more)
  }

  function Finish(st: State): seq<Token> {
    (if st.inCode then CLOSE_CODE else []) + (if st.inTable then CLOSE_TABLE else [])
    + (if st.inList then CLOSE_LIST else [])
  }

  function Render(md: string): seq<Token> {
    var body := RenderLines(Split(md, '\n'));
    body.out + Finish(body.st)
  }

  /** The part of the loop body that closes the list or table the line does not continue. */
  method CloseBlocks(inTable: bool, inList: bool, trimmed: string, ghost st: State)
    returns (out: seq<Token>, inTable': bool, inList': bool)
    requires inTable == st.inTable && inList == st.inList
    ensures Emitted(st.(inTable := inTable', inList := inList'), out) == Closing(st, trimmed)
  {
    out, inTable', inList' := [], inTable, inList;
    if inList && !IsListItem(trimmed) {
      out := CLOSE_LIST;
      inList' := false;
    }
    ConcatNil(out);
    if inTable && !("|" <= trimmed) {
      out := out + CLOSE_TABLE;
      inTable' := false;
    }
  }

  /** The part of the loop body that handles a line outside code blocks. */
  method WriteBlock(inTable: bool, inList: bool, trimmed: string, ghost st: State)
    returns (out: seq<Token>, inTable': bool, inList': bool)
    requires inTable == st.inTable && inList == st.inList
    ensures Emitted(st.(inTable := inTable', inList := inList'), out) == RenderBlock(st, trimmed)
  {
    inTable', inList' := inTable, inList;
    if "### " <= trimmed {
      out := Elem(H3, trimmed[4..]) + [Newline];
    } else if "## " <= trimmed {
      out := Elem(H2, trimmed[3..]) + [Newline];
    } else if "# " <= trimmed {
      out := Elem(H1, trimmed[2..]) + [Newline];
    } else if "|" <= trimmed {
      if IsSeparatorRow(trimmed) {
        out := [];
      } else if !inTable {
        var header := RenderTableRow(trimmed, Th);
        out := [Open(Table, 0), Open(Thead, 0)] + header + [Close(Thead), Open(Tbody, 0), Newline];
        inTable' := true;
      } else {
        out := RenderTableRow(trimmed, Td);
      }
    } else if IsListItem(trimmed) {
      out := if inList then [] else [Open(Ul, 0), Newline];
      inList' := true;
      out := out + (Elem(Li, TrimLeftMarkers(trimmed)) + [Newline]);
    } else if trimmed == "" {
      out := [Br, Newline];
    } else {
      out := Elem(P, trimmed) + [Newline];
    }
  }

  /** The loop body, on the flags and the code block counter. */
  method WriteLine(line: string, inCode: bool, inTable: bool, inList: bool, id: nat)
    returns (out: seq<Token>, inCode': bool, inTable': bool, inList': bool, id': nat)
    ensures var r := RenderLine(State(inCode, inTable, inList, id), line);
            r.st == State(inCode', inTable', inList', id') && r.out == out
  {
    hide Trim, IsFence, IsSqlFence, EscapeHTML, OpenFence, Closing, RenderBlock;
    inCode', inTable', inList', id' := inCode, inTable, inList, id;
    var trimmed := Trim(line);
    if IsFence(trimmed) {
      if inCode {
        inCode' := false;
        out := CLOSE_CODE;
      } else {
        inCode' := true;
        id' := id + 1;
        out := OpenFence(IsSqlFence(trimmed), id');
      }
      return;
    }
    if inCode {
      out := [Text(EscapeHTML(line)), Newline];
      return;
    }
    var closing, inTable1, inList1 := CloseBlocks(inTable, inList, trimmed, State(inCode, inTable, inList, id));
    var body;
    body, inTable', inList' := WriteBlock(inTable1, inList1, trimmed, State(inCode, inTable1, inList1, id));
    out := closing + body;
  }

  /** The code after the loop. */
  method WriteEnd(inCode: bool, inTable: bool, inList: bool, ghost st: State) returns (out: seq<Token>)
    requires inCode == st.inCode && inTable == st.inTable && inList == st.inList
    ensures out == Finish(st)
  {
    out := [];
    if inCode {
      out := CLOSE_CODE;
    }
    ConcatNil(out);
    if inTable {
      out := out + CLOSE_TABLE;
    }
    ConcatNil(out);
    if inList {
      out := out + CLOSE_LIST;
    }
  }

  lemma RenderLinesStep(lines: seq<string>, i: nat)
    requires i < |lines|
    ensures var before := RenderLines(lines[..i]);
            var after := RenderLines(lines[..i + 1]);
            var step := RenderLine(before.st, lines[i]);
            after.st == step.st && after.out == before.out + step.out
  {
    PrefixStep(lines, i);
  }

  /** The loop. */
  method WriteLines(lines: seq<string>)
    returns (out: seq<Token>, inCodeBlock: bool, inTable: bool, inList: bool, codeBlockID: nat)
    ensures RenderLines(lines).st == State(inCodeBlock, inTable, inList, codeBlockID)
    ensures RenderLines(lines).out == out
  {
    out, inCodeBlock, inTable, inList, codeBlockID := [], false, false, false, 0;
    for i := 0 to |lines|
      invariant RenderLines(lines[..i]).st == State(inCodeBlock, inTable, inList, codeBlockID)
      invariant RenderLines(lines[..i]).out == out
    {
      RenderLinesStep(lines, i);
      var more;
      more, inCodeBlock, inTable, inList, codeBlockID :=
        WriteLine(lines[i], inCodeBlock, inTable, inList, codeBlockID);
      out := out + more;
    }
    WholePrefix(lines);
  }

  method MarkdownToHTML(md: string) returns (out: seq<Token>)
    ensures out == Render(md)
  {
    var inCodeBlock, inTable, inList, codeBlockID;
    out, inCodeBlock, inTable, inList, codeBlockID := WriteLines(Split(md, '\n'));
    var end := WriteEnd(inCodeBlock, inTable, inList, State(inCodeBlock, inTable, inList, codeBlockID));
    out := out + end;
  }
}
