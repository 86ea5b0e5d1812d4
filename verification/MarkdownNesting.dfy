/** The HTML that the markdown renderer writes is well nested, safe to embed, and - except for the wrapper of
    SQL blocks - balanced. */
module MarkdownNesting {
  import opened Text
  import opened MarkdownHtml

  // ---------- Grammar ----------

  /** The open elements, outermost first, or Broken after a token the grammar does not allow. */
  datatype Nesting = Broken | At(stack: seq<Tag>)

  function Top(stack: seq<Tag>): Tag
    requires stack != []
  {
    stack[|stack| - 1]
  }

  predicate EndsIn(stack: seq<Tag>, a: Tag, b: Tag) {
    |stack| >= 2 && stack[|stack| - 2] == a && stack[|stack| - 1] == b
  }

  /** Which element may be opened where.  Fenced code may interrupt a list or a table body. */
  predicate MayOpen(stack: seq<Tag>, tag: Tag) {
    match tag
    case H1 | H2 | H3 | P | Ul | Table => stack == []
    case Li => stack != [] && Top(stack) == Ul
    case Thead | Tbody => stack != [] && Top(stack) == Table
    case Tr => stack != [] && Top(stack) in {Thead, Tbody}
    case Th => EndsIn(stack, Thead, Tr)
    case Td => EndsIn(stack, Tbody, Tr)
    case Pre | Button => stack == [] || stack == [Ul] || stack == [Table, Tbody]
    case Code => stack != [] && Top(stack) == Pre
    case Div => true
  }

  predicate MayHoldText(stack: seq<Tag>) {
    stack != [] && Top(stack) in {H1, H2, H3, P, Li, Th, Td, Code, Button}
  }

  /** One token; the wrapper Div of SQL blocks, which is never closed, is not tracked. */
  function Feed(n: Nesting, t: Token): Nesting {
    if n.Broken? then Broken
    else
      match t
      case Open(tag, _) => if tag == Div then n else if MayOpen(n.stack, tag) then At(n.stack + [tag]) else Broken
      case Close(tag) => if n.stack != [] && Top(n.stack) == tag then At(n.stack[..|n.stack| - 1]) else Broken
      case Text(_) => if MayHoldText(n.stack) then n else Broken
      case Newline => n
      case Br => if n.stack == [] then n else Broken
  }

  function FeedAll(n: Nesting, ts: seq<Token>): Nesting {
    if ts == [] then n else Feed(FeedAll(n, ts[..|ts| - 1]), ts[|ts| - 1])
  }

  lemma FeedSnoc(n: Nesting, ts: seq<Token>, t: Token)
    ensures FeedAll(n, ts + [t]) == Feed(FeedAll(n, ts), t)
  {
    SnocInit(ts, t);
  }

  lemma {:induction false} FeedConcat(n: Nesting, a: seq<Token>, b: seq<Token>)
    ensures FeedAll(n, a + b) == FeedAll(FeedAll(n, a), b)
  {
    if b == [] {
      ConcatNil(a);
    } else {
      FeedConcat(n, a, b[..|b| - 1]);
      ConcatAssoc(a, b[..|b| - 1], [b[|b| - 1]]);
      InitLast(b);
      FeedSnoc(n, a + b[..|b| - 1], b[|b| - 1]);
    }
  }

  lemma FeedOne(n: Nesting, x: Token)
    ensures FeedAll(n, [x]) == Feed(n, x)
  {
    assert [x][..0] == [];
  }

  lemma FeedTwo(n: Nesting, x: Token, y: Token)
    ensures FeedAll(n, [x, y]) == Feed(Feed(n, x), y)
  {
    FeedOne(n, x);
    FeedSnoc(n, [x], y);
    assert [x] + [y] == [x, y];
  }

  lemma FeedThree(n: Nesting, x: Token, y: Token, z: Token)
    ensures FeedAll(n, [x, y, z]) == Feed(Feed(Feed(n, x), y), z)
  {
    FeedTwo(n, x, y);
    FeedSnoc(n, [x, y], z);
    assert [x, y] + [z] == [x, y, z];
  }

  // ---------- Pieces ----------

  /** An element that holds only text. */
  lemma FeedLeaf(stack: seq<Tag>, tag: Tag, id: nat, text: string)
    requires MayOpen(stack, tag) && tag in {H1, H2, H3, P, Li, Th, Td, Button}
    ensures FeedAll(At(stack), [Open(tag, id), Text(text), Close(tag)]) == At(stack)
  {
    hide MayOpen, FeedAll;
    FeedThree(At(stack), Open(tag, id), Text(text), Close(tag));
    SnocInit(stack, tag);
  }

  lemma FeedElem(stack: seq<Tag>, tag: Tag, text: string)
    requires MayOpen(stack, tag) && tag in {H1, H2, H3, P, Li, Th, Td}
    ensures FeedAll(At(stack), Elem(tag, text)) == At(stack)
  {
    hide EscapeHTML, MayOpen, FeedAll;
    FeedLeaf(stack, tag, 0, EscapeHTML(text));
  }

  lemma FeedElemLine(stack: seq<Tag>, tag: Tag, text: string)
    requires MayOpen(stack, tag) && tag in {H1, H2, H3, P, Li}
    ensures FeedAll(At(stack), Elem(tag, text) + [Newline]) == At(stack)
  {
    FeedElem(stack, tag, text);
    FeedSnoc(At(stack), Elem(tag, text), Newline);
  }

  lemma {:induction false} FeedOpenRow(stack: seq<Tag>, cells: seq<string>, tag: Tag)
    requires MayOpen(stack, Tr) && MayOpen(stack + [Tr], tag) && tag in {Th, Td}
    ensures FeedAll(At(stack), OpenRow(cells, tag)) == At(stack + [Tr])
  {
    if cells == [] {
      FeedOne(At(stack), Open(Tr, 0));
    } else {
      var front, text := cells[..|cells| - 1], Trim(cells[|cells| - 1]);
      FeedOpenRow(stack, front, tag);
      FeedElem(stack + [Tr], tag, text);
      FeedConcat(At(stack), OpenRow(front, tag), Elem(tag, text));
    }
  }

  lemma FeedTableRow(stack: seq<Tag>, line: string, tag: Tag)
    requires MayOpen(stack, Tr) && MayOpen(stack + [Tr], tag) && tag in {Th, Td}
    ensures FeedAll(At(stack), TableRow(line, tag)) == At(stack)
  {
    hide Split, Trim, EscapeHTML, IsSeparatorRow, IsSqlFence, TrimLeftMarkers;
    var row := OpenRow(Split(line, '|'), tag);
    FeedOpenRow(stack, Split(line, '|'), tag);
    FeedConcat(At(stack), row, [Close(Tr), Newline]);
    FeedTwo(At(stack + [Tr]), Close(Tr), Newline);
    SnocInit(stack, Tr);
  }

  lemma FeedTableHead(line: string)
    ensures FeedAll(At([]), [Open(Table, 0), Open(Thead, 0)] + TableRow(line, Th)
                            + [Close(Thead), Open(Tbody, 0), Newline]) == At([Table, Tbody])
  {
    hide TableRow, FeedAll, Feed;
    var head, row := [Open(Table, 0), Open(Thead, 0)], TableRow(line, Th);
    var end := [Close(Thead), Open(Tbody, 0), Newline];
    FeedHeadStart();
    FeedHeadRow(line);
    FeedHeadEnd();
    FeedConcat(At([]), head, row);
    FeedConcat(At([]), head + row, end);
  }

  lemma FeedHeadStart()
    ensures FeedAll(At([]), [Open(Table, 0), Open(Thead, 0)]) == At([Table, Thead])
  {
    FeedTwo(At([]), Open(Table, 0), Open(Thead, 0));
    assert [] + [Table] == [Table] && [Table] + [Thead] == [Table, Thead];
  }

  lemma FeedHeadRow(line: string)
    ensures FeedAll(At([Table, Thead]), TableRow(line, Th)) == At([Table, Thead])
  {
    hide TableRow, FeedAll;
    FeedTableRow([Table, Thead], line, Th);
  }

  lemma FeedHeadEnd()
    ensures FeedAll(At([Table, Thead]), [Close(Thead), Open(Tbody, 0), Newline]) == At([Table, Tbody])
  {
    FeedThree(At([Table, Thead]), Close(Thead), Open(Tbody, 0), Newline);
    assert [Table, Thead][..1] == [Table] && [Table] + [Tbody] == [Table, Tbody];
  }

  lemma FeedClosers()
    ensures FeedAll(At([Table, Tbody]), CLOSE_TABLE) == At([])
    ensures FeedAll(At([Ul]), CLOSE_LIST) == At([])
    ensures FeedAll(At([]), [Open(Ul, 0), Newline]) == At([Ul])
  {
    FeedThree(At([Table, Tbody]), Close(Tbody), Close(Table), Newline);
    assert [Table, Tbody][..1] == [Table];
    FeedTwo(At([Ul]), Close(Ul), Newline);
    FeedTwo(At([]), Open(Ul, 0), Newline);
  }

  // ---------- The state machine keeps track of the open elements ----------

  /** The elements that are open between two lines. */
  function Around(st: State): seq<Tag> {
    if st.inTable then [Table, Tbody] else if st.inList then [Ul] else []
  }

  function Expected(st: State): Nesting {
    At(Around(st) + (if st.inCode then [Pre, Code] else []))
  }

  /** Fenced code may start between any two lines, and its flags leave the other open elements alone. */
  lemma AroundCode(st: State)
    ensures MayOpen(Around(st), Pre)
    ensures forall inCode, id :: Around(st.(inCode := inCode, blockId := id)) == Around(st)
  {
  }

  predicate Exclusive(st: State) {
    !(st.inTable && st.inList)
  }

  lemma FeedButton(stack: seq<Tag>, id: nat)
    requires MayOpen(stack, Button)
    ensures FeedAll(At(stack), [Open(Div, 0), Open(Button, id), Text("Copy"), Close(Button)]) == At(stack)
  {
    hide MayOpen, FeedAll;
    var leaf: seq<Token> := [Open(Button, id), Text("Copy"), Close(Button)];
    FeedOne(At(stack), Open(Div, 0));
    FeedLeaf(stack, Button, id, "Copy");
    FeedConcat(At(stack), [Open(Div, 0)], leaf);
    assert [Open(Div, 0)] + leaf == [Open(Div, 0), Open(Button, id), Text("Copy"), Close(Button)];
  }

  lemma FeedOpenFence(stack: seq<Tag>, sql: bool, id: nat)
    requires MayOpen(stack, Pre)
    ensures FeedAll(At(stack), OpenFence(sql, id)) == At(stack + [Pre, Code])
  {
    hide Split, Trim, EscapeHTML, IsSeparatorRow, IsSqlFence, TrimLeftMarkers;
    var button: seq<Token> := [Open(Div, 0), Open(Button, id), Text("Copy"), Close(Button)];
    FeedTwo(At(stack), Open(Pre, 0), Open(Code, id));
    assert stack + [Pre] + [Code] == stack + [Pre, Code];
    if sql {
      FeedButton(stack, id);
      FeedConcat(At(stack), button, [Open(Pre, 0), Open(Code, id)]);
    } else {
      ConcatNil<Token>([Open(Pre, 0), Open(Code, id)]);
    }
  }

  lemma FeedCodeLine(stack: seq<Tag>, text: string)
    ensures FeedAll(At(stack + [Pre, Code]), [Text(text), Newline]) == At(stack + [Pre, Code])
  {
    FeedTwo(At(stack + [Pre, Code]), Text(text), Newline);
  }

  lemma FeedCloseCode(stack: seq<Tag>)
    ensures FeedAll(At(stack + [Pre, Code]), CLOSE_CODE) == At(stack)
  {
    FeedThree(At(stack + [Pre, Code]), Close(Code), Close(Pre), Newline);
    assert (stack + [Pre, Code])[..|stack| + 1] == stack + [Pre];
    SnocInit(stack, Pre);
  }

  lemma FeedClosing(st: State, trimmed: string)
    requires Exclusive(st)
    ensures var c := Closing(st, trimmed);
            && Exclusive(c.st) && c.st.inCode == st.inCode
            && FeedAll(At(Around(st)), c.out) == At(Around(c.st))
            && (c.st.inList ==> IsListItem(trimmed)) && (c.st.inTable ==> "|" <= trimmed)
  {
    FeedClosers();
    ConcatNil(CLOSE_LIST);
    ConcatNil(CLOSE_TABLE);
  }

  lemma StartsDiffer(trimmed: string)
    ensures "# " <= trimmed || "## " <= trimmed || "### " <= trimmed ==> !IsListItem(trimmed) && !("|" <= trimmed)
    ensures "|" <= trimmed ==> !IsListItem(trimmed)
  {
    if trimmed != "" {
      assert trimmed[0] == trimmed[..1][0];
    }
  }

  lemma FeedBlock(st: State, trimmed: string)
    requires Exclusive(st)
    requires (st.inList ==> IsListItem(trimmed)) && (st.inTable ==> "|" <= trimmed)
    ensures var b := RenderBlock(st, trimmed);
            && Exclusive(b.st) && b.st.inCode == st.inCode
            && FeedAll(At(Around(st)), b.out) == At(Around(b.st))
  {
    hide Split, Trim, EscapeHTML, IsSeparatorRow, IsSqlFence, TrimLeftMarkers;
    StartsDiffer(trimmed);
    if "### " <= trimmed {
      FeedElemLine([], H3, trimmed[4..]);
    } else if "## " <= trimmed {
      FeedElemLine([], H2, trimmed[3..]);
    } else if "# " <= trimmed {
      FeedElemLine([], H1, trimmed[2..]);
    } else if "|" <= trimmed {
      if st.inTable {
        FeedTableRow([Table, Tbody], trimmed, Td);
      } else {
        FeedTableHead(trimmed);
      }
    } else if IsListItem(trimmed) {
      var item := Elem(Li, TrimLeftMarkers(trimmed)) + [Newline];
      FeedElemLine([Ul], Li, TrimLeftMarkers(trimmed));
      FeedClosers();
      FeedConcat(At([]), [Open(Ul, 0), Newline], item);
      ConcatNil(item);
    } else if trimmed == "" {
      FeedTwo(At([]), Br, Newline);
    } else {
      FeedElemLine([], P, trimmed);
    }
  }

  /** Every line keeps the flags in step with the open elements. */
  lemma FeedLine(st: State, line: string)
    requires Exclusive(st)
    ensures var r := RenderLine(st, line);
            Exclusive(r.st) && FeedAll(Expected(st), r.out) == Expected(r.st)
  {
    hide Split, Trim, EscapeHTML, IsFence, IsSqlFence, RenderBlock, Closing, Feed, FeedAll, Around, MayOpen;
    var trimmed := Trim(line);
    ConcatNil(Around(st));
    AroundCode(st);
    if IsFence(trimmed) {
      if st.inCode {
        FeedCloseCode(Around(st));
      } else {
        FeedOpenFence(Around(st), IsSqlFence(trimmed), st.blockId + 1);
      }
    } else if st.inCode {
      FeedCodeLine(Around(st), EscapeHTML(line));
    } else {
      var c := Closing(st, trimmed);
      var b := RenderBlock(c.st, trimmed);
      FeedClosing(st, trimmed);
      FeedBlock(c.st, trimmed);
      FeedConcat(At(Around(st)), c.out, b.out);
      ConcatNil(Around(b.st));
    }
  }

  lemma {:induction false} FeedLines(lines: seq<string>)
    ensures var r := RenderLines(lines);
            Exclusive(r.st) && FeedAll(At([]), r.out) == Expected(r.st)
  {
    if lines != [] {
      var before := RenderLines(lines[..|lines| - 1]);
      FeedLines(lines[..|lines| - 1]);
      FeedLine(before.st, lines[|lines| - 1]);
      FeedConcat(At([]), before.out, RenderLine(before.st, lines[|lines| - 1]).out);
    }
  }

  lemma FeedFinish(st: State)
    requires Exclusive(st)
    ensures FeedAll(Expected(st), Finish(st)) == At([])
  {
    var code := if st.inCode then CLOSE_CODE else [];
    var table := if st.inTable then CLOSE_TABLE else [];
    var list := if st.inList then CLOSE_LIST else [];
    ConcatNil(Around(st));
    FeedCloseCode(Around(st));
    FeedClosers();
    FeedConcat(Expected(st), code + table, list);
    FeedConcat(Expected(st), code, table);
  }

  /** For every document the tags nest according to the grammar and all are closed at the end; the flags for
      an open table and an open list are never set together, after any number of lines. */
  lemma RenderIsWellNested(md: string)
    ensures FeedAll(At([]), Render(md)) == At([])
    ensures forall i :: 0 <= i <= |Split(md, '\n')| ==> Exclusive(RenderLines(Split(md, '\n')[..i]).st)
  {
    var r := RenderLines(Split(md, '\n'));
    FeedLines(Split(md, '\n'));
    FeedFinish(r.st);
    FeedConcat(At([]), r.out, Finish(r.st));
    forall i | 0 <= i <= |Split(md, '\n')| ensures Exclusive(RenderLines(Split(md, '\n')[..i]).st) {
      FeedLines(Split(md, '\n')[..i]);
    }
  }

  // ---------- Text ----------

  predicate SafeToken(t: Token) {
    t.Text? ==> Safe(t.text)
  }

  predicate AllSafe(ts: seq<Token>) {
    forall i :: 0 <= i < |ts| ==> SafeToken(ts[i])
  }

  lemma {:induction false} OpenRowIsSafe(cells: seq<string>, tag: Tag)
    ensures AllSafe(OpenRow(cells, tag))
  {
    hide Split, Trim, EscapeHTML, IsSeparatorRow, IsSqlFence, TrimLeftMarkers;
    if cells != [] {
      OpenRowIsSafe(cells[..|cells| - 1], tag);
      EscapedIsSafe(Trim(cells[|cells| - 1]));
    }
  }

  lemma ElemIsSafe(tag: Tag, text: string)
    ensures AllSafe(Elem(tag, text))
  {
    EscapedIsSafe(text);
  }

  lemma BlockIsSafe(st: State, trimmed: string)
    ensures AllSafe(RenderBlock(st, trimmed).out)
  {
    hide Split, Trim, EscapeHTML, IsSeparatorRow, IsSqlFence, TrimLeftMarkers;
    if "### " <= trimmed {
      ElemIsSafe(H3, trimmed[4..]);
    } else if "## " <= trimmed {
      ElemIsSafe(H2, trimmed[3..]);
    } else if "# " <= trimmed {
      ElemIsSafe(H1, trimmed[2..]);
    } else if "|" <= trimmed {
      OpenRowIsSafe(Split(trimmed, '|'), Th);
      OpenRowIsSafe(Split(trimmed, '|'), Td);
    } else if IsListItem(trimmed) {
      ElemIsSafe(Li, TrimLeftMarkers(trimmed));
    } else {
      ElemIsSafe(P, trimmed);
    }
  }

  lemma LineIsSafe(st: State, line: string)
    ensures AllSafe(RenderLine(st, line).out)
  {
    hide Split, Trim, EscapeHTML, IsSeparatorRow, IsSqlFence, TrimLeftMarkers;
    EscapedIsSafe(line);
    BlockIsSafe(Closing(st, Trim(line)).st, Trim(line));
  }

  lemma {:induction false} LinesAreSafe(lines: seq<string>)
    ensures AllSafe(RenderLines(lines).out)
  {
    hide RenderLine, Split, Trim;
    if lines != [] {
      LinesAreSafe(lines[..|lines| - 1]);
      LineIsSafe(RenderLines(lines[..|lines| - 1]).st, lines[|lines| - 1]);
    }
  }

  /** No text of the document can open or close a tag or an attribute. */
  lemma RenderedTextIsSafe(md: string)
    ensures AllSafe(Render(md))
  {
    hide Split, Trim, EscapeHTML, IsSeparatorRow, IsSqlFence, TrimLeftMarkers;
    LinesAreSafe(Split(md, '\n'));
  }

  // ---------- The wrapper of SQL blocks ----------

  function OpenDivs(ts: seq<Token>): nat {
    if ts == [] then 0
    else
      var t := ts[|ts| - 1];
      OpenDivs(ts[..|ts| - 1]) + (if t.Open? && t.tag == Div then 1 else 0)
  }

  predicate NoDivs(ts: seq<Token>) {
    forall i :: 0 <= i < |ts| ==> !(ts[i].Open? && ts[i].tag == Div)
  }

  predicate ClosesNoDiv(ts: seq<Token>) {
    forall i :: 0 <= i < |ts| ==> !(ts[i].Close? && ts[i].tag == Div)
  }

  lemma {:induction false} OpenDivsConcat(a: seq<Token>, b: seq<Token>)
    ensures OpenDivs(a + b) == OpenDivs(a) + OpenDivs(b)
  {
    if b == [] {
      ConcatNil(a);
    } else {
      OpenDivsConcat(a, b[..|b| - 1]);
      ConcatAssoc(a, b[..|b| - 1], [b[|b| - 1]]);
      InitLast(b);
      SnocInit(a + b[..|b| - 1], b[|b| - 1]);
    }
  }

  lemma ClosesConcat(a: seq<Token>, b: seq<Token>)
    ensures ClosesNoDiv(a) && ClosesNoDiv(b) ==> ClosesNoDiv(a + b)
  {
  }

  lemma {:induction false} NoOpenDivs(ts: seq<Token>)
    ensures OpenDivs(ts) == 0 <==> NoDivs(ts)
  {
    if ts != [] {
      NoOpenDivs(ts[..|ts| - 1]);
      InitLast(ts);
    }
  }

  function Fences(lines: seq<string>): nat {
    if lines == [] then 0
    else Fences(lines[..|lines| - 1]) + (if IsFence(Trim(lines[|lines| - 1])) then 1 else 0)
  }

  /** The fence lines that open a block - every other one, from the first - and name the language SQL. */
  function SqlFences(lines: seq<string>): nat {
    if lines == [] then 0
    else
      var before := lines[..|lines| - 1];
      SqlFences(before)
      + (if Fences(before) % 2 == 0 && IsSqlFence(Trim(lines[|lines| - 1])) then 1 else 0)
  }

  predicate Special(tag: Tag) {
    tag.Div? || tag.Code? || tag.Button?
  }

  /** Neither a wrapper nor a numbered element is opened or closed. */
  predicate Simple(ts: seq<Token>) {
    forall i :: 0 <= i < |ts| && (ts[i].Open? || ts[i].Close?) ==> !Special(ts[i].tag)
  }

  lemma SimpleConcat(a: seq<Token>, b: seq<Token>)
    requires Simple(a) && Simple(b)
    ensures Simple(a + b)
  {
  }

  lemma {:induction false} OpenRowIsSimple(cells: seq<string>, tag: Tag)
    requires tag in {Th, Td}
    ensures Simple(OpenRow(cells, tag))
  {
    hide Trim, EscapeHTML;
    if cells != [] {
      OpenRowIsSimple(cells[..|cells| - 1], tag);
    }
  }

  lemma TableRowIsSimple(line: string, tag: Tag)
    requires tag in {Th, Td}
    ensures Simple(TableRow(line, tag))
  {
    hide Split, OpenRow;
    OpenRowIsSimple(Split(line, '|'), tag);
  }

  lemma TableHeadIsSimple(line: string)
    ensures Simple([Open(Table, 0), Open(Thead, 0)] + TableRow(line, Th) + [Close(Thead), Open(Tbody, 0), Newline])
  {
    hide TableRow;
    TableRowIsSimple(line, Th);
  }

  lemma ElemIsSimple(tag: Tag, text: string)
    requires !Special(tag)
    ensures Simple(Elem(tag, text) + [Newline])
  {
    hide EscapeHTML;
  }

  lemma ListItemIsSimple(inList: bool, text: string)
    ensures Simple((if inList then [] else [Open(Ul, 0), Newline]) + (Elem(Li, text) + [Newline]))
  {
    hide Elem, Simple;
    ElemIsSimple(Li, text);
    SimpleStart();
    SimpleConcat(if inList then [] else [Open(Ul, 0), Newline], Elem(Li, text) + [Newline]);
  }

  lemma SimpleStart()
    ensures Simple([]) && Simple([Open(Ul, 0), Newline]) && Simple([Br, Newline])
  {
  }

  lemma BlockIsSimple(st: State, trimmed: string)
    ensures Simple(RenderBlock(st, trimmed).out)
  {
    hide Trim, IsSeparatorRow, TrimLeftMarkers, Elem, TableRow, Simple;
    SimpleStart();
    if "### " <= trimmed {
      ElemIsSimple(H3, trimmed[4..]);
    } else if "## " <= trimmed {
      ElemIsSimple(H2, trimmed[3..]);
    } else if "# " <= trimmed {
      ElemIsSimple(H1, trimmed[2..]);
    } else if "|" <= trimmed {
      TableHeadIsSimple(trimmed);
      TableRowIsSimple(trimmed, Td);
    } else {
      ListItemIsSimple(st.inList, TrimLeftMarkers(trimmed));
      ElemIsSimple(P, trimmed);
    }
  }

  lemma {:induction false} SimpleHasNoDiv(ts: seq<Token>)
    requires Simple(ts)
    ensures OpenDivs(ts) == 0 && ClosesNoDiv(ts)
  {
    NoOpenDivs(ts);
  }

  lemma FenceDivs(sql: bool, id: nat)
    ensures OpenDivs(OpenFence(sql, id)) == (if sql then 1 else 0)
    ensures ClosesNoDiv(OpenFence(sql, id))
  {
    var pre: seq<Token> := [Open(Pre, 0), Open(Code, id)];
    var wrap: seq<Token> := [Open(Div, 0)];
    var button: seq<Token> := [Open(Button, id), Text("Copy"), Close(Button)];
    NoOpenDivs(pre);
    NoOpenDivs(button);
    if sql {
      assert OpenFence(sql, id) == wrap + (button + pre);
      OpenDivsConcat(button, pre);
      OpenDivsConcat(wrap, button + pre);
      assert wrap[..0] == [];
    } else {
      ConcatNil(pre);
    }
  }

  lemma ClosingIsSimple(st: State, trimmed: string)
    ensures Simple(Closing(st, trimmed).out)
  {
  }

  lemma BlockLineIsSimple(st: State, line: string)
    requires !st.inCode && !IsFence(Trim(line))
    ensures Simple(RenderLine(st, line).out) && !RenderLine(st, line).st.inCode
  {
    hide Trim, RenderBlock, Closing, Simple;
    var trimmed := Trim(line);
    var c := Closing(st, trimmed);
    KeepsCode(st, trimmed);
    KeepsCode(c.st, trimmed);
    ClosingIsSimple(st, trimmed);
    BlockIsSimple(c.st, trimmed);
    SimpleConcat(c.out, RenderBlock(c.st, trimmed).out);
  }

  lemma KeepsCode(st: State, trimmed: string)
    ensures Closing(st, trimmed).st.inCode == st.inCode && RenderBlock(st, trimmed).st.inCode == st.inCode
    ensures Closing(st, trimmed).st.blockId == st.blockId && RenderBlock(st, trimmed).st.blockId == st.blockId
  {
    hide Split, Trim, EscapeHTML, IsSeparatorRow, IsSqlFence, TrimLeftMarkers;
  }

  lemma CodeHasNoDiv(text: string)
    ensures OpenDivs(CLOSE_CODE) == 0 && ClosesNoDiv(CLOSE_CODE)
    ensures OpenDivs([Text(text), Newline]) == 0 && ClosesNoDiv([Text(text), Newline])
  {
    NoOpenDivs(CLOSE_CODE);
    NoOpenDivs([Text(text), Newline]);
  }

  lemma LineDivs(st: State, line: string)
    ensures var r := RenderLine(st, line);
            && OpenDivs(r.out) == (if !st.inCode && IsSqlFence(Trim(line)) then 1 else 0)
            && ClosesNoDiv(r.out)
            && r.st.inCode == (st.inCode != IsFence(Trim(line)))
  {
    hide Split, Trim, EscapeHTML, RenderBlock, Closing, OpenDivs, ClosesNoDiv, OpenFence;
    var trimmed := Trim(line);
    if IsFence(trimmed) {
      FenceDivs(IsSqlFence(trimmed), st.blockId + 1);
      CodeHasNoDiv("");
    } else if st.inCode {
      CodeHasNoDiv(EscapeHTML(line));
    } else {
      BlockLineIsSimple(st, line);
      SimpleHasNoDiv(RenderLine(st, line).out);
    }
  }

  lemma {:induction false} LinesDivs(lines: seq<string>)
    ensures var r := RenderLines(lines);
            && OpenDivs(r.out) == SqlFences(lines) && ClosesNoDiv(r.out)
            && (r.st.inCode <==> Fences(lines) % 2 == 1)
  {
    hide Split, Trim, RenderLine, IsFence, IsSqlFence, OpenDivs;
    if lines == [] {
      NoOpenDivs([]);
    } else {
      var before := RenderLines(lines[..|lines| - 1]);
      LinesDivs(lines[..|lines| - 1]);
      LineDivs(before.st, lines[|lines| - 1]);
      OpenDivsConcat(before.out, RenderLine(before.st, lines[|lines| - 1]).out);
    }
  }

  lemma FinishHasNoDiv(st: State)
    ensures OpenDivs(Finish(st)) == 0 && ClosesNoDiv(Finish(st))
  {
    NoOpenDivs(Finish(st));
  }

  /** The wrapper is opened once per SQL block and never closed. */
  lemma WrapperCount(md: string)
    ensures OpenDivs(Render(md)) == SqlFences(Split(md, '\n')) && ClosesNoDiv(Render(md))
  {
    hide Split, RenderLines, Finish, SqlFences, OpenDivs, ClosesNoDiv;
    var r := RenderLines(Split(md, '\n'));
    LinesDivs(Split(md, '\n'));
    FinishHasNoDiv(r.st);
    OpenDivsConcat(r.out, Finish(r.st));
    ClosesConcat(r.out, Finish(r.st));
  }

  /** Plain bracket matching of all tags, the wrapper included. */
  function Match(n: Nesting, ts: seq<Token>): Nesting {
    if ts == [] then n
    else
      var before := Match(n, ts[..|ts| - 1]);
      if before.Broken? then Broken
      else
        match ts[|ts| - 1]
        case Open(tag, _) => At(before.stack + [tag])
        case Close(tag) =>
          if before.stack != [] && Top(before.stack) == tag then At(before.stack[..|before.stack| - 1]) else Broken
        case _ => before
  }

  predicate Balanced(ts: seq<Token>) {
    Match(At([]), ts) == At([])
  }

  lemma {:induction false} NestedIsMatched(n: Nesting, ts: seq<Token>)
    requires NoDivs(ts) && FeedAll(n, ts).At?
    ensures Match(n, ts) == FeedAll(n, ts)
  {
    if ts != [] {
      NestedIsMatched(n, ts[..|ts| - 1]);
    }
  }

  function DivsIn(stack: seq<Tag>): nat {
    multiset(stack)[Div]
  }

  lemma {:induction false} MatchCounts(ts: seq<Token>)
    requires ClosesNoDiv(ts) && Match(At([]), ts).At?
    ensures DivsIn(Match(At([]), ts).stack) == OpenDivs(ts)
  {
    if ts != [] {
      MatchCounts(ts[..|ts| - 1]);
      var before := Match(At([]), ts[..|ts| - 1]).stack;
      if ts[|ts| - 1].Close? {
        InitLast(before);
      }
    }
  }

  /** With the wrapper counted, the output is balanced exactly when the document opens no SQL block. */
  lemma BalancedIffNoSqlBlock(md: string)
    ensures Balanced(Render(md)) <==> SqlFences(Split(md, '\n')) == 0
  {
    WrapperCount(md);
    RenderIsWellNested(md);
    NoOpenDivs(Render(md));
    if Balanced(Render(md)) {
      MatchCounts(Render(md));
    }
    if NoDivs(Render(md)) {
      NestedIsMatched(At([]), Render(md));
    }
  }
}
