/** What a rendered document says: the texts in its HTML, unescaped and with the elements they stand in, are those that
    its lines ask for. */
module MarkdownText {
  import opened Text
  import opened MarkdownHtml
  import opened MarkdownNesting

  // ---------- Unescaping ----------

  /** What a browser shows for an escaped text. */
  function Unescape(s: string): string
    decreases |s|
  {
    if s == "" then ""
    else if "&amp;" <= s then "&" + Unescape(s[5..])
    else if "&lt;" <= s then "<" + Unescape(s[4..])
    else if "&gt;" <= s then ">" + Unescape(s[4..])
    else if "&quot;" <= s then "\"" + Unescape(s[6..])
    else [s[0]] + Unescape(s[1..])
  }

  lemma UnescapeChar(c: char, t: string)
    ensures Unescape(EscapeChar(c) + t) == [c] + Unescape(t)
  {
    var s := EscapeChar(c) + t;
    var n := |EscapeChar(c)|;
    assert s[..n] == EscapeChar(c) && s[n..] == t;
    if c == '&' {
      assert s[..5] == "&amp;";
    } else if c == '<' {
      assert s[..4] == "&lt;" && s[1] == 'l';
    } else if c == '>' {
      assert s[..4] == "&gt;" && s[1] == 'g';
    } else if c == '\"' {
      assert s[..6] == "&quot;" && s[1] == 'q';
    } else {
      assert s[0] == c;
    }
  }

  lemma {:induction false} UnescapeEach(s: string)
    ensures Unescape(EscapeEach(s)) == s
  {
    if s != "" {
      UnescapeChar(s[0], EscapeEach(s[1..]));
      UnescapeEach(s[1..]);
      assert s == [s[0]] + s[1..];
    }
  }

  /** Unescaping undoes escaping. */
  lemma UnescapeEscaped(s: string)
    ensures Unescape(EscapeHTML(s)) == s
  {
    EscapeIsOnePass(s);
    UnescapeEach(s);
  }

  // ---------- What the output says ----------

  /** A text with the element it stands in, a line break, or the beginning of a row, list or table. */
  datatype Piece = Words(tag: Tag, text: string) | Break | Begin(tag: Tag)

  function PieceOf(n: Nesting, t: Token): seq<Piece> {
    match t
    case Text(x) => if n.At? && n.stack != [] then [Words(Top(n.stack), Unescape(x))] else []
    case Br => [Break]
    case Open(tag, _) => if tag == Tr || tag == Ul || tag == Table then [Begin(tag)] else []
    case _ => []
  }

  /** The pieces of the tokens, read with the elements of `n` open. */
  function Pieces(n: Nesting, ts: seq<Token>): seq<Piece> {
    if ts == [] then []
    else Pieces(n, ts[..|ts| - 1]) + PieceOf(FeedAll(n, ts[..|ts| - 1]), ts[|ts| - 1])
  }

  lemma PiecesSnoc(n: Nesting, ts: seq<Token>, t: Token)
    ensures Pieces(n, ts + [t]) == Pieces(n, ts) + PieceOf(FeedAll(n, ts), t)
  {
    hide FeedAll, PieceOf;
    SnocInit(ts, t);
  }

  lemma {:induction false} PiecesConcat(n: Nesting, a: seq<Token>, b: seq<Token>)
    ensures Pieces(n, a + b) == Pieces(n, a) + Pieces(FeedAll(n, a), b)
  {
    hide FeedAll, PieceOf;
    if b == [] {
      ConcatNil(a);
      ConcatNil(Pieces(n, a));
    } else {
      var m := |b| - 1;
      PiecesConcat(n, a, b[..m]);
      FeedConcat(n, a, b[..m]);
      InitLast(b);
      ConcatAssoc(a, b[..m], [b[m]]);
      PiecesSnoc(n, a + b[..m], b[m]);
      PiecesSnoc(FeedAll(n, a), b[..m], b[m]);
      ConcatAssoc(Pieces(n, a), Pieces(FeedAll(n, a), b[..m]), PieceOf(FeedAll(FeedAll(n, a), b[..m]), b[m]));
    }
  }

  predicate Silent(t: Token) {
    t.Close? || t.Newline? || (t.Open? && t.tag != Tr && t.tag != Ul && t.tag != Table)
  }

  lemma {:induction false} SilentPieces(n: Nesting, ts: seq<Token>)
    requires forall i :: 0 <= i < |ts| ==> Silent(ts[i])
    ensures Pieces(n, ts) == []
  {
    hide FeedAll;
    if ts != [] {
      SilentPieces(n, ts[..|ts| - 1]);
    }
  }

  lemma OnePiece(n: Nesting, t: Token)
    ensures Pieces(n, [t]) == PieceOf(n, t)
  {
    assert [t][..0] == [];
    ConcatNil(PieceOf(n, t));
  }

  // ---------- What a line asks for ----------

  /** Where a line stands: inside a code block, behind a row of an open table, behind an item of an open list. */
  datatype Context = Context(inCode: bool, inTable: bool, inList: bool)

  function Hashes(s: string): nat {
    if s != "" && s[0] == '#' then 1 + Hashes(s[1..]) else 0
  }

  /** One to three hashes and a blank make a heading. */
  predicate IsHeading(s: string) {
    1 <= Hashes(s) <= 3 && Hashes(s) < |s| && s[Hashes(s)] == ' '
  }

  function HeadingTag(level: nat): Tag {
    if level == 1 then H1 else if level == 2 then H2 else H3
  }

  predicate StartsWith(s: string, c: char) {
    s != "" && s[0] == c
  }

  predicate IsItem(s: string) {
    |s| >= 2 && (s[0] == '-' || s[0] == '*') && s[1] == ' '
  }

  /** Only bars, dashes, colons and blanks. */
  predicate IsRuler(s: string) {
    forall i :: 0 <= i < |s| ==> s[i] == '|' || s[i] == '-' || s[i] == ':' || IsSpace(s[i])
  }

  predicate IsMark(c: char) {
    c == '-' || c == '*' || c == ' '
  }

  /** How many dashes, stars and blanks a text starts with. */
  function Marks(s: string): (n: nat)
    ensures n <= |s| && (forall i :: 0 <= i < n ==> IsMark(s[i])) && (n < |s| ==> !IsMark(s[n]))
  {
    if s != "" && IsMark(s[0]) then 1 + Marks(s[1..]) else 0
  }

  predicate OpensSql(s: string) {
    |s| >= 3 && var lang := Trim(s[3..]);
    |lang| == 3 && lang[0] in ['s', 'S', '\U{17F}'] && lang[1] in ['q', 'Q'] && lang[2] in ['l', 'L']
  }

  predicate IsFenceLine(s: string) {
    |s| >= 3 && s[0] == '`' && s[1] == '`' && s[2] == '`'
  }

  /** The non-blank cells of a row, trimmed, in order. */
  function CellTexts(cells: seq<string>): seq<string> {
    if cells == [] then []
    else
      var x := Trim(cells[|cells| - 1]);
      CellTexts(cells[..|cells| - 1]) + (if x == "" then [] else [x])
  }

  function InTag(tag: Tag, texts: seq<string>): (ps: seq<Piece>)
    ensures |ps| == |texts| && forall i :: 0 <= i < |ps| ==> ps[i] == Words(tag, texts[i])
  {
    seq(|texts|, i requires 0 <= i < |texts| => Words(tag, texts[i]))
  }

  function LinePieces(c: Context, line: string): seq<Piece> {
    var s := Trim(line);
    if IsFenceLine(s) then if !c.inCode && OpensSql(s) then [Words(Button, "Copy")] else []
    else if c.inCode then [Words(Code, line)]
    else if IsHeading(s) then [Words(HeadingTag(Hashes(s)), s[Hashes(s) + 1..])]
    else if StartsWith(s, '|') then
      if IsRuler(s) then []
      else if c.inTable then [Begin(Tr)] + InTag(Td, CellTexts(Split(s, '|')))
      else [Begin(Table), Begin(Tr)] + InTag(Th, CellTexts(Split(s, '|')))
    else if IsItem(s) then (if c.inList then [] else [Begin(Ul)]) + [Words(Li, s[Marks(s)..])]
    else if s == "" then [Break]
    else [Words(P, s)]
  }

  /** Fences and the lines between them leave tables and lists open; other lines end what they do not continue. */
  function Next(c: Context, line: string): Context {
    var s := Trim(line);
    if IsFenceLine(s) then c.(inCode := !c.inCode)
    else if c.inCode then c
    else c.(inTable := StartsWith(s, '|') && (c.inTable || !IsRuler(s)), inList := IsItem(s))
  }

  function ContextAfter(lines: seq<string>): Context {
    if lines == [] then Context(false, false, false)
    else Next(ContextAfter(lines[..|lines| - 1]), lines[|lines| - 1])
  }

  function DocumentPieces(lines: seq<string>): seq<Piece> {
    if lines == [] then []
    else
      DocumentPieces(lines[..|lines| - 1]) + LinePieces(ContextAfter(lines[..|lines| - 1]), lines[|lines| - 1])
  }

  // ---------- The classification of lines ----------

  lemma HashesOf(s: string, n: nat)
    requires n < |s| && (forall i :: 0 <= i < n ==> s[i] == '#') && s[n] != '#'
    ensures Hashes(s) == n
    decreases n
  {
    if n > 0 {
      HashesOf(s[1..], n - 1);
    }
  }

  lemma {:induction false} HashesAre(s: string)
    ensures Hashes(s) <= |s| && forall i :: 0 <= i < Hashes(s) ==> s[i] == '#'
  {
    if s != "" && s[0] == '#' {
      HashesAre(s[1..]);
    }
  }

  lemma HeadingIs(s: string)
    ensures "### " <= s <==> IsHeading(s) && Hashes(s) == 3
    ensures "## " <= s <==> IsHeading(s) && Hashes(s) == 2
    ensures "# " <= s <==> IsHeading(s) && Hashes(s) == 1
  {
    hide Hashes;
    HashesAre(s);
    if "### " <= s {
      assert s[..4] == "### " && s[0] == s[1] == s[2] == '#' && s[3] == ' ';
      HashesOf(s, 3);
    }
    if "## " <= s {
      assert s[..3] == "## " && s[0] == s[1] == '#' && s[2] == ' ';
      HashesOf(s, 2);
    }
    if "# " <= s {
      assert s[..2] == "# " && s[0] == '#' && s[1] == ' ';
      HashesOf(s, 1);
    }
  }

  lemma PrefixesAre(s: string)
    ensures "|" <= s <==> StartsWith(s, '|')
    ensures IsListItem(s) <==> IsItem(s)
    ensures IsFence(s) <==> IsFenceLine(s)
  {
    if "```" <= s {
      assert s[..3] == "```" && s[0] == s[1] == s[2] == '`';
    }
    if "|" <= s {
      assert s[..1] == "|" && s[0] == '|';
    }
    if "- " <= s {
      assert s[..2] == "- " && s[0] == '-' && s[1] == ' ';
    }
    if "* " <= s {
      assert s[..2] == "* " && s[0] == '*' && s[1] == ' ';
    }
  }

  lemma SqlIs(s: string)
    ensures IsSqlFence(s) <==> IsFenceLine(s) && OpensSql(s)
  {
    hide Trim;
    PrefixesAre(s);
  }

  lemma {:induction false} MarkersAre(s: string)
    ensures TrimLeftMarkers(s) == s[Marks(s)..]
  {
    if s != "" && IsMark(s[0]) {
      MarkersAre(s[1..]);
      assert s[1..][Marks(s[1..])..] == s[1 + Marks(s[1..])..];
    }
  }

  lemma {:induction false} RemovedAre(s: string, c: char)
    ensures forall x :: x in ReplaceAll(s, c, "") <==> x in s && x != c
  {
    if s != "" {
      RemovedAre(s[1..], c);
      assert s == [s[0]] + s[1..];
      assert forall x :: x in s <==> x == s[0] || x in s[1..];
    }
  }

  lemma BlankIff(s: string)
    ensures Blank(s) <==> Trim(s) == ""
  {
    hide TrimLeft, TrimRight;
    if Blank(s) {
      TrimBlank(s);
    } else {
      TrimLeftIs(s);
      WholePrefix(s);
      if TrimLeft(s) != "" {
        NotTrimmedAway(TrimLeft(s));
      }
    }
  }

  lemma NotTrimmedAway(x: string)
    requires x != "" && !IsSpace(x[0])
    ensures TrimRight(x) != ""
  {
    hide TrimRight;
    TrimRightIs(x);
    var n := |TrimRight(x)|;
    assert forall k :: n <= k < |x| ==> x[k] == x[n..][k - n] && IsSpace(x[k]);
  }

  lemma RulerIs(s: string)
    ensures IsSeparatorRow(s) <==> IsRuler(s)
  {
    hide ReplaceAll, Trim;
    var a := ReplaceAll(s, '|', "");
    var b := ReplaceAll(a, '-', "");
    var c := ReplaceAll(b, ':', "");
    RemovedAre(s, '|');
    RemovedAre(a, '-');
    RemovedAre(b, ':');
    BlankIff(c);
    assert Blank(c) <==> forall x :: x in c ==> IsSpace(x);
    assert IsRuler(s) <==> forall x :: x in s ==> x == '|' || x == '-' || x == ':' || IsSpace(x);
  }

  // ---------- The pieces of one line ----------

  lemma LeafPieces(stack: seq<Tag>, tag: Tag, id: nat, text: string)
    requires MayOpen(stack, tag) && tag in {H1, H2, H3, P, Li, Th, Td, Button}
    ensures Pieces(At(stack), [Open(tag, id), Text(text), Close(tag)]) == [Words(tag, Unescape(text))]
  {
    hide MayOpen, FeedAll, Unescape;
    var a: seq<Token> := [Open(tag, id)];
    var b: seq<Token> := [Text(text)];
    FeedOne(At(stack), Open(tag, id));
    OnePiece(At(stack), Open(tag, id));
    OnePiece(At(stack + [tag]), Text(text));
    PiecesConcat(At(stack), a, b);
    PiecesSnoc(At(stack), a + b, Close(tag));
    assert [Open(tag, id), Text(text), Close(tag)] == a + b + [Close(tag)];
  }

  lemma ElemPieces(stack: seq<Tag>, tag: Tag, text: string)
    requires MayOpen(stack, tag) && tag in {H1, H2, H3, P, Li, Th, Td}
    ensures Pieces(At(stack), Elem(tag, text)) == [Words(tag, text)]
  {
    hide EscapeHTML, MayOpen, FeedAll, Pieces, Unescape;
    LeafPieces(stack, tag, 0, EscapeHTML(text));
    UnescapeEscaped(text);
  }

  lemma ElemLinePieces(stack: seq<Tag>, tag: Tag, text: string)
    requires MayOpen(stack, tag) && tag in {H1, H2, H3, P, Li}
    ensures Pieces(At(stack), Elem(tag, text) + [Newline]) == [Words(tag, text)]
  {
    hide Elem, MayOpen, FeedAll, Pieces;
    ElemPieces(stack, tag, text);
    PiecesSnoc(At(stack), Elem(tag, text), Newline);
    ConcatNil([Words(tag, text)]);
  }

  lemma {:induction false} OpenRowPieces(stack: seq<Tag>, cells: seq<string>, tag: Tag)
    requires MayOpen(stack, Tr) && MayOpen(stack + [Tr], tag) && tag in {Th, Td}
    ensures Pieces(At(stack), OpenRow(cells, tag)) == [Begin(Tr)] + InTag(tag, CellTexts(cells))
  {
    hide MayOpen, FeedAll, Pieces, Trim, Elem;
    if cells == [] {
      OnePiece(At(stack), Open(Tr, 0));
    } else {
      var n := |cells| - 1;
      var row, x := OpenRow(cells[..n], tag), Trim(cells[n]);
      OpenRowPieces(stack, cells[..n], tag);
      FeedOpenRow(stack, cells[..n], tag);
      ElemPieces(stack + [Tr], tag, x);
      PiecesConcat(At(stack), row, Elem(tag, x));
      InTagConcat(tag, CellTexts(cells[..n]), if x == "" then [] else [x]);
      ConcatNil(CellTexts(cells[..n]));
    }
  }

  lemma InTagConcat(tag: Tag, a: seq<string>, b: seq<string>)
    ensures InTag(tag, a + b) == InTag(tag, a) + InTag(tag, b)
    ensures forall x :: InTag(tag, [x]) == [Words(tag, x)]
  {
  }

  lemma TableRowPieces(stack: seq<Tag>, line: string, tag: Tag)
    requires MayOpen(stack, Tr) && MayOpen(stack + [Tr], tag) && tag in {Th, Td}
    ensures Pieces(At(stack), TableRow(line, tag)) == [Begin(Tr)] + InTag(tag, CellTexts(Split(line, '|')))
  {
    hide Split, MayOpen, FeedAll, Pieces, OpenRow, CellTexts;
    var cells := Split(line, '|');
    OpenRowPieces(stack, cells, tag);
    FeedOpenRow(stack, cells, tag);
    PiecesConcat(At(stack), OpenRow(cells, tag), [Close(Tr), Newline]);
    SilentPieces(At(stack + [Tr]), [Close(Tr), Newline]);
    ConcatNil([Begin(Tr)] + InTag(tag, CellTexts(cells)));
  }

  lemma TableHeadPieces(line: string)
    ensures Pieces(At([]), [Open(Table, 0), Open(Thead, 0)] + TableRow(line, Th)
                           + [Close(Thead), Open(Tbody, 0), Newline])
         == [Begin(Table), Begin(Tr)] + InTag(Th, CellTexts(Split(line, '|')))
  {
    hide Split, FeedAll, Pieces, TableRow, CellTexts;
    var head, row := [Open(Table, 0), Open(Thead, 0)], TableRow(line, Th);
    var end := [Close(Thead), Open(Tbody, 0), Newline];
    var texts := InTag(Th, CellTexts(Split(line, '|')));
    HeadStartPieces();
    FeedHeadStart();
    TableRowPieces([Table, Thead], line, Th);
    PiecesConcat(At([]), head, row);
    PiecesConcat(At([]), head + row, end);
    SilentPieces(FeedAll(At([]), head + row), end);
    ConcatAssoc([Begin(Table)], [Begin(Tr)], texts);
    ConcatNil([Begin(Table)] + ([Begin(Tr)] + texts));
  }

  lemma HeadStartPieces()
    ensures Pieces(At([]), [Open(Table, 0), Open(Thead, 0)]) == [Begin(Table)]
  {
    OnePiece(At([]), Open(Table, 0));
    PiecesSnoc(At([]), [Open(Table, 0)], Open(Thead, 0));
    ConcatNil([Begin(Table)]);
    assert [Open(Table, 0)] + [Open(Thead, 0)] == [Open(Table, 0), Open(Thead, 0)];
  }

  lemma ItemPieces(inList: bool, text: string)
    ensures Pieces(At(if inList then [Ul] else []),
                   (if inList then [] else [Open(Ul, 0), Newline]) + (Elem(Li, text) + [Newline]))
         == (if inList then [] else [Begin(Ul)]) + [Words(Li, text)]
  {
    hide Elem, FeedAll, Pieces;
    var item := Elem(Li, text) + [Newline];
    ElemLinePieces([Ul], Li, text);
    ConcatNil(item);
    ConcatNil([Words(Li, text)]);
    if !inList {
      FeedClosers();
      OnePiece(At([]), Open(Ul, 0));
      PiecesSnoc(At([]), [Open(Ul, 0)], Newline);
      ConcatNil([Begin(Ul)]);
      assert [Open(Ul, 0)] + [Newline] == [Open(Ul, 0), Newline];
      PiecesConcat(At([]), [Open(Ul, 0), Newline], item);
    }
  }

  lemma BreakPieces()
    ensures Pieces(At([]), [Br, Newline]) == [Break]
  {
    OnePiece(At([]), Br);
    PiecesSnoc(At([]), [Br], Newline);
    ConcatNil([Break]);
    assert [Br] + [Newline] == [Br, Newline];
  }

  /** The context that the flags of the state stand for. */
  function ContextOf(st: State): Context {
    Context(st.inCode, st.inTable, st.inList)
  }

  lemma BlockPieces(st: State, s: string)
    requires Exclusive(st) && !st.inCode && !IsFenceLine(s) && Trim(s) == s
    requires (st.inList ==> IsItem(s)) && (st.inTable ==> StartsWith(s, '|'))
    ensures Pieces(At(Around(st)), RenderBlock(st, s).out) == LinePieces(ContextOf(st), s)
    ensures ContextOf(RenderBlock(st, s).st) == Next(ContextOf(st), s)
  {
    hide Split, Trim, RenderBlock, Hashes, Marks, IsRuler, FeedAll, Pieces, CellTexts, OpensSql;
    HashIsNoMark(s);
    if IsHeading(s) {
      HeadingBlock(st, s);
    } else if StartsWith(s, '|') {
      RowBlock(st, s);
    } else {
      OtherBlock(st, s);
    }
  }

  lemma HashIsNoMark(s: string)
    ensures IsHeading(s) ==> !StartsWith(s, '|') && !IsItem(s)
    ensures StartsWith(s, '|') ==> !IsItem(s)
  {
  }

  lemma OtherBlock(st: State, s: string)
    requires !IsHeading(s) && !StartsWith(s, '|') && !st.inTable && (st.inList ==> IsItem(s))
    ensures Pieces(At(if st.inList then [Ul] else []), RenderBlock(st, s).out)
         == if IsItem(s) then (if st.inList then [] else [Begin(Ul)]) + [Words(Li, s[Marks(s)..])]
            else if s == "" then [Break] else [Words(P, s)]
    ensures RenderBlock(st, s).st == st.(inList := IsItem(s))
  {
    hide Elem, TableRow, Hashes, Marks, IsSeparatorRow, TrimLeftMarkers, FeedAll, Pieces;
    HeadingIs(s);
    PrefixesAre(s);
    MarkersAre(s);
    if IsItem(s) {
      ItemPieces(st.inList, TrimLeftMarkers(s));
    } else if s == "" {
      BreakPieces();
    } else {
      ElemLinePieces([], P, s);
    }
  }

  lemma HeadingBlock(st: State, s: string)
    requires IsHeading(s) && !st.inCode && !st.inTable && !st.inList && !StartsWith(s, '|') && !IsItem(s)
    ensures Pieces(At([]), RenderBlock(st, s).out) == [Words(HeadingTag(Hashes(s)), s[Hashes(s) + 1..])]
    ensures RenderBlock(st, s).st == st
  {
    hide Elem, Hashes, FeedAll, Pieces;
    HeadingIs(s);
    ElemLinePieces([], H1, s[Hashes(s) + 1..]);
    ElemLinePieces([], H2, s[Hashes(s) + 1..]);
    ElemLinePieces([], H3, s[Hashes(s) + 1..]);
  }

  lemma RowBlock(st: State, s: string)
    requires !IsHeading(s) && StartsWith(s, '|') && !st.inList && !st.inCode
    ensures var stack := if st.inTable then [Table, Tbody] else [];
            Pieces(At(stack), RenderBlock(st, s).out)
            == if IsRuler(s) then []
               else if st.inTable then [Begin(Tr)] + InTag(Td, CellTexts(Split(s, '|')))
               else [Begin(Table), Begin(Tr)] + InTag(Th, CellTexts(Split(s, '|')))
    ensures RenderBlock(st, s).st == st.(inTable := st.inTable || !IsRuler(s))
  {
    hide Split, TableRow, Hashes, IsSeparatorRow, IsRuler, FeedAll, CellTexts;
    HeadingIs(s);
    PrefixesAre(s);
    RulerIs(s);
    hide Pieces;
    SilentPieces(At(if st.inTable then [Table, Tbody] else []), []);
    TableHeadPieces(s);
    TableRowPieces([Table, Tbody], s, Td);
  }

  /** A line outside of code, with what it ends before it. */
  lemma ClosedBlockPieces(st: State, line: string)
    requires Exclusive(st) && !st.inCode && !IsFenceLine(Trim(line))
    ensures var r := RenderLine(st, line);
            && Pieces(Expected(st), r.out) == LinePieces(ContextOf(st), line)
            && ContextOf(r.st) == Next(ContextOf(st), line)
  {
    hide Trim, IsFence, Hashes, Marks, IsRuler, FeedAll, Pieces, RenderBlock, CellTexts, OpensSql, Split;
    var s := Trim(line);
    var c := Closing(st, s);
    var b := RenderBlock(c.st, s);
    PrefixesAre(s);
    TrimTwice(line);
    ConcatNil(Around(st));
    FeedClosing(st, s);
    ClosingPieces(st, s);
    BlockPieces(c.st, s);
    PiecesConcat(At(Around(st)), c.out, b.out);
    ConcatNil(Pieces(At(Around(c.st)), b.out));
    ClosingContext(st, s);
  }

  lemma TrimTwice(line: string)
    ensures Trim(Trim(line)) == Trim(line)
  {
    hide TrimLeft, TrimRight;
    var x := TrimLeft(line);
    TrimLeftIs(line);
    TrimRightIs(x);
    var y := TrimRight(x);
    if y != "" {
      assert y[0] == x[0];
    }
    TrimTrimmed(y);
  }

  lemma ClosingPieces(st: State, s: string)
    ensures Pieces(At(Around(st)), Closing(st, s).out) == []
  {
    hide Pieces, IsListItem, Around;
    SilentPieces(At(Around(st)), Closing(st, s).out);
  }

  /** What is closed before a line does not matter for what the line asks for. */
  lemma ClosingContext(st: State, s: string)
    requires !st.inCode && !IsFenceLine(s) && Trim(s) == s
    ensures LinePieces(ContextOf(Closing(st, s).st), s) == LinePieces(ContextOf(st), s)
    ensures Next(ContextOf(Closing(st, s).st), s) == Next(ContextOf(st), s)
  {
    hide Split, Trim, Hashes, Marks, IsRuler, CellTexts, OpensSql;
    PrefixesAre(s);
  }

  lemma FencePieces(st: State, line: string)
    requires Exclusive(st) && IsFenceLine(Trim(line))
    ensures var r := RenderLine(st, line);
            && Pieces(Expected(st), r.out) == LinePieces(ContextOf(st), line)
            && ContextOf(r.st) == Next(ContextOf(st), line)
  {
    hide Trim, FeedAll, Pieces, OpensSql, IsSqlFence, Split, CellTexts, OpenFence, Around;
    var s := Trim(line);
    PrefixesAre(s);
    SqlIs(s);
    if st.inCode {
      SilentPieces(Expected(st), CLOSE_CODE);
    } else {
      ConcatNil(Around(st));
      AroundCode(st);
      OpenFencePieces(Around(st), IsSqlFence(s), st.blockId + 1);
    }
  }

  lemma OpenFencePieces(stack: seq<Tag>, sql: bool, id: nat)
    requires MayOpen(stack, Pre)
    ensures Pieces(At(stack), OpenFence(sql, id)) == if sql then [Words(Button, "Copy")] else []
  {
    hide FeedAll, Pieces;
    var pre: seq<Token> := [Open(Pre, 0), Open(Code, id)];
    SilentPieces(At(stack), pre);
    ConcatNil(pre);
    if sql {
      var leaf: seq<Token> := [Open(Button, id), Text("Copy"), Close(Button)];
      var button: seq<Token> := [Open(Div, 0)] + leaf;
      FeedOne(At(stack), Open(Div, 0));
      SilentPieces(At(stack), [Open(Div, 0)]);
      LeafPieces(stack, Button, id, "Copy");
      PlainIsUnescaped();
      PiecesConcat(At(stack), [Open(Div, 0)], leaf);
      FeedButton(stack, id);
      assert button == [Open(Div, 0), Open(Button, id), Text("Copy"), Close(Button)];
      PiecesConcat(At(stack), button, pre);
      ConcatNil([Words(Button, "Copy")]);
    }
  }

  lemma PlainIsUnescaped()
    ensures Unescape("Copy") == "Copy"
  {
    UnescapeEach("Copy");
    assert EscapeEach("Copy") == "Copy" by {
      assert "Copy"[1..] == "opy" && "opy"[1..] == "py" && "py"[1..] == "y" && "y"[1..] == "";
      assert EscapeEach("y") == "y" && EscapeEach("py") == "py" && EscapeEach("opy") == "opy";
    }
  }

  lemma CodeLinePieces(st: State, line: string)
    requires st.inCode && !IsFenceLine(Trim(line))
    ensures var r := RenderLine(st, line);
            && Pieces(Expected(st), r.out) == LinePieces(ContextOf(st), line)
            && ContextOf(r.st) == Next(ContextOf(st), line)
  {
    hide Trim, FeedAll, Pieces, EscapeHTML, Unescape, Split, CellTexts, Around;
    PrefixesAre(Trim(line));
    UnescapeEscaped(line);
    var text: seq<Token> := [Text(EscapeHTML(line))];
    OnePiece(Expected(st), Text(EscapeHTML(line)));
    PiecesSnoc(Expected(st), text, Newline);
    assert text + [Newline] == [Text(EscapeHTML(line)), Newline];
    assert Top(Around(st) + [Pre, Code]) == Code;
    ConcatNil([Words(Code, line)]);
  }

  // ---------- The document ----------

  lemma {:induction false} LinesSay(lines: seq<string>)
    ensures var r := RenderLines(lines);
            && Pieces(At([]), r.out) == DocumentPieces(lines)
            && ContextOf(r.st) == ContextAfter(lines)
  {
    hide RenderLine, LinePieces, Next, FeedAll, Expected;
    if lines != [] {
      var n := |lines| - 1;
      var before := RenderLines(lines[..n]);
      LinesSay(lines[..n]);
      FeedLines(lines[..n]);
      LineSays(before.st, lines[n]);
      PiecesConcat(At([]), before.out, RenderLine(before.st, lines[n]).out);
    }
  }

  lemma LineSays(st: State, line: string)
    requires Exclusive(st)
    ensures var r := RenderLine(st, line);
            && Pieces(Expected(st), r.out) == LinePieces(ContextOf(st), line)
            && ContextOf(r.st) == Next(ContextOf(st), line)
  {
    hide RenderLine, LinePieces, Next, Pieces, Expected, Trim;
    if IsFenceLine(Trim(line)) {
      FencePieces(st, line);
    } else if st.inCode {
      CodeLinePieces(st, line);
    } else {
      ClosedBlockPieces(st, line);
    }
  }

  /** Every document says in HTML what its lines ask for, nothing else, and in their order: each text, unescaped, in
      the element that its line gives it, with every row, list, table and empty line where the lines have them. */
  lemma DocumentSays(md: string)
    ensures Pieces(At([]), Render(md)) == DocumentPieces(Split(md, '\n'))
  {
    hide Split, RenderLines, Finish, Pieces, FeedAll, DocumentPieces;
    var r := RenderLines(Split(md, '\n'));
    LinesSay(Split(md, '\n'));
    FinishIsSilent(r.st);
    SilentPieces(FeedAll(At([]), r.out), Finish(r.st));
    PiecesConcat(At([]), r.out, Finish(r.st));
    ConcatNil(DocumentPieces(Split(md, '\n')));
  }

  lemma FinishIsSilent(st: State)
    ensures forall i :: 0 <= i < |Finish(st)| ==> Silent(Finish(st)[i])
  {
  }
}
