/** Line breaks inside the lines of a drawn table: the data lines have none, and a column name that keeps one
    through the cut to its final width is the only way in which the box falls apart. */
module TableLines {
  import opened Text
  import opened TableFit

  predicate Plain(s: string) {
    '\n' !in s
  }

  predicate AllPlain(texts: seq<string>) {
    forall i :: 0 <= i < |texts| ==> Plain(texts[i])
  }

  predicate PlainCells(g: Grid) {
    forall r :: 0 <= r < |g.cells| ==> AllPlain(g.cells[r])
  }

  // ---------- Cells have no line breaks ----------

  lemma {:induction false} CollapsedIsPlain(s: string)
    ensures Plain(CollapseBreaks(s))
    decreases |s|
  {
    if |s| >= 2 && s[0] == '\r' && s[1] == '\n' {
      CollapsedIsPlain(s[2..]);
    } else if s != "" {
      CollapsedIsPlain(s[1..]);
    }
  }

  lemma CellsArePlain(columns: seq<string>, rows: seq<seq<Cell>>)
    ensures PlainCells(AllCells(columns, rows))
  {
    hide CollapseBreaks;
    forall r, i | 0 <= r < |rows| && 0 <= i < |columns|
      ensures Plain(AllCells(columns, rows).cells[r][i])
    {
      if i < |rows[r]| && rows[r][i].Value? {
        CollapsedIsPlain(rows[r][i].text);
      }
    }
  }

  lemma VisibleCellsArePlain(rw: RuneWidth, g: Grid, termWidth: int)
    requires Rectangular(g) && g.columns != [] && PlainCells(g)
    ensures Rectangular(Visible(rw, g, termWidth)) && PlainCells(Visible(rw, g, termWidth))
  {
    hide CountFitting, Placeholder;
  }

  // ---------- Where a drawn line has a line break ----------

  lemma TruncateKeepsPlain(rw: RuneWidth, s: string, maxW: int)
    requires Plain(s) && Truncate(rw, s, maxW).Str?
    ensures Plain(Truncate(rw, s, maxW).text)
  {
  }

  lemma {:induction false} RepeatIsPlain(c: char, n: int)
    requires c != '\n'
    ensures Plain(Repeat(c, n))
  {
    if n > 0 {
      RepeatIsPlain(c, n - 1);
    }
  }

  lemma {:induction false} SegmentsArePlain(ws: seq<int>, mid: char)
    requires mid != '\n'
    ensures Plain(Segments(ws, mid))
  {
    hide Repeat;
    if ws != [] {
      SegmentsArePlain(ws[..|ws| - 1], mid);
      RepeatIsPlain('─', ws[|ws| - 1] + 2);
    }
  }

  lemma BorderIsPlain(ws: seq<int>, left: char, mid: char, right: char)
    requires '\n' !in {left, mid, right}
    ensures Plain(Border(ws, left, mid, right))
  {
    hide Segments;
    SegmentsArePlain(ws, mid);
  }

  /** A drawn row has a line break exactly if one of its cells has. */
  lemma {:induction false} RowIsPlainIff(rw: RuneWidth, ws: seq<int>, cells: seq<string>)
    requires |cells| <= |ws|
    ensures Plain(RowLine(rw, ws, cells)) <==> AllPlain(cells)
    ensures RowLine(rw, ws, cells) != "" && RowLine(rw, ws, cells)[|RowLine(rw, ws, cells)| - 1] == '│'
  {
    hide Width, Repeat;
    if cells != [] {
      var n := |cells| - 1;
      RowIsPlainIff(rw, ws, cells[..n]);
      RepeatIsPlain(' ', ws[n] - Width(rw, cells[n]));
      BoxedIsPlainIff(rw, cells[n], ws[n]);
      assert AllPlain(cells) <==> AllPlain(cells[..n]) && Plain(cells[n]);
    }
  }

  lemma BoxedIsPlainIff(rw: RuneWidth, cell: string, w: int)
    ensures Plain(Boxed(rw, cell, w)) <==> Plain(cell)
    ensures Boxed(rw, cell, w) != "" && Boxed(rw, cell, w)[|Boxed(rw, cell, w)| - 1] == '│'
  {
    hide Width, Repeat;
    RepeatIsPlain(' ', w - Width(rw, cell));
  }

  /** Borders and data lines are free of line breaks; the header line has one exactly if a visible column name
      keeps one through the cut to its final width. */
  lemma OnlyHeaderMayBreak(rw: RuneWidth, g: Grid, termWidth: int)
    requires Terminal(rw) && Rectangular(g) && PlainCells(g)
    ensures var lines := Draw(rw, g, termWidth);
            && (forall k :: 0 <= k < |lines| && k != 1 ==> Plain(lines[k]))
            && (Plain(lines[1]) <==> AllPlain(CutRow(rw, g, termWidth, g.columns)))
  {
    hide Border, RowLine, FinalWidths, Terminal, Truncate;
    var ws := FinalWidths(rw, g, termWidth);
    BorderIsPlain(ws, '┌', '┬', '┐');
    BorderIsPlain(ws, '├', '┼', '┤');
    BorderIsPlain(ws, '└', '┴', '┘');
    RowIsPlainIff(rw, ws, CutRow(rw, g, termWidth, g.columns));
    forall r | 0 <= r < |g.cells| ensures Plain(Lines(rw, ws, CutRows(rw, g, termWidth))[r]) {
      CutRowIsPlain(rw, g, termWidth, g.cells[r]);
      RowIsPlainIff(rw, ws, CutRow(rw, g, termWidth, g.cells[r]));
    }
  }

  lemma CutRowIsPlain(rw: RuneWidth, g: Grid, termWidth: int, cells: seq<string>)
    requires Terminal(rw) && Rectangular(g) && cells in g.cells && AllPlain(cells)
    ensures AllPlain(CutRow(rw, g, termWidth, cells))
  {
    hide CutRow, FinalWidths, Truncate, Terminal;
    var ws := FinalWidths(rw, g, termWidth);
    var r :| 0 <= r < |g.cells| && g.cells[r] == cells;
    var row := CutRow(rw, g, termWidth, cells);
    forall i | 0 <= i < |cells| ensures Plain(row[i]) {
      assert Truncate(rw, cells[i], ws[i]) == Str(row[i]);
      TruncateKeepsPlain(rw, cells[i], ws[i]);
    }
  }

  // ---------- The lines that the terminal shows ----------

  /** The lines of the output, counting from line break to line break. */
  function Shown(lines: seq<string>): seq<string> {
    if lines == [] then [] else Shown(lines[..|lines| - 1]) + Split(lines[|lines| - 1], '\n')
  }

  predicate PartOf(p: string, line: string) {
    p in Split(line, '\n')
  }

  lemma {:induction false} ShownIs(lines: seq<string>, p: string)
    ensures p in Shown(lines) <==> exists k :: 0 <= k < |lines| && PartOf(p, lines[k])
  {
    if lines != [] {
      var n := |lines| - 1;
      ShownIs(lines[..n], p);
      assert p in Shown(lines) <==> p in Shown(lines[..n]) || PartOf(p, lines[n]);
      hide PartOf, Shown;
      assert forall k :: 0 <= k < n ==> lines[..n][k] == lines[k];
    }
  }

  lemma {:induction false} PartsAreNarrower(rw: RuneWidth, line: string)
    ensures forall p :: p in Split(line, '\n') ==> Width(rw, p) <= Width(rw, line)
    decreases |line|
  {
    if Plain(line) {
      SplitPlain(line, '\n');
    } else {
      var a, b := FirstBreak(rw, line);
      PartsAreNarrower(rw, b);
      SplitPlain(a, '\n');
    }
  }

  lemma FirstBreak(rw: RuneWidth, line: string) returns (a: string, b: string)
    requires !Plain(line)
    ensures Plain(a) && line == a + ['\n'] + b && |b| < |line|
    ensures Split(line, '\n') == Split(a, '\n') + Split(b, '\n')
    ensures Width(rw, line) == Width(rw, a) + rw('\n') + Width(rw, b)
    ensures line[|line| - 1] == if b == "" then '\n' else b[|b| - 1]
  {
    hide Split, Width;
    var i := 0;
    while line[i] != '\n'
      invariant 0 <= i < |line| && '\n' !in line[..i] && '\n' in line[i..]
      decreases |line| - i
    {
      i := i + 1;
    }
    a, b := line[..i], line[i + 1..];
    BreakAt(rw, a, b);
    assert line == a + ['\n'] + b;
  }

  lemma BreakAt(rw: RuneWidth, a: string, b: string)
    ensures Split(a + ['\n'] + b, '\n') == Split(a, '\n') + Split(b, '\n')
    ensures Width(rw, a + ['\n'] + b) == Width(rw, a) + rw('\n') + Width(rw, b)
  {
    hide Split, Width;
    SplitConcat(a, '\n', b);
    WidthConcat(rw, a + ['\n'], b);
    WidthSnoc(rw, a, '\n');
  }

  /** A line that a break cuts in two shows a part that is narrower than the whole. */
  lemma BrokenLineIsNarrower(rw: RuneWidth, line: string) returns (p: string)
    requires !Plain(line) && rw('│') == 1 && line[|line| - 1] == '│'
    ensures p in Split(line, '\n') && Width(rw, p) < Width(rw, line)
  {
    var a, b := FirstBreak(rw, line);
    p := a;
    SplitPlain(a, '\n');
    assert Split(line, '\n')[0] == a;
  }

  /** Exactly when all lines that the terminal shows are as wide as the table: when no visible column name keeps a
      line break.  None is ever wider. */
  lemma ShownLinesAlignIff(rw: RuneWidth, g: Grid, termWidth: int)
    requires Terminal(rw) && Rectangular(g) && g.columns != [] && PlainCells(g)
    ensures var w := TableWidth(FinalWidths(rw, g, termWidth));
            var shown := Shown(Draw(rw, g, termWidth));
            && (forall p :: p in shown ==> Width(rw, p) <= w)
            && ((forall p :: p in shown ==> Width(rw, p) == w)
                <==> AllPlain(CutRow(rw, g, termWidth, g.columns)))
  {
    hide Draw, Split, Width, FinalWidths, TableWidth, CutRow, Shown, Rectangular, Plain;
    var w, lines := TableWidth(FinalWidths(rw, g, termWidth)), Draw(rw, g, termWidth);
    DrawnLinesAlign(rw, g, termWidth);
    OnlyHeaderMayBreak(rw, g, termWidth);
    forall p | p in Shown(lines)
      ensures Width(rw, p) <= w && (AllPlain(CutRow(rw, g, termWidth, g.columns)) ==> Width(rw, p) == w)
    {
      ShownIs(lines, p);
      var k :| 0 <= k < |lines| && PartOf(p, lines[k]);
      assert lines[k] in lines;
      PartsAreNarrower(rw, lines[k]);
      PlainIsOnePart(lines[k]);
    }
    if !Plain(lines[1]) {
      HeaderEndsInBar(rw, g, termWidth);
      var p := BrokenLineIsNarrower(rw, lines[1]);
      assert PartOf(p, lines[1]);
      ShownIs(lines, p);
    }
  }

  lemma PlainIsOnePart(line: string)
    ensures Plain(line) ==> Split(line, '\n') == [line]
  {
    if Plain(line) {
      SplitPlain(line, '\n');
    }
  }

  lemma HeaderEndsInBar(rw: RuneWidth, g: Grid, termWidth: int)
    requires Terminal(rw) && Rectangular(g)
    ensures var line := Draw(rw, g, termWidth)[1]; line != "" && line[|line| - 1] == '│'
  {
    hide Border, RowLine, FinalWidths;
    RowIsPlainIff(rw, FinalWidths(rw, g, termWidth), CutRow(rw, g, termWidth, g.columns));
  }

  /** From 17 cells on no line that the terminal shows is wider than the terminal, and all are as wide as the table
      unless a visible column name keeps a line break. */
  lemma ShownTableNeverOverflows(rw: RuneWidth, columns: seq<string>, rows: seq<seq<Cell>>, termWidth: int)
    requires Terminal(rw) && columns != [] && termWidth >= 17
    ensures var v := Visible(rw, AllCells(columns, rows), termWidth);
            && Rectangular(v)
            && var w, shown := TableWidth(FinalWidths(rw, v, termWidth)), Shown(Draw(rw, v, termWidth));
            && (forall p :: p in shown ==> Width(rw, p) <= w <= termWidth)
            && ((forall p :: p in shown ==> Width(rw, p) == w)
                <==> AllPlain(CutRow(rw, v, termWidth, v.columns)))
  {
    hide Draw, Width, FinalWidths, TableWidth, CutRow, Shown, PlainCells, Visible;
    var g := AllCells(columns, rows);
    var v := Visible(rw, g, termWidth);
    CellsArePlain(columns, rows);
    VisibleCellsArePlain(rw, g, termWidth);
    VisibleColumnsFit(rw, g, termWidth);
    TableNeverOverflows(rw, g, termWidth);
    ShownLinesAlignIff(rw, v, termWidth);
    DrawIsNotEmpty(rw, v, termWidth);
  }

  lemma DrawIsNotEmpty(rw: RuneWidth, g: Grid, termWidth: int)
    requires Terminal(rw) && Rectangular(g)
    ensures Draw(rw, g, termWidth) != [] && Draw(rw, g, termWidth)[0] in Draw(rw, g, termWidth)
  {
  }

  /** The smallest case in which they are not: one column, whose name has a line break, without a limit. */
  lemma BrokenHeader(rw: RuneWidth, name: string, rows: seq<seq<Cell>>)
    requires Terminal(rw) && !Plain(name)
    ensures var g := AllCells([name], rows);
            && CutRow(rw, g, 0, g.columns) == [name]
            && !Plain(Draw(rw, g, 0)[1])
            && exists p :: p in Shown(Draw(rw, g, 0)) && Width(rw, p) < TableWidth(FinalWidths(rw, g, 0))
  {
    hide Draw, Width, TableWidth, Shown, PlainCells, AllCells, Plain;
    var g := AllCells([name], rows);
    CellsArePlain([name], rows);
    NaturalIsWideEnough(rw, g.columns, g.cells);
    OnlyHeaderMayBreak(rw, g, 0);
    ShownLinesAlignIff(rw, g, 0);
  }
}
