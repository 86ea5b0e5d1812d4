/** What a table shows: which rows and columns, and where each value stands in its line. */
module TableContent {
  import opened Text
  import opened TableFit
  import opened TableFormat

  // ---------- The text of a cell ----------

  /** Each carriage return with a line feed behind it, as one blank. */
  function JoinPairs(s: string): string
    decreases |s|
  {
    if s == "" then ""
    else if |s| >= 2 && s[0] == '\r' && s[1] == '\n' then " " + JoinPairs(s[2..])
    else [s[0]] + JoinPairs(s[1..])
  }

  predicate IsBreak(c: char) {
    c == '\r' || c == '\n' || c == '\t'
  }

  /** Each other line break and tab, as a blank. */
  function Blanked(s: string): (t: string)
    ensures |t| == |s| && forall i :: 0 <= i < |s| ==> t[i] == if IsBreak(s[i]) then ' ' else s[i]
  {
    seq(|s|, i requires 0 <= i < |s| => if IsBreak(s[i]) then ' ' else s[i])
  }

  lemma BlankedCons(c: char, s: string)
    ensures Blanked([c] + s) == [if IsBreak(c) then ' ' else c] + Blanked(s)
  {
  }

  lemma {:induction false} CollapsedIs(s: string)
    ensures CollapseBreaks(s) == Blanked(JoinPairs(s))
    decreases |s|
  {
    hide Blanked;
    if s == "" {
      assert Blanked("") == "";
    } else if |s| >= 2 && s[0] == '\r' && s[1] == '\n' {
      CollapsedIs(s[2..]);
      BlankedCons(' ', JoinPairs(s[2..]));
    } else {
      CollapsedIs(s[1..]);
      BlankedCons(s[0], JoinPairs(s[1..]));
    }
  }

  /** What a cell shows: a dash for a null or missing value, otherwise the value's text with each line break and tab as
      one blank. */
  function Shown(row: seq<Cell>, i: nat): string {
    if i < |row| && row[i].Value? then Blanked(JoinPairs(row[i].text)) else "-"
  }

  lemma {:induction false} PlainPairs(s: string)
    requires forall i :: 0 <= i < |s| ==> !IsBreak(s[i])
    ensures JoinPairs(s) == s
    decreases |s|
  {
    if s != "" {
      PlainPairs(s[1..]);
      assert s == [s[0]] + s[1..];
    }
  }

  /** A text without line breaks and tabs is shown as it is. */
  lemma PlainIsShown(row: seq<Cell>, i: nat)
    requires i < |row| && row[i].Value? && forall k :: 0 <= k < |row[i].text| ==> !IsBreak(row[i].text[k])
    ensures Shown(row, i) == row[i].text
  {
    PlainPairs(row[i].text);
  }

  lemma CellsAreShown(columns: seq<string>, rows: seq<seq<Cell>>, r: nat, i: nat)
    requires r < |rows| && i < |columns|
    ensures AllCells(columns, rows).cells[r][i] == Shown(rows[r], i)
  {
    hide CollapseBreaks, JoinPairs, Blanked;
    if i < |rows[r]| && rows[r][i].Value? {
      CollapsedIs(rows[r][i].text);
    }
  }

  /** The first rows, in order, as many as asked for. */
  lemma ShownRowsAre(rows: seq<seq<Cell>>, maxRows: int)
    ensures |ShownRows(rows, maxRows)| == if 0 < maxRows < |rows| then maxRows else |rows|
    ensures ShownRows(rows, maxRows) == rows[..|ShownRows(rows, maxRows)|]
  {
    WholePrefix(rows);
  }

  // ---------- Visible columns ----------

  /** How many columns are drawn with their own names and values. */
  function OwnColumns(rw: RuneWidth, g: Grid, termWidth: int): nat
    requires g.columns != []
  {
    |g.columns| - |HiddenColumns(rw, g, termWidth)|
  }

  lemma VisibleIs(rw: RuneWidth, g: Grid, termWidth: int, i: nat)
    requires Rectangular(g) && g.columns != [] && i < OwnColumns(rw, g, termWidth)
    ensures var v := Visible(rw, g, termWidth);
            && Rectangular(v) && i < |v.columns| && v.columns[i] == g.columns[i] && |v.cells| == |g.cells|
            && forall r :: 0 <= r < |g.cells| ==> v.cells[r][i] == g.cells[r][i]
  {
    hide CountFrom, Placeholder;
  }

  /** The minimum widths of the headers. */
  function HeaderMinimum(rw: RuneWidth, columns: seq<string>): (ws: seq<int>)
    ensures |ws| == |columns|
    ensures forall i :: 0 <= i < |ws| ==> ws[i] == Max(Width(rw, columns[i]), 4)
  {
    seq(|columns|, i requires 0 <= i < |columns| => Max(Width(rw, columns[i]), 4))
  }

  lemma {:induction false} NeededIsTableWidth(rw: RuneWidth, columns: seq<string>)
    ensures NeededBy(rw, columns) == TableWidth(HeaderMinimum(rw, columns))
  {
    hide Width;
    if columns != [] {
      var n := |columns| - 1;
      NeededIsTableWidth(rw, columns[..n]);
      assert HeaderMinimum(rw, columns)[..n] == HeaderMinimum(rw, columns[..n]);
    }
  }

  lemma {:induction false} NeededGrows(rw: RuneWidth, columns: seq<string>, n: nat)
    requires n <= |columns|
    ensures NeededBy(rw, columns[..n]) <= NeededBy(rw, columns)
    decreases |columns|
  {
    hide Width;
    if n == |columns| {
      WholePrefix(columns);
    } else {
      var m := |columns| - 1;
      NeededGrows(rw, columns[..m], n);
      assert columns[..m][..n] == columns[..n];
    }
  }

  /** Columns are hidden exactly if the table is wider than the terminal even with every column at the width of its
      header and at least the minimum. */
  lemma HiddenIff(rw: RuneWidth, g: Grid, termWidth: int)
    requires g.columns != []
    ensures HiddenColumns(rw, g, termWidth) != []
       <==> termWidth > 0 && |g.columns| > 1 && TableWidth(HeaderMinimum(rw, g.columns)) > termWidth
  {
    hide NeededBy, TableWidth, HeaderMinimum;
    var columns := g.columns;
    var n := CountFrom(rw, columns, 0, termWidth);
    NeededIsTableWidth(rw, columns);
    WholePrefix(columns);
    if n < |columns| {
      NeededGrows(rw, columns, n + 1);
    }
  }

  /** How many columns are shown if some are hidden: the first, and as many more as leave room, at these widths, for one
      more column, whose place the placeholder takes. */
  lemma ShownColumnsAreMaximal(rw: RuneWidth, g: Grid, termWidth: int)
    requires Rectangular(g) && HiddenColumns(rw, g, termWidth) != [] && g.columns != []
    ensures var k := |Visible(rw, g, termWidth).columns| - 1;
            && 1 <= k < |g.columns|
            && (k > 1 ==> TableWidth(HeaderMinimum(rw, g.columns[..k + 1])) <= termWidth)
            && forall j :: k + 1 < j <= |g.columns| ==> TableWidth(HeaderMinimum(rw, g.columns[..j])) > termWidth
  {
    hide NeededBy, TableWidth, HeaderMinimum, Placeholder;
    var columns := g.columns;
    var n, k := CountFrom(rw, columns, 0, termWidth), |Visible(rw, g, termWidth).columns| - 1;
    NeededIsTableWidth(rw, columns[..k + 1]);
    forall j | k + 1 < j <= |columns| ensures TableWidth(HeaderMinimum(rw, columns[..j])) > termWidth {
      NeededIsTableWidth(rw, columns[..j]);
      assert columns[..j][..n + 1] == columns[..n + 1];
      NeededGrows(rw, columns[..j], n + 1);
    }
  }

  // ---------- Where a cell stands ----------

  lemma {:induction false} RowShows(rw: RuneWidth, ws: seq<int>, cells: seq<string>, i: nat)
    returns (a: string, pad: string, b: string)
    requires Terminal(rw) && i < |cells| <= |ws|
    requires forall k :: 0 <= k < |cells| ==> Width(rw, cells[k]) <= ws[k]
    ensures RowLine(rw, ws, cells) == a + (" " + cells[i] + pad + " │") + b
    ensures Width(rw, a) == TableWidth(ws[..i])
    ensures Width(rw, cells[i]) + |pad| == ws[i] && forall k :: 0 <= k < |pad| ==> pad[k] == ' '
  {
    hide Width, Terminal, TableWidth;
    var n := |cells| - 1;
    if i == n {
      a, pad, b := RowLine(rw, ws, cells[..n]), Repeat(' ', ws[n] - Width(rw, cells[n])), "";
      RepeatIs(' ', ws[n] - Width(rw, cells[n]));
      RowLinePrefix(rw, ws, cells[..n], n);
      RowWidth(rw, ws[..n], cells[..n]);
      assert Boxed(rw, cells[n], ws[n]) == " " + cells[n] + pad + " │";
    } else {
      a, pad, b := RowShows(rw, ws, cells[..n], i);
      ConcatAssoc(a + (" " + cells[i] + pad + " │"), b, Boxed(rw, cells[n], ws[n]));
      b := b + Boxed(rw, cells[n], ws[n]);
    }
  }

  lemma {:induction false} RepeatIs(c: char, n: int)
    ensures |Repeat(c, n)| == (if n < 0 then 0 else n) && forall k :: 0 <= k < |Repeat(c, n)| ==> Repeat(c, n)[k] == c
  {
    if n > 0 {
      RepeatIs(c, n - 1);
    }
  }

  /** The text that is drawn for a cell: all of it, or its longest prefix that leaves room for three dots. */
  predicate IsCut(rw: RuneWidth, text: string, width: int, cut: string) {
    && Width(rw, cut) <= width
    && (Width(rw, text) <= width ==> cut == text)
    && (Width(rw, text) > width ==>
          exists n :: 0 <= n < |text| && cut == text[..n] + "..."
                      && Width(rw, text[..n]) <= width - 3 < Width(rw, text[..n + 1]))
  }

  lemma CutIs(rw: RuneWidth, v: Grid, termWidth: int, cells: seq<string>, i: nat)
    requires Terminal(rw) && Rectangular(v) && (cells == v.columns || cells in v.cells) && i < |cells|
    ensures i < |v.columns| == |FinalWidths(rw, v, termWidth)|
    ensures IsCut(rw, cells[i], FinalWidths(rw, v, termWidth)[i], CutRow(rw, v, termWidth, cells)[i])
  {
    hide FinalWidths, Terminal, CutRow, Keep;
    var row, ws := CutRow(rw, v, termWidth, cells), FinalWidths(rw, v, termWidth);
    NoCellIsSliced(rw, v, termWidth, cells);
    assert Truncate(rw, cells[i], ws[i]) == Str(row[i]);
    TruncateFits(rw, cells[i], ws[i]);
    if Width(rw, cells[i]) > ws[i] {
      assert row[i] != cells[i];
    }
  }

  /** A drawn line has the cut of its i-th cell at the i-th column, between blanks, up to the bar behind it. */
  ghost predicate ShowsAt(rw: RuneWidth, ws: seq<int>, line: string, i: nat, text: string)
    requires i < |ws|
  {
    exists a, cut, pad, b ::
      && line == a + (" " + cut + pad + " │") + b
      && Width(rw, a) == TableWidth(ws[..i])
      && Width(rw, cut) + |pad| == ws[i] && (forall k :: 0 <= k < |pad| ==> pad[k] == ' ')
      && IsCut(rw, text, ws[i], cut)
  }

  lemma DrawnShows(rw: RuneWidth, v: Grid, termWidth: int, cells: seq<string>, i: nat)
    requires Terminal(rw) && Rectangular(v) && (cells == v.columns || cells in v.cells) && i < |cells|
    ensures i < |FinalWidths(rw, v, termWidth)|
    ensures var ws := FinalWidths(rw, v, termWidth);
            ShowsAt(rw, ws, RowLine(rw, ws, CutRow(rw, v, termWidth, cells)), i, cells[i])
  {
    hide FinalWidths, Terminal, CutRow, Width, TableWidth, IsCut, RowLine;
    var row, ws := CutRow(rw, v, termWidth, cells), FinalWidths(rw, v, termWidth);
    CutIs(rw, v, termWidth, cells, i);
    var a, pad, b := RowShows(rw, ws, row, i);
  }

  /** What the box shows: in its second line the names of the visible columns, and in line r + 4 the values of row r,
      each at its column. */
  lemma BoxShows(rw: RuneWidth, columns: seq<string>, rows: seq<seq<Cell>>, termWidth: int, i: nat)
    requires Terminal(rw) && i < |columns| && i < OwnColumns(rw, AllCells(columns, rows), termWidth)
    ensures var g := AllCells(columns, rows);
            var v := Visible(rw, g, termWidth);
            && Rectangular(v) && i < |FinalWidths(rw, v, termWidth)|
            && var lines, ws := Draw(rw, v, termWidth), FinalWidths(rw, v, termWidth);
            && |lines| == |rows| + 4
            && ShowsAt(rw, ws, lines[1], i, columns[i])
            && forall r :: 0 <= r < |rows| ==> ShowsAt(rw, ws, lines[r + 3], i, Shown(rows[r], i))
  {
    hide FinalWidths, Terminal, CutRow, Width, ShowsAt, RowLine, Visible, Shown, OwnColumns, Border;
    var g := AllCells(columns, rows);
    var v := Visible(rw, g, termWidth);
    var ws := FinalWidths(rw, v, termWidth);
    VisibleIs(rw, g, termWidth, i);
    DrawnShows(rw, v, termWidth, v.columns, i);
    forall r | 0 <= r < |rows| ensures ShowsAt(rw, ws, Draw(rw, v, termWidth)[r + 3], i, Shown(rows[r], i)) {
      DrawnShows(rw, v, termWidth, v.cells[r], i);
      CellsAreShown(columns, rows, r, i);
      DataLine(rw, v, termWidth, r);
    }
  }

  lemma DataLine(rw: RuneWidth, v: Grid, termWidth: int, r: nat)
    requires Terminal(rw) && Rectangular(v) && r < |v.cells|
    ensures var ws := FinalWidths(rw, v, termWidth);
            && |CutRow(rw, v, termWidth, v.cells[r])| == |ws|
            && Draw(rw, v, termWidth)[r + 3] == RowLine(rw, ws, CutRow(rw, v, termWidth, v.cells[r]))
  {
    hide FinalWidths, Terminal, CutRow, RowLine, Border;
  }

  // ---------- Natural widths ----------

  /** A column is naturally as wide as its header or one of its cells. */
  lemma {:induction false} NaturalIsAttained(rw: RuneWidth, columns: seq<string>, cells: seq<seq<string>>, i: nat)
    requires i < |columns|
    ensures var w := NaturalWidths(rw, columns, cells)[i];
            || w == Width(rw, columns[i])
            || exists r :: 0 <= r < |cells| && i < |cells[r]| && w == Width(rw, cells[r][i])
  {
    hide Width;
    if cells != [] {
      var n := |cells| - 1;
      NaturalIsAttained(rw, columns, cells[..n], i);
      var w := NaturalWidths(rw, columns, cells[..n])[i];
      if r :| 0 <= r < n && i < |cells[..n][r]| && w == Width(rw, cells[..n][r][i]) {
        assert cells[r] == cells[..n][r];
      }
    }
  }

  // ---------- Borders ----------

  /** A border consists of its corners and, for each column, a run of dashes two longer than the column is wide, with
      the middle mark between them. */
  lemma {:induction false} BorderParts(ws: seq<int>, mid: char)
    requires ws != [] && mid != '─'
    ensures var runs := Split(Segments(ws, mid), mid);
            |runs| == |ws| && forall i :: 0 <= i < |ws| ==> runs[i] == Repeat('─', ws[i] + 2)
  {
    hide Repeat, Segments, Split;
    var n := |ws| - 1;
    var run := Repeat('─', ws[n] + 2);
    RepeatIs('─', ws[n] + 2);
    SplitPlain(run, mid);
    SegmentsStep(ws, n, mid);
    WholePrefix(ws);
    if n == 0 {
      ConcatNil(run);
    } else {
      BorderParts(ws[..n], mid);
      SplitConcat(Segments(ws[..n], mid), mid, run);
    }
  }

  /** The line is a border: two blanks, the left corner, the runs of dashes with the marks between them, and the right
      corner. */
  predicate IsBorder(line: string, ws: seq<int>, left: char, mid: char, right: char) {
    && |line| >= 4 && line[..3] == "  " + [left] && line[|line| - 1] == right
    && var runs := Split(line[3..|line| - 1], mid);
       |runs| == |ws| && forall i :: 0 <= i < |ws| ==> runs[i] == Repeat('─', ws[i] + 2)
  }

  lemma BorderIs(ws: seq<int>, left: char, mid: char, right: char)
    requires ws != [] && mid != '─'
    ensures IsBorder(Border(ws, left, mid, right), ws, left, mid, right)
  {
    hide Segments, Repeat, Split;
    BorderParts(ws, mid);
    var line := Border(ws, left, mid, right);
    assert line[3..|line| - 1] == Segments(ws, mid);
  }

  /** The frame of the box: above the names, below them, and at the end. */
  lemma FrameIs(rw: RuneWidth, v: Grid, termWidth: int)
    requires Terminal(rw) && Rectangular(v) && FinalWidths(rw, v, termWidth) != []
    ensures var lines, ws := Draw(rw, v, termWidth), FinalWidths(rw, v, termWidth);
            && IsBorder(lines[0], ws, '┌', '┬', '┐') && IsBorder(lines[2], ws, '├', '┼', '┤')
            && IsBorder(lines[|lines| - 1], ws, '└', '┴', '┘')
  {
    hide IsBorder, FinalWidths, RowLine, CutRow, Border;
    var ws := FinalWidths(rw, v, termWidth);
    BorderIs(ws, '┌', '┬', '┐');
    BorderIs(ws, '├', '┼', '┤');
    BorderIs(ws, '└', '┴', '┘');
  }

  /** The column that stands for the hidden ones has no values. */
  lemma PlaceholderIsEmpty(rw: RuneWidth, g: Grid, termWidth: int, r: nat)
    requires Rectangular(g) && g.columns != [] && r < |g.cells| && HiddenColumns(rw, g, termWidth) != []
    ensures var v := Visible(rw, g, termWidth);
            |v.cells| == |g.cells| && v.cells[r] != [] && v.cells[r][|v.cells[r]| - 1] == ""
  {
    hide CountFrom, Placeholder;
  }

  // ---------- The vertical mode ----------

  /** The lines of row r, in the place where they stand. */
  lemma {:induction false} RecordStands(rw: RuneWidth, g: Grid, termWidth: int, n: nat, r: nat)
    returns (b: seq<string>)
    requires Rectangular(g) && r < n <= |g.cells|
    ensures FirstRecords(rw, g, termWidth, n)
         == FirstRecords(rw, g, termWidth, r)
            + ([RowTitle(r)] + ValueLines(rw, g.columns, g.cells[r], termWidth)) + b
  {
    hide RowTitle, ValueLines;
    if r == n - 1 {
      b := [];
      ConcatNil(FirstRecords(rw, g, termWidth, n));
    } else {
      b := RecordStands(rw, g, termWidth, n - 1, r);
      var more := [RowTitle(n - 1)] + ValueLines(rw, g.columns, g.cells[n - 1], termWidth);
      ConcatAssoc(FirstRecords(rw, g, termWidth, r)
                  + ([RowTitle(r)] + ValueLines(rw, g.columns, g.cells[r], termWidth)), b, more);
      b := b + more;
    }
  }

  lemma {:induction false} RecordsBefore(rw: RuneWidth, g: Grid, termWidth: int, r: nat)
    requires Rectangular(g) && r <= |g.cells|
    ensures |FirstRecords(rw, g, termWidth, r)| == r * (|g.columns| + 1)
  {
    hide RowTitle, ValueLines;
    if r > 0 {
      RecordsBefore(rw, g, termWidth, r - 1);
      assert r * (|g.columns| + 1) == (r - 1) * (|g.columns| + 1) + (|g.columns| + 1);
    }
  }

  /** The name at the right of a field of `w` cells, and the value or its cut behind the separator. */
  ghost predicate ShowsValue(rw: RuneWidth, w: nat, line: string, name: string, text: string, valueWidth: int) {
    exists blanks, cut ::
      && line == "  " + blanks + name + " : " + cut
      && Width(rw, name) + |blanks| == w && (forall j :: 0 <= j < |blanks| ==> blanks[j] == ' ')
      && IsCut(rw, text, valueWidth, cut)
  }

  lemma ValueIsShown(rw: RuneWidth, w: nat, valueWidth: int, name: string, text: string)
    requires Terminal(rw) && valueWidth > 3 && Width(rw, name) <= w
    ensures ShowsValue(rw, w, ValueLine(rw, w, valueWidth, name, text), name, text, valueWidth)
  {
    hide IsCut, Terminal, Width, Repeat, Truncate;
    RepeatIs(' ', w - Width(rw, name));
    CutValue(rw, text, valueWidth);
    var blanks, cut := Repeat(' ', w - Width(rw, name)), Truncate(rw, text, valueWidth).text;
    assert ValueLine(rw, w, valueWidth, name, text) == "  " + blanks + name + " : " + cut;
  }

  /** What the vertical mode shows: for every row, behind its title, one line for each column, with the column's name at
      the right of a field as wide as the longest name, and the value or its cut behind the separator. */
  lemma VerticalShows(rw: RuneWidth, columns: seq<string>, rows: seq<seq<Cell>>, termWidth: int, r: nat, i: nat)
    returns (k: nat)
    requires Terminal(rw) && r < |rows| && i < |columns|
    ensures k == r * (|columns| + 1)
    ensures var lines := VerticalLines(rw, AllCells(columns, rows), termWidth);
            var w := MaxNameWidth(rw, columns);
            && k + 1 + i < |lines| && lines[k] == "  *** Row " + Decimal(r + 1) + " ***"
            && ShowsValue(rw, w, lines[k + 1 + i], columns[i], Shown(rows[r], i), Max(termWidth - w - 7, 10))
  {
    hide FirstRecords, MaxNameWidth, Terminal, Shown, ShowsValue, ValueLine, Width, Decimal, AllCells;
    var g := AllCells(columns, rows);
    var b := RecordStands(rw, g, termWidth, |g.cells|, r);
    RecordsBefore(rw, g, termWidth, r);
    CellsAreShown(columns, rows, r, i);
    var w := MaxNameWidth(rw, columns);
    var a := FirstRecords(rw, g, termWidth, r);
    RecordIndex(a, RowTitle(r), ValueLines(rw, columns, g.cells[r], termWidth), b, i);
    ValueIsShown(rw, w, ValueWidth(w, termWidth), columns[i], Shown(rows[r], i));
    k := |a|;
  }

  lemma RecordIndex(a: seq<string>, title: string, values: seq<string>, b: seq<string>, i: nat)
    requires i < |values|
    ensures var all := a + ([title] + values) + b; all[|a|] == title && all[|a| + 1 + i] == values[i]
  {
  }

  lemma CutValue(rw: RuneWidth, text: string, width: int)
    requires Terminal(rw) && width > 3
    ensures Truncate(rw, text, width).Str? && IsCut(rw, text, width, Truncate(rw, text, width).text)
  {
    hide Keep, Terminal;
    TruncateFits(rw, text, width);
    if Width(rw, text) > width {
      assert Truncate(rw, text, width).text != text;
    }
  }

  // ---------- What is said of the rest ----------

  /** The names one after another, each but the first behind a comma and a blank. */
  lemma {:induction false} ListedNames(names: seq<string>, i: nat) returns (a: string, b: string)
    requires i < |names|
    ensures Listed(names) == a + names[i] + b
    ensures i == 0 <==> a == ""
    ensures i > 0 ==> |a| >= 2 && a[|a| - 2..] == ", " && a[..|a| - 2] == Listed(names[..i])
    ensures i == |names| - 1 <==> b == ""
    ensures i < |names| - 1 ==> ", " <= b
  {
    hide Listed;
    var n := |names| - 1;
    ListedStep(names);
    if n == 0 {
      a, b := "", "";
    } else if i == n {
      a, b := Listed(names[..n]) + ", ", "";
    } else {
      var c;
      a, c := ListedNames(names[..n], i);
      assert names[..n][..i] == names[..i];
      b := c + ", " + names[n];
      NameStands(a, names[i], c, names[n]);
    }
  }

  lemma ListedStep(names: seq<string>)
    requires names != []
    ensures var n := |names| - 1;
            Listed(names) == if n == 0 then names[0] else Listed(names[..n]) + ", " + names[n]
  {
  }

  lemma NameStands(a: string, name: string, c: string, next: string)
    ensures a + name + c + ", " + next == a + name + (c + ", " + next) && c + ", " + next != ""
    ensures c == "" || ", " <= c ==> ", " <= c + ", " + next
  {
  }

  /** The numeral is made of digits and reads as the number. */
  predicate Numeral(s: string, n: nat) {
    (forall i :: 0 <= i < |s| ==> '0' <= s[i] <= '9') && Text.Value(s) == n
  }

  lemma DecimalIsNumeral(n: nat)
    ensures Numeral(Decimal(n), n)
  {
    DecimalReads(n);
  }

  /** The lines below the table: the number of rows that are not shown, and the number and the names of the columns that
      are hidden, each only if there are any. */
  lemma FootersSay(remaining: nat, hidden: seq<string>) returns (rows: string, columns: string)
    ensures Numeral(rows, remaining) && Numeral(columns, |hidden|)
    ensures var lines := Footers(remaining, hidden);
            && |lines| == (if remaining > 0 then 1 else 0) + (if hidden != [] then 1 else 0)
            && (remaining > 0 ==> lines[0] == "  ... and " + rows + " more rows")
            && (hidden != [] ==>
                  lines[|lines| - 1] == "  ⚠ 隐藏 " + columns + " 列（宽度不够）: " + Listed(hidden))
  {
    hide Decimal, Listed;
    DecimalIsNumeral(remaining);
    DecimalIsNumeral(|hidden|);
    rows, columns := Decimal(remaining), Decimal(|hidden|);
  }

  /** The column that stands for the hidden ones names their number. */
  lemma PlaceholderSays(n: nat) returns (count: string)
    ensures Numeral(count, n) && Placeholder(n) == "...(" + count + "列)"
  {
    DecimalIsNumeral(n);
    count := Decimal(n);
  }
}
