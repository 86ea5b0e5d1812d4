/** Formatting a result set: as a box, or vertically with one line for each value. */
module TableFormat {
  import opened Text
  import opened TableFit

  // ---------- The vertical mode ----------

  function MaxNameWidth(rw: RuneWidth, columns: seq<string>): (w: nat)
    ensures forall i :: 0 <= i < |columns| ==> Width(rw, columns[i]) <= w
    ensures columns != [] ==> exists i :: 0 <= i < |columns| && Width(rw, columns[i]) == w
  {
    if columns == [] then 0
    else
      var n := |columns| - 1;
      var w := MaxNameWidth(rw, columns[..n]);
      if n > 0 && Width(rw, columns[n]) <= w then
        assert exists i :: 0 <= i < n && Width(rw, columns[..n][i]) == w;
        w
      else
        Width(rw, columns[n])
  }

  /** The cells for a value: what indent, name, separator and margin leave, but at least ten. */
  function ValueWidth(nameWidth: nat, termWidth: int): int {
    Max(termWidth - 2 - nameWidth - 3 - 2, 10)
  }

  const SEPARATOR: string := " : "

  /** A name, aligned to the right, and its value, cut to the value width. */
  function ValueLine(rw: RuneWidth, nameWidth: nat, valueWidth: int, name: string, value: string): string
    requires valueWidth > 3
  {
    INDENT + Repeat(' ', nameWidth - Width(rw, name)) + name + SEPARATOR + Truncate(rw, value, valueWidth).text
  }

  function RowTitle(r: nat): string {
    "  *** Row " + Decimal(r + 1) + " ***"
  }

  function ValueLines(rw: RuneWidth, columns: seq<string>, cells: seq<string>, termWidth: int): (lines: seq<string>)
    requires |cells| == |columns|
    ensures |lines| == |columns|
    ensures var w := MaxNameWidth(rw, columns);
            forall j :: 0 <= j < |columns| ==>
              lines[j] == ValueLine(rw, w, ValueWidth(w, termWidth), columns[j], cells[j])
  {
    var w := MaxNameWidth(rw, columns);
    seq(|columns|, j requires 0 <= j < |columns| =>
          ValueLine(rw, w, ValueWidth(w, termWidth), columns[j], cells[j]))
  }

  function VerticalLines(rw: RuneWidth, g: Grid, termWidth: int): seq<string>
    requires Rectangular(g)
  {
    FirstRecords(rw, g, termWidth, |g.cells|)
  }

  /** The lines of the first n rows. */
  function FirstRecords(rw: RuneWidth, g: Grid, termWidth: int, n: nat): seq<string>
    requires Rectangular(g) && n <= |g.cells|
  {
    if n == 0 then []
    else
      FirstRecords(rw, g, termWidth, n - 1)
      + ([RowTitle(n - 1)] + ValueLines(rw, g.columns, g.cells[n - 1], termWidth))
  }

  method ComputeMaxNameWidth(rw: RuneWidth, columns: seq<string>) returns (w: nat)
    ensures w == MaxNameWidth(rw, columns)
  {
    w := 0;
    for i := 0 to |columns|
      invariant w == MaxNameWidth(rw, columns[..i])
    {
      PrefixStep(columns, i);
      if Width(rw, columns[i]) > w {
        w := Width(rw, columns[i]);
      }
    }
    WholePrefix(columns);
  }

  method RenderVertical(rw: RuneWidth, g: Grid, termWidth: int) returns (lines: seq<string>)
    requires Terminal(rw) && Rectangular(g)
    ensures lines == VerticalLines(rw, g, termWidth)
  {
    hide ValueLine, Terminal, Width;
    var maxNameW := ComputeMaxNameWidth(rw, g.columns);
    var valueW := termWidth - 2 - maxNameW - 3 - 2;
    if valueW < 10 {
      valueW := 10;
    }
    lines := [];
    for r := 0 to |g.cells|
      invariant lines == FirstRecords(rw, g, termWidth, r)
    {
      var record := RenderRecord(rw, g.columns, g.cells[r], maxNameW, valueW, termWidth);
      lines := lines + ([RowTitle(r)] + record);
    }
  }

  /** The inner loop. */
  method RenderRecord(rw: RuneWidth, columns: seq<string>, cells: seq<string>, maxNameW: nat, valueW: int,
                      ghost termWidth: int)
    returns (lines: seq<string>)
    requires Terminal(rw) && |cells| == |columns| && maxNameW == MaxNameWidth(rw, columns)
    requires valueW == ValueWidth(maxNameW, termWidth)
    ensures lines == ValueLines(rw, columns, cells, termWidth)
  {
    hide Terminal, Width;
    lines := [];
    for j := 0 to |columns|
      invariant |lines| == j
      invariant forall k :: 0 <= k < j ==> lines[k] == ValueLine(rw, maxNameW, valueW, columns[k], cells[k])
    {
      TruncateFits(rw, cells[j], valueW);
      var value := TruncateStr(rw, cells[j], valueW);
      var pad := maxNameW - Width(rw, columns[j]);
      lines := lines + [INDENT + Repeat(' ', pad) + columns[j] + SEPARATOR + value.text];
    }
  }

  lemma SeparatorWidth(rw: RuneWidth)
    requires Terminal(rw)
    ensures Width(rw, SEPARATOR) == 2 + rw(':') && Width(rw, INDENT) == 2
  {
    EmptyWidth(rw);
    hide Width;
    WidthSnoc(rw, "", ' ');
    WidthSnoc(rw, " ", ':');
    WidthSnoc(rw, " :", ' ');
    WidthSnoc(rw, " ", ' ');
    assert "" + [' '] == " " && " " + [':'] == " :" && " :" + [' '] == SEPARATOR && " " + [' '] == INDENT;
  }

  lemma ValueLineWidth(rw: RuneWidth, nameWidth: nat, valueWidth: int, name: string, value: string)
    requires Terminal(rw) && valueWidth > 3 && Width(rw, name) <= nameWidth
    ensures Truncate(rw, value, valueWidth).Str?
    ensures Width(rw, ValueLine(rw, nameWidth, valueWidth, name, value))
         == 4 + rw(':') + nameWidth + Width(rw, Truncate(rw, value, valueWidth).text)
    ensures Width(rw, Truncate(rw, value, valueWidth).text) <= valueWidth
  {
    hide Width;
    var pad := Repeat(' ', nameWidth - Width(rw, name));
    TruncateFits(rw, value, valueWidth);
    SeparatorWidth(rw);
    WidthRepeat(rw, ' ', nameWidth - Width(rw, name));
    WidthConcat(rw, INDENT, pad);
    WidthConcat(rw, INDENT + pad, name);
    WidthConcat(rw, INDENT + pad + name, SEPARATOR);
    WidthConcat(rw, INDENT + pad + name + SEPARATOR, Truncate(rw, value, valueWidth).text);
  }

  /** Names are aligned and values never sliced: every value starts behind the longest name, and its line leaves a
      margin of two cells whenever the terminal has room for the longest name and ten cells for the value. */
  lemma ValuesFit(rw: RuneWidth, g: Grid, termWidth: int, r: nat, j: nat)
    requires Terminal(rw) && rw(':') == 1 && Rectangular(g) && r < |g.cells| && j < |g.columns|
    ensures var w := MaxNameWidth(rw, g.columns);
            var line := ValueLines(rw, g.columns, g.cells[r], termWidth)[j];
            var value := Truncate(rw, g.cells[r][j], ValueWidth(w, termWidth));
            && value.Str? && Width(rw, line) == 5 + w + Width(rw, value.text)
            && Width(rw, line) <= Max(termWidth - 2, w + 15)
  {
    hide Width, ValueLine;
    var w := MaxNameWidth(rw, g.columns);
    ValueLineWidth(rw, w, ValueWidth(w, termWidth), g.columns[j], g.cells[r][j]);
  }

  // ---------- All modes ----------

  datatype Output =
    | NoRows
    | Box(lines: seq<string>, footers: seq<string>)
    | Records(lines: seq<string>, footers: seq<string>)

  function Listed(names: seq<string>): string {
    if |names| == 0 then "" else if |names| == 1 then names[0]
    else Listed(names[..|names| - 1]) + ", " + names[|names| - 1]
  }

  /** The lines below the box: how many rows and which columns it does not show. */
  function Footers(remaining: nat, hidden: seq<string>): (lines: seq<string>)
    ensures |lines| == (if remaining > 0 then 1 else 0) + (if hidden != [] then 1 else 0)
  {
    (if remaining > 0 then ["  ... and " + Decimal(remaining) + " more rows"] else [])
    + (if hidden != [] then ["  ⚠ 隐藏 " + Decimal(|hidden|) + " 列（宽度不够）: " + Listed(hidden)] else [])
  }

  function ShownRows(rows: seq<seq<Cell>>, maxRows: int): seq<seq<Cell>> {
    if 0 < maxRows < |rows| then rows[..maxRows] else rows
  }

  method FormatTableOpts(rw: RuneWidth, columns: seq<string>, rows: seq<seq<Cell>>, maxRows: int, termWidth: int,
                         vertical: bool)
    returns (out: Output)
    requires Terminal(rw)
    ensures out.NoRows? <==> columns == [] || rows == []
    ensures out.Records? <==> vertical && columns != [] && rows != []
    ensures out.Records? ==>
      && out.lines == VerticalLines(rw, AllCells(columns, ShownRows(rows, maxRows)), termWidth)
      && out.footers == Footers(|rows| - |ShownRows(rows, maxRows)|, [])
    ensures out.Box? ==>
      var g := AllCells(columns, ShownRows(rows, maxRows));
      var v := Visible(rw, g, termWidth);
      && Rectangular(v) && out.lines == Draw(rw, v, termWidth)
      && out.footers == Footers(|rows| - |ShownRows(rows, maxRows)|, HiddenColumns(rw, g, termWidth))
    ensures out.Box? && termWidth >= 17 ==>
      forall line :: line in out.lines ==> Width(rw, line) <= termWidth
  {
    if columns == [] || rows == [] {
      return NoRows;
    }
    hide Draw, Visible, HiddenColumns, Terminal, Rectangular, Width;
    var g := AllCells(columns, ShownRows(rows, maxRows));
    if vertical {
      var records := RenderVertical(rw, g, termWidth);
      return Records(records, Footers(|rows| - |ShownRows(rows, maxRows)|, []));
    }
    var v, hidden := SelectColumns(rw, g, termWidth);
    var lines := DrawBox(rw, v, termWidth);
    if termWidth >= 17 {
      TableNeverOverflows(rw, g, termWidth);
    }
    out := Box(lines, Footers(|rows| - |ShownRows(rows, maxRows)|, hidden));
  }
}
