/** The box-drawing table: which columns are shown, how wide they are, and how cells are cut to fit.

    `rw` gives the display width of a character, as the terminal width library does; the width of a text is
    the sum over its characters. */
module TableFit {
  import opened Text

  type RuneWidth = char -> nat

  const MIN_COL_WIDTH := 4
  const INDENT: string := "  "

  const BOX: set<char> := {'┌', '┬', '┐', '├', '┼', '┤', '└', '┴', '┘', '│', '─'}

  /** No character is wider than two cells; blanks, dots and the box characters take one cell. */
  ghost predicate Terminal(rw: RuneWidth) {
    && (forall c :: rw(c) <= 2)
    && rw(' ') == 1 && rw('.') == 1
    && (forall c :: c in BOX ==> rw(c) == 1)
  }

  function Width(rw: RuneWidth, s: string): nat {
    if s == "" then 0 else Width(rw, s[..|s| - 1]) + rw(s[|s| - 1])
  }

  lemma WidthSnoc(rw: RuneWidth, s: string, c: char)
    ensures Width(rw, s + [c]) == Width(rw, s) + rw(c)
  {
    SnocInit(s, c);
  }

  lemma {:induction false} WidthConcat(rw: RuneWidth, a: string, b: string)
    ensures Width(rw, a + b) == Width(rw, a) + Width(rw, b)
  {
    if b == "" {
      ConcatNil(a);
    } else {
      WidthConcat(rw, a, b[..|b| - 1]);
      ConcatAssoc(a, b[..|b| - 1], [b[|b| - 1]]);
      InitLast(b);
      WidthSnoc(rw, a + b[..|b| - 1], b[|b| - 1]);
    }
  }

  function Repeat(c: char, n: int): string {
    if n <= 0 then "" else Repeat(c, n - 1) + [c]
  }

  lemma {:induction false} WidthRepeat(rw: RuneWidth, c: char, n: int)
    requires rw(c) == 1
    ensures Width(rw, Repeat(c, n)) == if n < 0 then 0 else n
  {
    if n > 0 {
      WidthRepeat(rw, c, n - 1);
      WidthSnoc(rw, Repeat(c, n - 1), c);
    }
  }

  function Max(a: int, b: int): int { if a < b then b else a }

  function Min(a: int, b: int): int { if a < b then a else b }

  // ---------- Fitting the widths ----------

  function Sum(ws: seq<int>): int {
    if ws == [] then 0 else Sum(ws[..|ws| - 1]) + ws[|ws| - 1]
  }

  /** Indent and first border, then each column with two blanks and its border. */
  function TableWidth(ws: seq<int>): int {
    3 + Sum(ws) + 3 * |ws|
  }

  method ComputeTableWidth(ws: array<int>) returns (total: int)
    ensures total == TableWidth(ws[..])
  {
    total := 3;
    for i := 0 to ws.Length
      invariant total == TableWidth(ws[..i])
    {
      PrefixStep(ws[..], i);
      assert ws[..][..i + 1] == ws[..i + 1] && ws[..][..i] == ws[..i];
      total := total + (ws[i] + 3);
    }
    assert ws[..ws.Length] == ws[..];
  }

  /** The first of the widest columns. */
  function Widest(ws: seq<int>): (m: nat)
    requires ws != []
    ensures m < |ws|
    ensures forall i :: 0 <= i < |ws| ==> ws[i] <= ws[m]
    ensures forall i :: 0 <= i < m ==> ws[i] < ws[m]
  {
    if |ws| == 1 then 0
    else
      var m := Widest(ws[..|ws| - 1]);
      if ws[|ws| - 1] > ws[m] then |ws| - 1 else m
  }

  lemma {:induction false} SumUpdate(ws: seq<int>, i: nat, x: int)
    requires i < |ws|
    ensures Sum(ws[i := x]) == Sum(ws) - ws[i] + x
  {
    var n := |ws| - 1;
    if i < n {
      SumUpdate(ws[..n], i, x);
      assert ws[i := x][..n] == ws[..n][i := x];
    } else {
      assert ws[i := x][..n] == ws[..n];
    }
  }

  /** Takes one cell off the first of the widest columns until the table fits or no column exceeds the
      minimum. */
  function Fit(ws: seq<int>, termWidth: int): (r: seq<int>)
    requires ws != [] || termWidth >= 3
    ensures |r| == |ws|
    decreases TableWidth(ws) - termWidth
  {
    if TableWidth(ws) <= termWidth then ws
    else
      var m := Widest(ws);
      if ws[m] <= MIN_COL_WIDTH then ws
      else
        SumUpdate(ws, m, ws[m] - 1);
        Fit(ws[m := ws[m] - 1], termWidth)
  }

  /** The inner loop of the fitting. */
  method FindWidest(widths: array<int>) returns (maxIdx: nat)
    requires widths.Length > 0
    ensures maxIdx == Widest(widths[..])
  {
    maxIdx := 0;
    for i := 0 to widths.Length
      invariant maxIdx < widths.Length && maxIdx <= i
      invariant forall k :: 0 <= k < i ==> widths[k] <= widths[maxIdx]
      invariant forall k :: 0 <= k < maxIdx ==> widths[k] < widths[maxIdx]
    {
      if widths[i] > widths[maxIdx] {
        maxIdx := i;
      }
    }
    assert widths[..][maxIdx] == widths[..][Widest(widths[..])];
  }

  method FitWidths(widths: array<int>, termWidth: int)
    requires widths.Length > 0 || termWidth >= 3
    modifies widths
    ensures widths[..] == Fit(old(widths[..]), termWidth)
  {
    hide Fit, TableWidth, Widest;
    var total := ComputeTableWidth(widths);
    while total > termWidth
      invariant total == TableWidth(widths[..])
      invariant Fit(widths[..], termWidth) == Fit(old(widths[..]), termWidth)
      decreases total - termWidth
    {
      ghost var ws := widths[..];
      FitStep(ws, termWidth);
      var maxIdx := FindWidest(widths);
      if widths[maxIdx] <= MIN_COL_WIDTH {
        break;
      }
      widths[maxIdx] := widths[maxIdx] - 1;
      assert widths[..] == ws[maxIdx := ws[maxIdx] - 1];
      total := ComputeTableWidth(widths);
    }
    FitStep(widths[..], termWidth);
  }

  /** One round of the fitting. */
  lemma FitStep(ws: seq<int>, termWidth: int)
    requires ws != [] || termWidth >= 3
    ensures TableWidth(ws) <= termWidth ==> Fit(ws, termWidth) == ws
    ensures TableWidth(ws) > termWidth ==>
              var m := Widest(ws);
              if ws[m] <= MIN_COL_WIDTH then Fit(ws, termWidth) == ws
              else
                var ws' := ws[m := ws[m] - 1];
                TableWidth(ws') == TableWidth(ws) - 1 && Fit(ws, termWidth) == Fit(ws', termWidth)
  {
    if TableWidth(ws) > termWidth {
      SumUpdate(ws, Widest(ws), ws[Widest(ws)] - 1);
    }
  }

  /** The table width when every column wider than the minimum is cut to it. */
  function Floor(ws: seq<int>): int {
    TableWidth(Capped(ws))
  }

  function Capped(ws: seq<int>): (r: seq<int>)
    ensures |r| == |ws|
    ensures forall i :: 0 <= i < |ws| ==> r[i] == Min(ws[i], MIN_COL_WIDTH)
  {
    seq(|ws|, i requires 0 <= i < |ws| => Min(ws[i], MIN_COL_WIDTH))
  }

  lemma {:induction false} SumDominates(a: seq<int>, b: seq<int>)
    requires |a| == |b| && forall i :: 0 <= i < |a| ==> a[i] <= b[i]
    ensures Sum(a) <= Sum(b)
    ensures (exists i :: 0 <= i < |a| && a[i] < b[i]) ==> Sum(a) < Sum(b)
  {
    if a != [] {
      SumDominates(a[..|a| - 1], b[..|b| - 1]);
    }
  }

  lemma FloorBelow(ws: seq<int>)
    ensures Floor(ws) <= TableWidth(ws)
    ensures (forall i :: 0 <= i < |ws| ==> ws[i] <= MIN_COL_WIDTH) ==> Floor(ws) == TableWidth(ws)
  {
    SumDominates(Capped(ws), ws);
    if forall i :: 0 <= i < |ws| ==> ws[i] <= MIN_COL_WIDTH {
      assert Capped(ws) == ws;
    }
  }

  /** Taking a cell from a column wider than the minimum leaves the floor where it is, strictly below. */
  lemma FloorUnchanged(ws: seq<int>, m: nat)
    requires m < |ws| && ws[m] > MIN_COL_WIDTH
    ensures Floor(ws[m := ws[m] - 1]) == Floor(ws) < TableWidth(ws)
  {
    assert Capped(ws[m := ws[m] - 1]) == Capped(ws);
    assert Capped(ws)[m] < ws[m];
    SumDominates(Capped(ws), ws);
  }

  /** The exact width of the fitted table: as wide as before if that fits, else the terminal's width, but
      never narrower than with every column cut to the minimum. */
  lemma {:induction false} FitIsExact(ws: seq<int>, termWidth: int)
    requires ws != [] || termWidth >= 3
    ensures TableWidth(Fit(ws, termWidth)) == Min(TableWidth(ws), Max(termWidth, Floor(ws)))
    decreases TableWidth(ws) - termWidth
  {
    FloorBelow(ws);
    FitStep(ws, termWidth);
    if TableWidth(ws) > termWidth {
      var m := Widest(ws);
      if ws[m] > MIN_COL_WIDTH {
        hide Fit, Floor, TableWidth, Widest;
        FitIsExact(ws[m := ws[m] - 1], termWidth);
        FloorUnchanged(ws, m);
      }
    }
  }

  /** Shrinking is fair: no column grows, a column that shrank keeps at least the minimum width, and no column
      ends more than one cell wider than it. */
  lemma {:induction false} FitIsFair(ws: seq<int>, termWidth: int, j: nat)
    requires j < |ws|
    ensures var r := Fit(ws, termWidth);
            && (forall k :: 0 <= k < |ws| ==> r[k] <= ws[k])
            && (r[j] < ws[j] ==> r[j] >= MIN_COL_WIDTH && forall k :: 0 <= k < |ws| ==> r[k] <= r[j] + 1)
    decreases TableWidth(ws) - termWidth
  {
    if TableWidth(ws) > termWidth {
      var m := Widest(ws);
      if ws[m] > MIN_COL_WIDTH {
        SumUpdate(ws, m, ws[m] - 1);
        FitIsFair(ws[m := ws[m] - 1], termWidth, j);
      }
    }
  }

  /** Exactly when fitting meets min(old width, terminal width): when the table fitted already, or its columns
      cut to the minimum do. */
  lemma FitMeetsTerminalIff(ws: seq<int>, termWidth: int)
    requires ws != [] || termWidth >= 3
    ensures TableWidth(Fit(ws, termWidth)) == Min(TableWidth(ws), termWidth)
       <==> TableWidth(ws) <= termWidth || Floor(ws) <= termWidth
  {
    FitIsExact(ws, termWidth);
    SumDominates(Capped(ws), ws);
  }

  /** One column of five cells on a terminal of seven: it shrinks, and still overflows. */
  lemma FitMayOverflow()
    ensures Fit([5], 7) == [4] && TableWidth([4]) == 10 && TableWidth([5]) == 11
  {
    assert Sum([4]) == 4 && Sum([5]) == 5;
    assert [5][0 := 4] == [4];
  }

  // ---------- Cells ----------

  datatype Cell = Null | Value(text: string)

  function CollapseBreaks(s: string): string {
    if s == "" then ""
    else if |s| >= 2 && s[0] == '\r' && s[1] == '\n' then " " + CollapseBreaks(s[2..])
    else (if s[0] in {'\r', '\n', '\t'} then " " else [s[0]]) + CollapseBreaks(s[1..])
  }

  function CellToString(c: Cell): string {
    match c
    case Null => "-"
    case Value(text) => CollapseBreaks(text)
  }

  function FormatRowCells(width: nat, row: seq<Cell>): (cells: seq<string>)
    ensures |cells| == width
  {
    seq(width, i requires 0 <= i < width => if i < |row| then CellToString(row[i]) else "-")
  }

  /** What truncateStr returns; a byte prefix need not be a text. */
  datatype Truncated = Str(text: string) | BytePrefix(count: int)

  /** The number of leading characters kept in front of the dots: as many as fit into `target` cells. */
  function Keep(rw: RuneWidth, s: string, target: int): (n: nat)
    ensures n <= |s|
    ensures n > 0 ==> Width(rw, s[..n]) <= target
    ensures n < |s| ==> Width(rw, s[..n + 1]) > target
  {
    KeepFrom(rw, s, 0, target)
  }

  function KeepFrom(rw: RuneWidth, s: string, i: nat, target: int): (n: nat)
    requires i <= |s|
    ensures i <= n <= |s|
    ensures n > i ==> Width(rw, s[..n]) <= target
    ensures n < |s| ==> Width(rw, s[..n + 1]) > target
    decreases |s| - i
  {
    if i == |s| || Width(rw, s[..i + 1]) > target then i else KeepFrom(rw, s, i + 1, target)
  }

  function Truncate(rw: RuneWidth, s: string, maxW: int): Truncated {
    if Width(rw, s) <= maxW then Str(s)
    else if maxW <= 3 then BytePrefix(maxW)
    else Str(s[..Keep(rw, s, maxW - 3)] + "...")
  }

  method TruncateStr(rw: RuneWidth, s: string, maxW: int) returns (r: Truncated)
    ensures r == Truncate(rw, s, maxW)
  {
    if Width(rw, s) <= maxW {
      return Str(s);
    }
    if maxW <= 3 {
      return BytePrefix(maxW);
    }
    var w, target, i := 0, maxW - 3, 0;
    while i < |s|
      invariant i <= |s| && w == Width(rw, s[..i])
      invariant KeepFrom(rw, s, i, target) == Keep(rw, s, target)
    {
      WidthSnoc(rw, s[..i], s[i]);
      assert s[..i + 1] == s[..i] + [s[i]];
      if w + rw(s[i]) > target {
        break;
      }
      w := w + rw(s[i]);
      i := i + 1;
    }
    return Str(s[..i] + "...");
  }

  lemma EmptyWidth(rw: RuneWidth)
    ensures Width(rw, "") == 0
  {
  }

  lemma DotsWidth(rw: RuneWidth)
    requires Terminal(rw)
    ensures Width(rw, "...") == 3
  {
    EmptyWidth(rw);
    hide Width;
    WidthSnoc(rw, "..", '.');
    WidthSnoc(rw, ".", '.');
    WidthSnoc(rw, "", '.');
    assert ".." + ['.'] == "..." && "." + ['.'] == ".." && "" + ['.'] == ".";
  }

  /** A cell is sliced by bytes only in a column of at most three cells that it does not fit; otherwise the
      result fits, and it is the cell or its longest prefix that leaves room for the dots. */
  lemma TruncateFits(rw: RuneWidth, s: string, maxW: int)
    requires Terminal(rw)
    ensures var t := Truncate(rw, s, maxW);
            && (t.BytePrefix? <==> maxW <= 3 && Width(rw, s) > maxW)
            && (t.Str? ==> Width(rw, t.text) <= maxW)
            && (t.Str? && t.text != s ==>
                  exists n :: 0 <= n < |s| && t.text == s[..n] + "..."
                              && Width(rw, s[..n]) <= maxW - 3 < Width(rw, s[..n + 1]))
  {
    hide Width, Terminal;
    EmptyWidth(rw);
    if Width(rw, s) > maxW && maxW > 3 {
      var n := Keep(rw, s, maxW - 3);
      WidthConcat(rw, s[..n], "...");
      DotsWidth(rw);
      WholePrefix(s);
      assert s[..0] == "";
    }
  }

  // ---------- Which columns are shown ----------

  function Needed(rw: RuneWidth, column: string): int {
    Max(Width(rw, column), MIN_COL_WIDTH) + 3
  }

  function NeededBy(rw: RuneWidth, columns: seq<string>): int {
    if columns == [] then 3 else NeededBy(rw, columns[..|columns| - 1]) + Needed(rw, columns[|columns| - 1])
  }

  /** How many columns, from the first, fit with their headers; at least one. */
  method CountFittingColumns(rw: RuneWidth, columns: seq<string>, termWidth: int) returns (count: nat)
    requires columns != []
    ensures count == CountFitting(rw, columns, termWidth)
  {
    var used := 3;
    count := 0;
    while count < |columns|
      invariant count <= |columns| && used == NeededBy(rw, columns[..count])
      invariant CountFrom(rw, columns, count, termWidth) == CountFrom(rw, columns, 0, termWidth)
    {
      PrefixStep(columns, count);
      var needed := Needed(rw, columns[count]);
      if used + needed > termWidth {
        break;
      }
      used := used + needed;
      count := count + 1;
    }
    if count == 0 {
      count := 1;
    }
  }

  function CountFrom(rw: RuneWidth, columns: seq<string>, i: nat, termWidth: int): (n: nat)
    requires i <= |columns|
    ensures i <= n <= |columns|
    ensures n > i ==> NeededBy(rw, columns[..n]) <= termWidth
    ensures n < |columns| ==> NeededBy(rw, columns[..n + 1]) > termWidth
    decreases |columns| - i
  {
    if i == |columns| || NeededBy(rw, columns[..i + 1]) > termWidth then i
    else CountFrom(rw, columns, i + 1, termWidth)
  }

  function CountFitting(rw: RuneWidth, columns: seq<string>, termWidth: int): nat {
    var n := CountFrom(rw, columns, 0, termWidth);
    if n == 0 then 1 else n
  }

  /** Columns and cells as they are drawn. */
  datatype Grid = Grid(columns: seq<string>, cells: seq<seq<string>>)

  predicate Rectangular(g: Grid) {
    forall r :: 0 <= r < |g.cells| ==> |g.cells[r]| == |g.columns|
  }

  function Placeholder(hidden: nat): string {
    "...(" + Decimal(hidden) + "列)"
  }

  function Kept(n: nat): nat { if n < 2 then 1 else n - 1 }

  /** Keeps the first columns and replaces the others by a placeholder column of empty cells. */
  function TruncateColumns(g: Grid, n: nat): Grid
    requires Rectangular(g) && n < |g.columns|
  {
    var keep := Kept(n);
    Grid(g.columns[..keep] + [Placeholder(|g.columns| - keep)],
         seq(|g.cells|, r requires 0 <= r < |g.cells| => g.cells[r][..keep] + [""]))
  }

  function Visible(rw: RuneWidth, g: Grid, termWidth: int): Grid
    requires Rectangular(g)
  {
    if termWidth <= 0 then g
    else
      var n := CountFitting(rw, g.columns, termWidth);
      if n < |g.columns| then TruncateColumns(g, n) else g
  }

  // ---------- Natural widths ----------

  function HeaderWidths(rw: RuneWidth, columns: seq<string>): (ws: seq<int>)
    ensures |ws| == |columns|
    ensures forall i :: 0 <= i < |columns| ==> ws[i] == Width(rw, columns[i])
  {
    seq(|columns|, i requires 0 <= i < |columns| => Width(rw, columns[i]))
  }

  function Widened(rw: RuneWidth, ws: seq<int>, row: seq<string>): (r: seq<int>)
    ensures |r| == |ws|
    ensures forall i :: 0 <= i < |ws| ==> r[i] == if i < |row| then Max(ws[i], Width(rw, row[i])) else ws[i]
  {
    seq(|ws|, i requires 0 <= i < |ws| => if i < |row| then Max(ws[i], Width(rw, row[i])) else ws[i])
  }

  function NaturalWidths(rw: RuneWidth, columns: seq<string>, cells: seq<seq<string>>): (ws: seq<int>)
    ensures |ws| == |columns|
  {
    if cells == [] then HeaderWidths(rw, columns)
    else Widened(rw, NaturalWidths(rw, columns, cells[..|cells| - 1]), cells[|cells| - 1])
  }

  method ComputeNaturalWidths(rw: RuneWidth, columns: seq<string>, cells: seq<seq<string>>)
    returns (widths: array<int>)
    ensures fresh(widths) && widths[..] == NaturalWidths(rw, columns, cells)
  {
    widths := new int[|columns|];
    for i := 0 to |columns|
      invariant forall k :: 0 <= k < i ==> widths[k] == Width(rw, columns[k])
    {
      widths[i] := Width(rw, columns[i]);
    }
    assert widths[..] == HeaderWidths(rw, columns);
    for r := 0 to |cells|
      invariant widths[..] == NaturalWidths(rw, columns, cells[..r])
    {
      PrefixStep(cells, r);
      ghost var ws := widths[..];
      for i := 0 to |cells[r]|
        invariant forall k :: 0 <= k < |ws| ==>
          widths[k] == if k < i then Max(ws[k], Width(rw, cells[r][k])) else ws[k]
      {
        if i < widths.Length {
          var w := Width(rw, cells[r][i]);
          if w > widths[i] {
            widths[i] := w;
          }
        }
      }
      assert widths[..] == Widened(rw, ws, cells[r]);
    }
    WholePrefix(cells);
  }

  lemma {:induction false} NaturalIsWideEnough(rw: RuneWidth, columns: seq<string>, cells: seq<seq<string>>)
    ensures var ws := NaturalWidths(rw, columns, cells);
            && (forall i :: 0 <= i < |columns| ==> Width(rw, columns[i]) <= ws[i])
            && (forall r, i :: 0 <= r < |cells| && 0 <= i < |cells[r]| && i < |columns| ==>
                  Width(rw, cells[r][i]) <= ws[i])
  {
    hide Width;
    if cells != [] {
      var front, row := cells[..|cells| - 1], cells[|cells| - 1];
      NaturalIsWideEnough(rw, columns, front);
      var ws := Widened(rw, NaturalWidths(rw, columns, front), row);
      assert forall i :: 0 <= i < |columns| ==> NaturalWidths(rw, columns, front)[i] <= ws[i];
      forall r, i | 0 <= r < |cells| && 0 <= i < |cells[r]| && i < |columns|
        ensures Width(rw, cells[r][i]) <= ws[i]
      {
        assert r < |front| ==> cells[r] == front[r];
      }
    }
  }

  // ---------- Drawing ----------

  function Segments(ws: seq<int>, mid: char): string {
    if ws == [] then ""
    else
      Segments(ws[..|ws| - 1], mid) + (if |ws| == 1 then "" else [mid]) + Repeat('─', ws[|ws| - 1] + 2)
  }

  function Border(ws: seq<int>, left: char, mid: char, right: char): string {
    INDENT + [left] + Segments(ws, mid) + [right]
  }

  function Boxed(rw: RuneWidth, cell: string, w: int): string {
    " " + cell + Repeat(' ', w - Width(rw, cell)) + " " + "│"
  }

  function RowLine(rw: RuneWidth, ws: seq<int>, cells: seq<string>): string
    requires |cells| <= |ws|
  {
    if cells == [] then INDENT + "│"
    else
      var n := |cells| - 1;
      RowLine(rw, ws, cells[..n]) + Boxed(rw, cells[n], ws[n])
  }

  method WriteRow(rw: RuneWidth, widths: seq<int>, cells: seq<string>) returns (line: string)
    requires |cells| <= |widths|
    ensures line == RowLine(rw, widths, cells)
  {
    line := INDENT + "│";
    for i := 0 to |cells|
      invariant line == RowLine(rw, widths, cells[..i])
    {
      PrefixStep(cells, i);
      var pad := widths[i] - Width(rw, cells[i]);
      if pad < 0 {
        pad := 0;
      }
      assert Repeat(' ', pad) == Repeat(' ', widths[i] - Width(rw, cells[i]));
      line := line + (" " + cells[i] + Repeat(' ', pad) + " " + "│");
    }
    WholePrefix(cells);
  }

  method WriteHorizontal(widths: seq<int>, left: char, mid: char, right: char) returns (line: string)
    requires widths != []
    ensures line == Border(widths, left, mid, right)
  {
    hide Segments, Repeat;
    var segments := "";
    for i := 0 to |widths|
      invariant segments == if i < |widths| then BeforeSegment(widths, i, mid) else Segments(widths[..i], mid)
    {
      SegmentsStep(widths, i, mid);
      segments := segments + Repeat('─', widths[i] + 2);
      if i < |widths| - 1 {
        segments := segments + [mid];
      }
    }
    WholePrefix(widths);
    line := INDENT + [left] + segments + [right];
  }

  function BeforeSegment(ws: seq<int>, i: nat, mid: char): string
    requires i < |ws|
  {
    if i == 0 then "" else Segments(ws[..i], mid) + [mid]
  }

  lemma SegmentsStep(ws: seq<int>, i: nat, mid: char)
    requires i < |ws|
    ensures Segments(ws[..i + 1], mid) == BeforeSegment(ws, i, mid) + Repeat('─', ws[i] + 2)
  {
    hide Repeat;
    PrefixStep(ws, i);
    if i == 0 {
      assert ws[..0] == [];
      assert Segments([], mid) + "" == "";
    }
  }

  lemma WidthOfChar(rw: RuneWidth, c: char)
    ensures Width(rw, [c]) == rw(c)
  {
    WidthSnoc(rw, "", c);
    ConcatNil([c]);
  }

  lemma IndentWidth(rw: RuneWidth, c: char)
    requires Terminal(rw) && c in BOX
    ensures Width(rw, INDENT + [c]) == 3
  {
    WidthOfChar(rw, ' ');
    WidthSnoc(rw, " ", ' ');
    assert " " + [' '] == INDENT;
    WidthSnoc(rw, INDENT, c);
  }

  lemma {:induction false} SegmentsWidth(rw: RuneWidth, ws: seq<int>, mid: char)
    requires Terminal(rw) && mid in BOX && ws != [] && forall i :: 0 <= i < |ws| ==> ws[i] >= 0
    ensures Width(rw, Segments(ws, mid)) == Sum(ws) + 3 * |ws| - 1
  {
    hide Width, Repeat;
    var n := |ws| - 1;
    WidthRepeat(rw, '─', ws[n] + 2);
    if n == 0 {
      assert ws[..n] == [];
      assert Segments(ws, mid) == Repeat('─', ws[n] + 2);
    } else {
      SegmentsWidth(rw, ws[..n], mid);
      WidthSnoc(rw, Segments(ws[..n], mid), mid);
      WidthConcat(rw, Segments(ws[..n], mid) + [mid], Repeat('─', ws[n] + 2));
    }
  }

  /** Every border is exactly as wide as the table. */
  lemma BorderWidth(rw: RuneWidth, ws: seq<int>, left: char, mid: char, right: char)
    requires Terminal(rw) && {left, mid, right} <= BOX
    requires ws != [] && forall i :: 0 <= i < |ws| ==> ws[i] >= 0
    ensures Width(rw, Border(ws, left, mid, right)) == TableWidth(ws)
  {
    IndentWidth(rw, left);
    SegmentsWidth(rw, ws, mid);
    WidthConcat(rw, INDENT + [left], Segments(ws, mid));
    WidthSnoc(rw, INDENT + [left] + Segments(ws, mid), right);
  }

  lemma BoxedWidth(rw: RuneWidth, cell: string, w: int)
    requires Terminal(rw) && Width(rw, cell) <= w
    ensures Width(rw, Boxed(rw, cell, w)) == w + 3
  {
    var pad := Repeat(' ', w - Width(rw, cell));
    WidthOfChar(rw, ' ');
    WidthConcat(rw, " ", cell);
    WidthRepeat(rw, ' ', w - Width(rw, cell));
    WidthConcat(rw, " " + cell, pad);
    WidthSnoc(rw, " " + cell + pad, ' ');
    WidthSnoc(rw, " " + cell + pad + " ", '│');
  }

  /** Every row whose cells fit their columns is exactly as wide as the table. */
  lemma {:induction false} RowWidth(rw: RuneWidth, ws: seq<int>, cells: seq<string>)
    requires Terminal(rw) && |cells| == |ws| && forall i :: 0 <= i < |ws| ==> Width(rw, cells[i]) <= ws[i]
    ensures Width(rw, RowLine(rw, ws, cells)) == TableWidth(ws)
  {
    if cells == [] {
      IndentWidth(rw, '│');
    } else {
      var n := |cells| - 1;
      RowWidth(rw, ws[..n], cells[..n]);
      RowLinePrefix(rw, ws, cells[..n], n);
      BoxedWidth(rw, cells[n], ws[n]);
      WidthConcat(rw, RowLine(rw, ws, cells[..n]), Boxed(rw, cells[n], ws[n]));
    }
  }

  lemma {:induction false} RowLinePrefix(rw: RuneWidth, ws: seq<int>, cells: seq<string>, n: nat)
    requires |cells| <= n <= |ws|
    ensures RowLine(rw, ws[..n], cells) == RowLine(rw, ws, cells)
  {
    if cells != [] {
      RowLinePrefix(rw, ws, cells[..|cells| - 1], n);
    }
  }

  // ---------- The whole table ----------

  /** Column widths on a terminal; zero or less means no limit. */
  function FinalWidths(rw: RuneWidth, g: Grid, termWidth: int): seq<int> {
    var natural := NaturalWidths(rw, g.columns, g.cells);
    if termWidth > 0 && natural != [] then Fit(natural, termWidth) else natural
  }

  predicate AllText(ts: seq<Truncated>) {
    forall i :: 0 <= i < |ts| ==> ts[i].Str?
  }

  function TruncateRow(rw: RuneWidth, cells: seq<string>, ws: seq<int>): (ts: seq<Truncated>)
    requires |cells| == |ws|
    ensures |ts| == |cells|
    ensures forall i :: 0 <= i < |cells| ==> ts[i] == Truncate(rw, cells[i], ws[i])
  {
    seq(|cells|, i requires 0 <= i < |cells| => Truncate(rw, cells[i], ws[i]))
  }

  function Texts(ts: seq<Truncated>): (cells: seq<string>)
    requires AllText(ts)
    ensures |cells| == |ts| && forall i :: 0 <= i < |ts| ==> cells[i] == ts[i].text
  {
    seq(|ts|, i requires 0 <= i < |ts| => ts[i].text)
  }

  /** On every terminal, and for every grid, no cell reaches the byte-slicing branch: a column of at most three
      cells was not shrunk, so its contents fit. */
  lemma NoCellIsSliced(rw: RuneWidth, g: Grid, termWidth: int, cells: seq<string>)
    requires Terminal(rw) && Rectangular(g) && (cells == g.columns || cells in g.cells)
    ensures |FinalWidths(rw, g, termWidth)| == |g.columns| == |cells|
    ensures var ws := FinalWidths(rw, g, termWidth);
            var ts := TruncateRow(rw, cells, ws);
            AllText(ts) && forall i :: 0 <= i < |ws| ==> 0 <= Width(rw, Texts(ts)[i]) <= ws[i]
  {
    var natural := NaturalWidths(rw, g.columns, g.cells);
    var ws := FinalWidths(rw, g, termWidth);
    NaturalIsWideEnough(rw, g.columns, g.cells);
    forall i | 0 <= i < |ws|
      ensures Truncate(rw, cells[i], ws[i]).Str? && Width(rw, Truncate(rw, cells[i], ws[i]).text) <= ws[i]
    {
      if termWidth > 0 {
        FitIsFair(natural, termWidth, i);
      }
      TruncateFits(rw, cells[i], ws[i]);
    }
  }

  function Lines(rw: RuneWidth, ws: seq<int>, rows: seq<seq<string>>): (lines: seq<string>)
    requires forall r :: 0 <= r < |rows| ==> |rows[r]| == |ws|
    ensures |lines| == |rows|
    ensures forall r :: 0 <= r < |rows| ==> lines[r] == RowLine(rw, ws, rows[r])
  {
    seq(|rows|, r requires 0 <= r < |rows| => RowLine(rw, ws, rows[r]))
  }

  /** A row of the grid, its cells cut to the final widths. */
  function CutRow(rw: RuneWidth, g: Grid, termWidth: int, cells: seq<string>): (row: seq<string>)
    requires Terminal(rw) && Rectangular(g) && (cells == g.columns || cells in g.cells)
    ensures |row| == |g.columns| == |FinalWidths(rw, g, termWidth)|
    ensures forall i :: 0 <= i < |row| ==> Width(rw, row[i]) <= FinalWidths(rw, g, termWidth)[i]
    ensures forall i :: 0 <= i < |row| ==>
              Truncate(rw, cells[i], FinalWidths(rw, g, termWidth)[i]) == Str(row[i])
  {
    NoCellIsSliced(rw, g, termWidth, cells);
    Texts(TruncateRow(rw, cells, FinalWidths(rw, g, termWidth)))
  }

  function CutRows(rw: RuneWidth, g: Grid, termWidth: int): (rows: seq<seq<string>>)
    requires Terminal(rw) && Rectangular(g)
    ensures |rows| == |g.cells|
    ensures forall r :: 0 <= r < |rows| ==> rows[r] == CutRow(rw, g, termWidth, g.cells[r])
  {
    seq(|g.cells|, r requires 0 <= r < |g.cells| => CutRow(rw, g, termWidth, g.cells[r]))
  }

  function Draw(rw: RuneWidth, g: Grid, termWidth: int): (lines: seq<string>)
    requires Terminal(rw) && Rectangular(g)
    ensures |lines| == |g.cells| + 4
  {
    var ws := FinalWidths(rw, g, termWidth);
    [Border(ws, '┌', '┬', '┐'), RowLine(rw, ws, CutRow(rw, g, termWidth, g.columns)), Border(ws, '├', '┼', '┤')]
    + Lines(rw, ws, CutRows(rw, g, termWidth)) + [Border(ws, '└', '┴', '┘')]
  }

  /** Every line of the box has the same width, the width of the table. */
  lemma DrawnLinesAlign(rw: RuneWidth, g: Grid, termWidth: int)
    requires Terminal(rw) && Rectangular(g) && g.columns != []
    ensures forall line :: line in Draw(rw, g, termWidth) ==>
              Width(rw, line) == TableWidth(FinalWidths(rw, g, termWidth))
  {
    hide Width, Border, RowLine, FinalWidths, CutRow, CutRows, TableWidth, Rectangular, Terminal;
    var ws := FinalWidths(rw, g, termWidth);
    BordersAlign(rw, g, termWidth);
    RowAligns(rw, g, termWidth, g.columns);
    forall r | 0 <= r < |g.cells|
      ensures Width(rw, Lines(rw, ws, CutRows(rw, g, termWidth))[r]) == TableWidth(ws)
    {
      RowAligns(rw, g, termWidth, g.cells[r]);
    }
  }

  lemma RowAligns(rw: RuneWidth, g: Grid, termWidth: int, cells: seq<string>)
    requires Terminal(rw) && Rectangular(g) && (cells == g.columns || cells in g.cells)
    ensures var ws := FinalWidths(rw, g, termWidth);
            Width(rw, RowLine(rw, ws, CutRow(rw, g, termWidth, cells))) == TableWidth(ws)
  {
    RowWidth(rw, FinalWidths(rw, g, termWidth), CutRow(rw, g, termWidth, cells));
  }

  lemma BordersAlign(rw: RuneWidth, g: Grid, termWidth: int)
    requires Terminal(rw) && Rectangular(g) && g.columns != []
    ensures var ws := FinalWidths(rw, g, termWidth);
            && Width(rw, Border(ws, '┌', '┬', '┐')) == TableWidth(ws)
            && Width(rw, Border(ws, '├', '┼', '┤')) == TableWidth(ws)
            && Width(rw, Border(ws, '└', '┴', '┘')) == TableWidth(ws)
  {
    var ws := FinalWidths(rw, g, termWidth);
    NoCellIsSliced(rw, g, termWidth, g.columns);
    hide Width, Border, FinalWidths, TableWidth;
    BorderWidth(rw, ws, '┌', '┬', '┐');
    BorderWidth(rw, ws, '├', '┼', '┤');
    BorderWidth(rw, ws, '└', '┴', '┘');
  }

  lemma {:induction false} ColumnsNeedSeven(rw: RuneWidth, columns: seq<string>)
    ensures NeededBy(rw, columns) >= 3 + 7 * |columns|
  {
    if columns != [] {
      ColumnsNeedSeven(rw, columns[..|columns| - 1]);
    }
  }

  lemma {:induction false} CappedSum(ws: seq<int>)
    ensures Sum(Capped(ws)) <= 4 * |ws|
  {
    if ws != [] {
      CappedSum(ws[..|ws| - 1]);
      assert Capped(ws)[..|ws| - 1] == Capped(ws[..|ws| - 1]);
    }
  }

  /** At most as many columns stay visible as fit at the minimum width, the placeholder included. */
  lemma VisibleColumnsFit(rw: RuneWidth, g: Grid, termWidth: int)
    requires Rectangular(g) && g.columns != [] && termWidth >= 17
    ensures var v := Visible(rw, g, termWidth);
            Rectangular(v) && v.columns != [] && |v.cells| == |g.cells| && 3 + 7 * |v.columns| <= termWidth
  {
    var n := CountFrom(rw, g.columns, 0, termWidth);
    ColumnsNeedSeven(rw, g.columns[..n]);
  }

  /** On a terminal of at least 17 cells the box never overflows, whatever the result set holds. */
  lemma TableNeverOverflows(rw: RuneWidth, g: Grid, termWidth: int)
    requires Terminal(rw) && Rectangular(g) && g.columns != [] && termWidth >= 17
    ensures var v := Visible(rw, g, termWidth);
            Rectangular(v) && forall line :: line in Draw(rw, v, termWidth) ==>
              Width(rw, line) == TableWidth(FinalWidths(rw, v, termWidth)) <= termWidth
  {
    VisibleColumnsFit(rw, g, termWidth);
    var v := Visible(rw, g, termWidth);
    var natural := NaturalWidths(rw, v.columns, v.cells);
    CappedSum(natural);
    FitIsExact(natural, termWidth);
    DrawnLinesAlign(rw, v, termWidth);
  }

  /** Exactly when a box fits its terminal: when its visible columns do at the minimum width. */
  lemma TableFitsIff(rw: RuneWidth, g: Grid, termWidth: int)
    requires Terminal(rw) && Rectangular(g) && g.columns != [] && termWidth > 0
    ensures var v := Visible(rw, g, termWidth);
            && Rectangular(v)
            && ((forall line :: line in Draw(rw, v, termWidth) ==> Width(rw, line) <= termWidth)
                <==> Floor(NaturalWidths(rw, v.columns, v.cells)) <= termWidth)
  {
    hide Width, Terminal, Fit, TableWidth, Floor;
    var v := Visible(rw, g, termWidth);
    assert v.columns != [];
    var natural := NaturalWidths(rw, v.columns, v.cells);
    FitIsExact(natural, termWidth);
    FloorBelow(natural);
    DrawnLinesAlign(rw, v, termWidth);
    assert Draw(rw, v, termWidth)[0] in Draw(rw, v, termWidth);
  }

  function AllCells(columns: seq<string>, rows: seq<seq<Cell>>): (g: Grid)
    ensures Rectangular(g) && g.columns == columns && |g.cells| == |rows|
  {
    Grid(columns, seq(|rows|, r requires 0 <= r < |rows| => FormatRowCells(|columns|, rows[r])))
  }

  /** Drops the columns that do not fit. */
  method SelectColumns(rw: RuneWidth, g: Grid, termWidth: int) returns (v: Grid, hidden: seq<string>)
    requires Rectangular(g) && g.columns != []
    ensures v == Visible(rw, g, termWidth) && Rectangular(v) && v.columns != []
    ensures hidden == HiddenColumns(rw, g, termWidth)
  {
    v, hidden := g, [];
    if termWidth > 0 {
      var visibleCols := CountFittingColumns(rw, g.columns, termWidth);
      if visibleCols < |g.columns| {
        hidden := g.columns[Kept(visibleCols)..];
        v := TruncateColumns(g, visibleCols);
      }
    }
  }

  function HiddenColumns(rw: RuneWidth, g: Grid, termWidth: int): seq<string> {
    var n := CountFitting(rw, g.columns, termWidth);
    if termWidth > 0 && n < |g.columns| then g.columns[Kept(n)..] else []
  }

  /** The drawn columns are the ones kept, with one placeholder for the hidden ones. */
  lemma VisibleAndHidden(rw: RuneWidth, g: Grid, termWidth: int)
    requires Rectangular(g) && g.columns != []
    ensures var v := Visible(rw, g, termWidth);
            var hidden := HiddenColumns(rw, g, termWidth);
            if hidden == [] then v == g
            else v.columns[..|v.columns| - 1] + hidden == g.columns
                 && v.columns[|v.columns| - 1] == Placeholder(|hidden|)
  {
    var n := CountFitting(rw, g.columns, termWidth);
    if termWidth > 0 && n < |g.columns| {
      assert g.columns == g.columns[..Kept(n)] + g.columns[Kept(n)..];
      SnocInit(g.columns[..Kept(n)], Placeholder(|g.columns| - Kept(n)));
    }
  }

  method ChooseWidths(rw: RuneWidth, g: Grid, termWidth: int) returns (ws: seq<int>)
    requires g.columns != []
    ensures ws == FinalWidths(rw, g, termWidth)
  {
    var widths := ComputeNaturalWidths(rw, g.columns, g.cells);
    if termWidth > 0 {
      FitWidths(widths, termWidth);
    }
    ws := widths[..];
  }

  method DrawBox(rw: RuneWidth, v: Grid, termWidth: int) returns (lines: seq<string>)
    requires Terminal(rw) && Rectangular(v) && v.columns != []
    ensures lines == Draw(rw, v, termWidth)
  {
    hide Border, RowLine, FinalWidths, CutRow, CutRows, Terminal, Rectangular;
    var ws := ChooseWidths(rw, v, termWidth);
    var header := TruncateCells(rw, v, termWidth, ws, v.columns);
    var top := WriteHorizontal(ws, '┌', '┬', '┐');
    var head := WriteRow(rw, ws, header);
    var rule := WriteHorizontal(ws, '├', '┼', '┤');
    var body := DrawRows(rw, v, termWidth, ws);
    var bottom := WriteHorizontal(ws, '└', '┴', '┘');
    lines := [top, head, rule] + body + [bottom];
  }

  method DrawRows(rw: RuneWidth, v: Grid, ghost termWidth: int, ws: seq<int>) returns (body: seq<string>)
    requires Terminal(rw) && Rectangular(v) && ws == FinalWidths(rw, v, termWidth)
    ensures body == Lines(rw, ws, CutRows(rw, v, termWidth))
  {
    hide RowLine, FinalWidths, CutRow, CutRows, Terminal, Rectangular, Lines;
    body := [];
    for r := 0 to |v.cells|
      invariant |body| == r
      invariant forall k :: 0 <= k < r ==> body[k] == RowLine(rw, ws, CutRow(rw, v, termWidth, v.cells[k]))
    {
      var cells := TruncateCells(rw, v, termWidth, ws, v.cells[r]);
      var line := WriteRow(rw, ws, cells);
      body := body + [line];
    }
  }

  /** The loop over one row's cells; the byte-slicing branch is dead here. */
  method TruncateCells(rw: RuneWidth, ghost g: Grid, ghost termWidth: int, ws: seq<int>, cells: seq<string>)
    returns (row: seq<string>)
    requires Terminal(rw) && Rectangular(g) && ws == FinalWidths(rw, g, termWidth)
    requires cells == g.columns || cells in g.cells
    ensures row == CutRow(rw, g, termWidth, cells)
  {
    ghost var cut := CutRow(rw, g, termWidth, cells);
    hide Width, Truncate, FinalWidths, Terminal, CutRow;
    row := [];
    for i := 0 to |cells|
      invariant row == cut[..i]
    {
      assert Truncate(rw, cells[i], ws[i]) == Str(cut[i]);
      var t := TruncateStr(rw, cells[i], ws[i]);
      row := row + [t.text];
    }
  }
}
