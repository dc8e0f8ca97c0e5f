/**
 Reflow of a terminal screen when its width changes: rows are joined to logical lines along their
 soft-wrap marks and cut again to the new width (`benchmarks/chat-pty/benchmark.py`, lines 307-389).
 */
module ScreenReflow {

  /** The text of one cell; a wide character leaves the cell behind it empty. */
  type Cell = string
  type Row = seq<Cell>

  const BLANK: Cell := " "

  predicate IsBlank(cell: Cell) {
    cell == [] || cell == BLANK
  }

  function BlankRow(columns: nat): (row: Row)
    ensures |row| == columns && forall i :: 0 <= i < columns ==> row[i] == BLANK
  {
    seq(columns, i => BLANK)
  }

  /** One past the last cell that shows something. */
  function Used(row: Row): (used: nat)
    ensures used <= |row| && (used > 0 ==> !IsBlank(row[used - 1]))
    ensures forall i :: used <= i < |row| ==> IsBlank(row[i])
  {
    if row == [] then 0
    else if !IsBlank(row[|row| - 1]) then |row|
    else Used(row[..|row| - 1])
  }

  function Trim(row: Row): Row {
    row[..Used(row)]
  }

  // ---------------------------------------------------------------------------------------------
  // Collecting logical lines
  // ---------------------------------------------------------------------------------------------

  /** Finished logical lines and the one that a soft-wrapped row left open. */
  datatype Lines = Lines(finished: seq<Row>, current: Row)

  function AddRow(lines: Lines, cells: Row, soft: bool): Lines {
    if soft then Lines(lines.finished, lines.current + cells)
    else Lines(lines.finished + [lines.current + cells], [])
  }

  /** The logical lines of a grid, with every cell of every row. */
  function Join(lines: Lines, grid: seq<Row>, soft: seq<bool>): Lines
    requires |grid| == |soft|
  {
    if grid == [] then lines
    else AddRow(Join(lines, grid[..|grid| - 1], soft[..|soft| - 1]), grid[|grid| - 1], soft[|soft| - 1])
  }

  /** The part of a row that is collected. */
  function Kept(row: Row, soft: bool): Row {
    if soft then row else Trim(row)
  }

  /** What the program collects from the first `n` rows: a row that ends a line is cut behind its last character. */
  function Collect(grid: seq<Row>, soft: seq<bool>, n: nat): Lines
    requires n <= |grid| == |soft|
  {
    if n == 0 then Lines([], [])
    else AddRow(Collect(grid, soft, n - 1), Kept(grid[n - 1], soft[n - 1]), soft[n - 1])
  }

  function AllLines(lines: Lines): seq<Row> {
    if lines.current != [] || lines.finished == [] then lines.finished + [lines.current] else lines.finished
  }

  // ---------------------------------------------------------------------------------------------
  // Cutting logical lines
  // ---------------------------------------------------------------------------------------------

  function Pad(cells: Row, columns: nat): Row {
    if |cells| < columns then cells + BlankRow(columns - |cells|) else cells
  }

  /** The rows of one logical line. */
  function Cut(line: Row, columns: nat): (rows: seq<Row>)
    requires columns > 0
    ensures |rows| > 0 && forall i :: 0 <= i < |rows| ==> |rows[i]| == columns
    decreases |line|
  {
    if |line| <= columns then [Pad(line, columns)] else [line[..columns]] + Cut(line[columns..], columns)
  }

  /** All rows of a line but its last are soft-wrapped. */
  function Marks(n: nat): (marks: seq<bool>)
    ensures |marks| == n
  {
    seq(n, i => i < n - 1)
  }

  function CutAll(lines: seq<Row>, columns: nat): (rows: seq<Row>)
    requires columns > 0
    ensures forall i :: 0 <= i < |rows| ==> |rows[i]| == columns
    ensures |rows| >= |lines|
  {
    if lines == [] then [] else CutAll(lines[..|lines| - 1], columns) + Cut(lines[|lines| - 1], columns)
  }

  function MarkAll(lines: seq<Row>, columns: nat): (marks: seq<bool>)
    requires columns > 0
    ensures |marks| == |CutAll(lines, columns)|
  {
    if lines == [] then [] else MarkAll(lines[..|lines| - 1], columns) + Marks(|Cut(lines[|lines| - 1], columns)|)
  }

  // ---------------------------------------------------------------------------------------------
  // What a screen says
  // ---------------------------------------------------------------------------------------------

  function TrimAll(lines: seq<Row>): seq<Row> {
    seq(|lines|, i requires 0 <= i < |lines| => Trim(lines[i]))
  }

  function DropEmptyTail(lines: seq<Row>): seq<Row> {
    if lines != [] && lines[|lines| - 1] == [] then DropEmptyTail(lines[..|lines| - 1]) else lines
  }

  function Said(lines: Lines): seq<Row> {
    DropEmptyTail(TrimAll(lines.finished + [lines.current]))
  }

  /** The logical lines of a screen without trailing blank cells and without empty lines at the end. */
  function Text(grid: seq<Row>, soft: seq<bool>): seq<Row>
    requires |grid| == |soft|
  {
    Said(Join(Lines([], []), grid, soft))
  }

  // ---------------------------------------------------------------------------------------------
  // Trimming
  // ---------------------------------------------------------------------------------------------

  lemma {:induction false} UsedIs(row: Row, n: nat)
    requires n <= |row| && (n > 0 ==> !IsBlank(row[n - 1])) && forall i :: n <= i < |row| ==> IsBlank(row[i])
    ensures Used(row) == n
  {
  }

  /** Cutting the end of a line that ends a row changes nothing but trailing blanks. */
  lemma TrimConcat(a: Row, b: Row)
    ensures Trim(a + Trim(b)) == Trim(a + b)
  {
    var n := Used(b);
    if n > 0 {
      UsedIs(a + b, |a| + n);
      UsedIs(a + b[..n], |a| + n);
    } else {
      assert a + b[..0] == a;
      UsedIs(a + b, Used(a));
    }
    assert (a + b)[..Used(a + b)] == (a + b[..n])[..Used(a + b)];
  }

  ghost predicate AllBlank(row: Row) {
    forall i :: 0 <= i < |row| ==> IsBlank(row[i])
  }

  lemma TrimBlankTail(a: Row, b: Row)
    requires AllBlank(b)
    ensures Trim(a + b) == Trim(a)
  {
    UsedIs(a + b, Used(a));
    assert (a + b)[..Used(a)] == a[..Used(a)];
  }

  lemma TrimAllGrows(lines: seq<Row>, line: Row)
    ensures TrimAll(lines + [line]) == TrimAll(lines) + [Trim(line)]
  {
  }

  lemma DropOneEmpty(lines: seq<Row>)
    ensures DropEmptyTail(lines + [[]]) == DropEmptyTail(lines)
  {
    assert (lines + [[]])[..|lines|] == lines;
  }

  lemma SaidIs(lines: Lines)
    ensures Said(lines) == DropEmptyTail(TrimAll(lines.finished) + [Trim(lines.current)])
  {
    TrimAllGrows(lines.finished, lines.current);
  }

  /** Two collections that agree line by line up to trailing blanks say the same. */
  lemma SameSaid(a: Lines, b: Lines)
    requires TrimAll(a.finished) == TrimAll(b.finished) && Trim(a.current) == Trim(b.current)
    ensures Said(a) == Said(b)
  {
    SaidIs(a);
    SaidIs(b);
  }

  lemma AllLinesSaid(lines: Lines)
    ensures DropEmptyTail(TrimAll(AllLines(lines))) == Said(lines)
  {
    SaidIs(lines);
    TrimAllGrows(lines.finished, lines.current);
    if lines.current == [] && lines.finished != [] {
      DropOneEmpty(TrimAll(lines.finished));
    }
  }

  // ---------------------------------------------------------------------------------------------
  // Collecting loses only blanks
  // ---------------------------------------------------------------------------------------------

  lemma {:induction false} CollectAgrees(grid: seq<Row>, soft: seq<bool>, n: nat)
    requires n <= |grid| == |soft|
    ensures TrimAll(Collect(grid, soft, n).finished) == TrimAll(Join(Lines([], []), grid[..n], soft[..n]).finished)
    ensures Collect(grid, soft, n).current == Join(Lines([], []), grid[..n], soft[..n]).current
  {
    if n > 0 {
      CollectAgrees(grid, soft, n - 1);
      assert grid[..n][..n - 1] == grid[..n - 1] && soft[..n][..n - 1] == soft[..n - 1];
      var collected, joined := Collect(grid, soft, n - 1), Join(Lines([], []), grid[..n - 1], soft[..n - 1]);
      if !soft[n - 1] {
        TrimConcat(joined.current, grid[n - 1]);
        TrimAllGrows(collected.finished, collected.current + Trim(grid[n - 1]));
        TrimAllGrows(joined.finished, joined.current + grid[n - 1]);
      }
    }
  }

  lemma BlankRowSaysNothing(lines: Lines, row: Row, soft: bool)
    requires AllBlank(row)
    ensures Said(AddRow(lines, row, soft)) == Said(lines)
  {
    SaidIs(lines);
    TrimBlankTail(lines.current, row);
    var after := AddRow(lines, row, soft);
    SaidIs(after);
    if !soft {
      TrimAllGrows(lines.finished, lines.current + row);
      DropOneEmpty(TrimAll(lines.finished) + [Trim(lines.current)]);
    }
  }

  ghost predicate BlankFrom(grid: seq<Row>, n: nat) {
    forall r :: n <= r < |grid| ==> AllBlank(grid[r])
  }

  /** Blank rows at the end of a screen say nothing, whatever their soft-wrap marks. */
  lemma {:induction false} BlankTailSaysNothing(lines: Lines, grid: seq<Row>, soft: seq<bool>, n: nat)
    requires |grid| == |soft| && n <= |grid| && BlankFrom(grid, n)
    ensures Said(Join(lines, grid, soft)) == Said(Join(lines, grid[..n], soft[..n]))
    decreases |grid|
  {
    if n == |grid| {
      assert grid[..n] == grid && soft[..n] == soft;
    } else {
      var last := |grid| - 1;
      BlankTailSaysNothing(lines, grid[..last], soft[..last], n);
      assert grid[..last][..n] == grid[..n] && soft[..last][..n] == soft[..n];
      BlankRowSaysNothing(Join(lines, grid[..last], soft[..last]), grid[last], soft[last]);
    }
  }

  // ---------------------------------------------------------------------------------------------
  // Cutting and joining again
  // ---------------------------------------------------------------------------------------------

  lemma {:induction false} JoinConcat(lines: Lines, a: seq<Row>, b: seq<Row>, softA: seq<bool>, softB: seq<bool>)
    requires |a| == |softA| && |b| == |softB|
    ensures Join(lines, a + b, softA + softB) == Join(Join(lines, a, softA), b, softB)
    decreases |b|
  {
    if b == [] {
      assert a + b == a && softA + softB == softA;
    } else {
      var last := |b| - 1;
      assert (a + b)[..|a + b| - 1] == a + b[..last] && (softA + softB)[..|a + b| - 1] == softA + softB[..last];
      JoinConcat(lines, a, b[..last], softA, softB[..last]);
    }
  }

  lemma JoinOne(lines: Lines, row: Row, soft: bool)
    ensures Join(lines, [row], [soft]) == AddRow(lines, row, soft)
  {
    assert [row][..0] == [] && [soft][..0] == [];
  }

  /** The rows of a line join to that line, filled up with blanks. */
  lemma {:induction false} CutJoins(lines: Lines, line: Row, columns: nat) returns (padding: Row)
    requires columns > 0
    ensures var rows := Cut(line, columns);
            Join(lines, rows, Marks(|rows|)) == Lines(lines.finished + [lines.current + line + padding], [])
    ensures AllBlank(padding)
    decreases |line|
  {
    if |line| <= columns {
      padding := BlankRow(columns - |line|);
      assert Marks(1) == [false];
      JoinOne(lines, Pad(line, columns), false);
      assert lines.current + line + padding == lines.current + Pad(line, columns);
    } else {
      var head, tail := line[..columns], line[columns..];
      var rest := Cut(tail, columns);
      padding := CutJoins(AddRow(lines, head, true), tail, columns);
      assert Marks(|rest| + 1) == [true] + Marks(|rest|);
      JoinConcat(lines, [head], rest, [true], Marks(|rest|));
      JoinOne(lines, head, true);
      assert lines.current + head + tail + padding == lines.current + line + padding by {
        assert line == head + tail;
      }
    }
  }

  /** The rows of all lines join to all lines, each filled up with blanks. */
  lemma {:induction false} CutAllJoins(lines: seq<Row>, columns: nat)
    requires columns > 0
    ensures var joined := Join(Lines([], []), CutAll(lines, columns), MarkAll(lines, columns));
            joined.current == [] && TrimAll(joined.finished) == TrimAll(lines)
  {
    if lines != [] {
      var init, last := lines[..|lines| - 1], lines[|lines| - 1];
      CutAllJoins(init, columns);
      var joined := Join(Lines([], []), CutAll(init, columns), MarkAll(init, columns));
      var rows := Cut(last, columns);
      JoinConcat(Lines([], []), CutAll(init, columns), rows, MarkAll(init, columns), Marks(|rows|));
      var padding := CutJoins(joined, last, columns);
      assert [] + last + padding == last + padding;
      TrimBlankTail(last, padding);
      TrimAllGrows(joined.finished, last + padding);
      TrimAllGrows(init, last);
      assert lines == init + [last];
    }
  }

  // ---------------------------------------------------------------------------------------------
  // Where a cell goes
  // ---------------------------------------------------------------------------------------------

  lemma DivisionIsUnique(k: int, columns: int, q: int, r: int)
    requires columns > 0 && k == q * columns + r && 0 <= r < columns
    ensures k / columns == q && k % columns == r
  {
    var d := k / columns - q;
    assert d * columns == r - k % columns by {
      assert k == columns * (k / columns) + k % columns;
    }
    assert d >= 1 ==> d * columns >= columns;
    assert d <= -1 ==> d * columns <= -columns;
  }

  lemma OneRowOn(k: int, columns: int)
    requires columns > 0
    ensures (k - columns) / columns == k / columns - 1 && (k - columns) % columns == k % columns
  {
    var q, r := (k - columns) / columns, (k - columns) % columns;
    assert k - columns == columns * q + r;
    assert (q + 1) * columns == columns * q + columns;
    DivisionIsUnique(k, columns, q + 1, r);
  }

  /** The cell at offset `k` of a line lands in row `k / columns`, column `k % columns` of its rows. */
  lemma {:induction false} CutCell(line: Row, columns: nat, k: nat)
    requires columns > 0 && k < |line|
    ensures 0 <= k / columns < |Cut(line, columns)|
    ensures Cut(line, columns)[k / columns][k % columns] == line[k]
    decreases |line|
  {
    if k < columns {
      DivisionIsUnique(k, columns, 0, k);
    } else {
      OneRowOn(k, columns);
      CutCell(line[columns..], columns, k - columns);
    }
  }

  lemma {:induction false} CutAllCell(lines: seq<Row>, columns: nat, i: nat, j: nat)
    requires columns > 0 && i < |lines| && j < |Cut(lines[i], columns)|
    ensures |CutAll(lines[..i], columns)| + j < |CutAll(lines, columns)|
    ensures CutAll(lines, columns)[|CutAll(lines[..i], columns)| + j] == Cut(lines[i], columns)[j]
  {
    var init := lines[..|lines| - 1];
    if i < |lines| - 1 {
      assert init[..i] == lines[..i];
      CutAllCell(init, columns, i, j);
    }
  }

  lemma CutAllAt(lines: seq<Row>, columns: nat, i: nat, k: nat)
    requires columns > 0 && i < |lines| && k < |lines[i]|
    ensures 0 <= k / columns && |CutAll(lines[..i], columns)| + k / columns < |CutAll(lines, columns)|
    ensures CutAll(lines, columns)[|CutAll(lines[..i], columns)| + k / columns][k % columns] == lines[i][k]
  {
    CutCell(lines[i], columns, k);
    CutAllCell(lines, columns, i, k / columns);
  }

  /** Where a cell is among the collected lines. */
  ghost predicate At(lines: Lines, line: nat, offset: nat, cell: Cell) {
    if line < |lines.finished| then offset < |lines.finished[line]| && lines.finished[line][offset] == cell
    else line == |lines.finished| && offset < |lines.current| && lines.current[offset] == cell
  }

  lemma AddRowKeepsAt(lines: Lines, cells: Row, soft: bool, line: nat, offset: nat, cell: Cell)
    requires At(lines, line, offset, cell)
    ensures At(AddRow(lines, cells, soft), line, offset, cell)
  {
  }

  lemma AddRowAt(lines: Lines, cells: Row, soft: bool, x: nat)
    requires x < |cells|
    ensures At(AddRow(lines, cells, soft), |lines.finished|, |lines.current| + x, cells[x])
  {
  }

  lemma CollectedFirst(grid: seq<Row>, soft: seq<bool>, y: nat, x: nat)
    requires y < |grid| == |soft| && x < |Kept(grid[y], soft[y])|
    ensures var before := Collect(grid, soft, y);
            At(Collect(grid, soft, y + 1), |before.finished|, |before.current| + x, grid[y][x])
  {
    AddRowAt(Collect(grid, soft, y), Kept(grid[y], soft[y]), soft[y], x);
  }

  lemma CollectedStays(grid: seq<Row>, soft: seq<bool>, n: nat, line: nat, offset: nat, cell: Cell)
    requires n < |grid| == |soft| && At(Collect(grid, soft, n), line, offset, cell)
    ensures At(Collect(grid, soft, n + 1), line, offset, cell)
  {
    AddRowKeepsAt(Collect(grid, soft, n), Kept(grid[n], soft[n]), soft[n], line, offset, cell);
  }

  /** A cell that is collected keeps its line and its offset while further rows are collected. */
  lemma {:induction false} CollectedKeeps(grid: seq<Row>, soft: seq<bool>, m: nat, n: nat, line: nat, offset: nat, cell: Cell)
    requires m <= n <= |grid| == |soft| && At(Collect(grid, soft, m), line, offset, cell)
    ensures At(Collect(grid, soft, n), line, offset, cell)
    decreases n
  {
    if m < n {
      CollectedKeeps(grid, soft, m, n - 1, line, offset, cell);
      CollectedStays(grid, soft, n - 1, line, offset, cell);
    }
  }

  lemma AtAllLines(lines: Lines, line: nat, offset: nat, cell: Cell)
    requires At(lines, line, offset, cell)
    ensures line < |AllLines(lines)| && offset < |AllLines(lines)[line]| && AllLines(lines)[line][offset] == cell
  {
  }
}
