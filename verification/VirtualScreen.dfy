/**
 A terminal screen that is fed characters and control sequences and resized
 (`benchmarks/chat-pty/benchmark.py`, lines 236-641).
 */
module VirtualScreen {
  import opened ScreenReflow

  datatype Point = Point(x: int, y: int)

  datatype Buffer = Buffer(grid: seq<Row>, x: int, y: int, saved: Point, softWrapped: seq<bool>)

  /** `x` may equal the number of columns: the next character then wraps. */
  ghost predicate Shaped(b: Buffer, columns: nat, rows: nat) {
    && |b.grid| == rows && |b.softWrapped| == rows
    && (forall r :: 0 <= r < rows ==> |b.grid[r]| == columns)
    && 0 <= b.x <= columns && 0 <= b.y < rows
    && 0 <= b.saved.x <= columns && 0 <= b.saved.y < rows
  }

  function Min(a: int, b: int): int {
    if a < b then a else b
  }

  function Max(a: int, b: int): int {
    if a > b then a else b
  }

  function BlankGrid(columns: nat, rows: nat): (grid: seq<Row>)
    ensures |grid| == rows && forall r :: 0 <= r < rows ==> grid[r] == BlankRow(columns)
  {
    seq(rows, r => BlankRow(columns))
  }

  function NoMarks(rows: nat): (marks: seq<bool>)
    ensures |marks| == rows
  {
    seq(rows, r => false)
  }

  function NewBuffer(columns: nat, rows: nat): Buffer {
    Buffer(BlankGrid(columns, rows), 0, 0, Point(0, 0), NoMarks(rows))
  }

  // ---------------------------------------------------------------------------------------------
  // Resizing
  // ---------------------------------------------------------------------------------------------

  /** The last row among the first `n` that shows something, or 0. */
  function LastContentRow(grid: seq<Row>, n: nat): (last: nat)
    requires n <= |grid|
    ensures last < n || last == 0
    ensures forall r :: last < r < n ==> AllBlank(grid[r])
  {
    if n == 0 then 0
    else if Used(grid[n - 1]) > 0 then n - 1
    else LastContentRow(grid, n - 1)
  }

  /** How many rows take part in a resize: down to the last content and both cursors. */
  function RelevantRows(b: Buffer): (n: nat)
    requires 0 <= b.y < |b.grid| && 0 <= b.saved.y
    ensures b.y < n <= |b.grid|
    ensures BlankFrom(b.grid, n)
  {
    Min(Max(Max(LastContentRow(b.grid, |b.grid|), b.y), b.saved.y) + 1, |b.grid|)
  }

  function LogicalLines(b: Buffer): seq<Row>
    requires 0 <= b.y < |b.grid| == |b.softWrapped| && 0 <= b.saved.y
  {
    AllLines(Collect(b.grid, b.softWrapped, RelevantRows(b)))
  }

  /** A place in the logical lines. */
  datatype Place = Place(line: nat, offset: nat)

  function PlaceOf(b: Buffer, at: Point): Place
    requires 0 <= at.y < |b.grid| == |b.softWrapped| && 0 <= at.x
  {
    var before := Collect(b.grid, b.softWrapped, at.y);
    Place(|before.finished|, |before.current| + at.x)
  }

  /** The row and column of a place among the rows of all logical lines. */
  function MovedTo(lines: seq<Row>, place: Place, columns: nat): (moved: Point)
    requires lines != [] && columns > 0
    ensures 0 <= moved.x < columns && 0 <= moved.y
  {
    Point(Min(place.offset % columns, columns - 1),
          |CutAll(lines[..Min(place.line, |lines| - 1)], columns)| + place.offset / columns)
  }

  function Moved(b: Buffer, lines: seq<Row>, at: Point, columns: nat): (moved: Point)
    requires 0 <= at.y < |b.grid| == |b.softWrapped| && 0 <= at.x && lines != [] && columns > 0
    ensures 0 <= moved.x < columns && 0 <= moved.y
  {
    MovedTo(lines, PlaceOf(b, at), columns)
  }

  function Clamp(y: int, dropped: int, rows: int): int {
    Min(Max(0, y - dropped), rows - 1)
  }

  function ResizeBuffer(b: Buffer, columns: nat, rows: nat): Buffer
    requires columns > 0 && rows > 0
    requires 0 <= b.y < |b.grid| == |b.softWrapped| && 0 <= b.x && 0 <= b.saved.y < |b.grid| && 0 <= b.saved.x
  {
    var lines := LogicalLines(b);
    var all, marks := CutAll(lines, columns), MarkAll(lines, columns);
    Fit(all, marks, Moved(b, lines, Point(b.x, b.y), columns), Moved(b, lines, b.saved, columns), columns, rows)
  }

  /** Drops the oldest rows that do not fit, or adds blank ones below. */
  function Fit(all: seq<Row>, marks: seq<bool>, cursor: Point, saved: Point, columns: nat, rows: nat): Buffer
    requires |all| == |marks|
  {
    var dropped := Max(0, |all| - rows);
    var missing := Max(0, rows - |all|);
    Buffer(
      all[dropped..] + BlankGrid(columns, missing),
      cursor.x, Clamp(cursor.y, dropped, rows),
      Point(saved.x, Clamp(saved.y, dropped, rows)),
      marks[dropped..] + NoMarks(missing))
  }

  lemma ResizeKeepsShape(b: Buffer, oldColumns: nat, oldRows: nat, columns: nat, rows: nat)
    requires Shaped(b, oldColumns, oldRows) && columns > 0 && rows > 0
    ensures Shaped(ResizeBuffer(b, columns, rows), columns, rows)
  {
  }

  /**
   A resize that drops no row keeps every logical line, up to blank cells at its end and empty lines
   at the end of the screen.
   */
  lemma ResizeKeepsText(b: Buffer, columns: nat, rows: nat)
    requires columns > 0 && rows > 0
    requires 0 <= b.y < |b.grid| == |b.softWrapped| && 0 <= b.x && 0 <= b.saved.y < |b.grid| && 0 <= b.saved.x
    requires |CutAll(LogicalLines(b), columns)| <= rows
    ensures var after := ResizeBuffer(b, columns, rows);
            && |after.grid| == |after.softWrapped|
            && Text(after.grid, after.softWrapped) == Text(b.grid, b.softWrapped)
  {
    var n := RelevantRows(b);
    var collected := Collect(b.grid, b.softWrapped, n);
    var lines := LogicalLines(b);
    var all, marks := CutAll(lines, columns), MarkAll(lines, columns);
    BlankTailSaysNothing(Lines([], []), b.grid, b.softWrapped, n);
    CollectAgrees(b.grid, b.softWrapped, n);
    SameSaid(collected, Join(Lines([], []), b.grid[..n], b.softWrapped[..n]));
    AllLinesSaid(collected);
    CutAllJoins(lines, columns);
    var joined := Join(Lines([], []), all, marks);
    SaidIs(joined);
    DropOneEmpty(TrimAll(lines));
    var after := ResizeBuffer(b, columns, rows);
    assert after.grid[..|all|] == all && after.softWrapped[..|all|] == marks;
    BlankTailSaysNothing(Lines([], []), after.grid, after.softWrapped, |all|);
  }

  /** The rows of a line behind the first `c`. */
  lemma {:induction false} CutSuffix(line: Row, columns: nat, c: nat)
    requires columns > 0 && c < |Cut(line, columns)|
    ensures c * columns <= |line|
    ensures Cut(line, columns)[c..] == Cut(line[c * columns..], columns)
    decreases c
  {
    if c > 0 {
      CutSuffix(line[columns..], columns, c - 1);
      assert c * columns == columns + (c - 1) * columns;
      assert line[columns..][(c - 1) * columns..] == line[c * columns..];
      assert Cut(line, columns)[c..] == Cut(line[columns..], columns)[c - 1..];
    } else {
      assert line[0..] == line;
    }
  }

  /** The logical lines from line `k` on, the first of them without its first `c` rows. */
  function LinesFrom(lines: seq<Row>, columns: nat, k: nat, c: nat): seq<Row>
    requires k < |lines| && c * columns <= |lines[k]|
  {
    [lines[k][c * columns..]] + lines[k + 1..]
  }

  /** The newest rows of all lines are the rows of the newest lines. */
  lemma {:induction false} NewestRows(lines: seq<Row>, columns: nat, dropped: nat) returns (k: nat, c: nat)
    requires columns > 0 && dropped < |CutAll(lines, columns)|
    ensures k < |lines| && c * columns <= |lines[k]|
    ensures CutAll(lines, columns)[dropped..] == CutAll(LinesFrom(lines, columns, k, c), columns)
    ensures MarkAll(lines, columns)[dropped..] == MarkAll(LinesFrom(lines, columns, k, c), columns)
  {
    var init := lines[..|lines| - 1];
    var above := |CutAll(init, columns)|;
    if dropped < above {
      k, c := NewestRows(init, columns, dropped);
      LinesFromGrows(lines, columns, k, c);
      CutAllGrows(LinesFrom(init, columns, k, c), lines[|init|], columns);
    } else {
      k, c := |init|, dropped - above;
      NewestOfLast(lines, columns, c);
    }
  }

  lemma LinesFromGrows(lines: seq<Row>, columns: nat, k: nat, c: nat)
    requires k < |lines| - 1 && c * columns <= |lines[k]|
    ensures LinesFrom(lines, columns, k, c) == LinesFrom(lines[..|lines| - 1], columns, k, c) + [lines[|lines| - 1]]
  {
    assert lines[k + 1..] == lines[..|lines| - 1][k + 1..] + [lines[|lines| - 1]];
  }

  lemma CutAllGrows(lines: seq<Row>, line: Row, columns: nat)
    requires columns > 0
    ensures CutAll(lines + [line], columns) == CutAll(lines, columns) + Cut(line, columns)
    ensures MarkAll(lines + [line], columns) == MarkAll(lines, columns) + Marks(|Cut(line, columns)|)
  {
    assert (lines + [line])[..|lines|] == lines;
  }

  lemma NewestOfLast(lines: seq<Row>, columns: nat, c: nat)
    requires columns > 0 && lines != [] && c < |Cut(lines[|lines| - 1], columns)|
    ensures var k, dropped := |lines| - 1, |CutAll(lines[..|lines| - 1], columns)| + c;
            && c * columns <= |lines[k]| && dropped < |CutAll(lines, columns)|
            && CutAll(lines, columns)[dropped..] == CutAll(LinesFrom(lines, columns, k, c), columns)
            && MarkAll(lines, columns)[dropped..] == MarkAll(LinesFrom(lines, columns, k, c), columns)
  {
    var k, last := |lines| - 1, lines[|lines| - 1];
    CutSuffix(last, columns, c);
    var rest := last[c * columns..];
    assert LinesFrom(lines, columns, k, c) == [] + [rest];
    CutAllGrows([], rest, columns);
    assert lines == lines[..k] + [last];
    CutAllGrows(lines[..k], last, columns);
    MarksSuffix(|Cut(last, columns)|, c);
    BehindPrefix(CutAll(lines[..k], columns), Cut(last, columns), c);
    BehindPrefix(MarkAll(lines[..k], columns), Marks(|Cut(last, columns)|), c);
  }

  lemma BehindPrefix<T>(a: seq<T>, b: seq<T>, c: nat)
    requires c <= |b|
    ensures (a + b)[|a| + c..] == b[c..]
  {
  }

  lemma MarksSuffix(n: nat, c: nat)
    requires c < n
    ensures Marks(n)[c..] == Marks(n - c)
  {
  }

  /**
   A resize that drops rows keeps the text of the newest lines: what fills the screen afterwards are
   the logical lines from some line on, that line possibly without its first rows.
   */
  lemma ResizeDropsOldest(b: Buffer, columns: nat, rows: nat) returns (k: nat, c: nat)
    requires columns > 0 && rows > 0
    requires 0 <= b.y < |b.grid| == |b.softWrapped| && 0 <= b.x && 0 <= b.saved.y < |b.grid| && 0 <= b.saved.x
    requires |CutAll(LogicalLines(b), columns)| > rows
    ensures var lines, after := LogicalLines(b), ResizeBuffer(b, columns, rows);
            && k < |lines| && c * columns <= |lines[k]| && |after.grid| == |after.softWrapped|
            && |CutAll(LinesFrom(lines, columns, k, c), columns)| == rows
            && Text(after.grid, after.softWrapped) == DropEmptyTail(TrimAll(LinesFrom(lines, columns, k, c)))
  {
    var lines, after := LogicalLines(b), ResizeBuffer(b, columns, rows);
    var all, marks := CutAll(lines, columns), MarkAll(lines, columns);
    var dropped := |all| - rows;
    assert after.grid == all[dropped..] && after.softWrapped == marks[dropped..];
    k, c := NewestRows(lines, columns, dropped);
    var newest := LinesFrom(lines, columns, k, c);
    CutAllJoins(newest, columns);
    SaidIs(Join(Lines([], []), after.grid, after.softWrapped));
    DropOneEmpty(TrimAll(newest));
  }

  /** Among the rows of all logical lines, a cursor on a collected cell stays on that cell. */
  lemma MovedToItsCell(b: Buffer, columns: nat)
    requires columns > 0
    requires 0 <= b.y < |b.grid| == |b.softWrapped| && 0 <= b.saved.y < |b.grid|
    requires 0 <= b.x < |Kept(b.grid[b.y], b.softWrapped[b.y])|
    ensures var moved := Moved(b, LogicalLines(b), Point(b.x, b.y), columns);
            var all := CutAll(LogicalLines(b), columns);
            moved.y < |all| && all[moved.y][moved.x] == b.grid[b.y][b.x]
  {
    var lines := LogicalLines(b);
    var line, offset := CursorInLines(b);
    CutAllAt(lines, columns, line, offset);
    MovedIs(b, lines, columns, line, offset);
  }

  lemma CursorInLines(b: Buffer) returns (line: nat, offset: nat)
    requires 0 <= b.y < |b.grid| == |b.softWrapped| && 0 <= b.saved.y < |b.grid|
    requires 0 <= b.x < |Kept(b.grid[b.y], b.softWrapped[b.y])|
    ensures var before := Collect(b.grid, b.softWrapped, b.y);
            line == |before.finished| && offset == |before.current| + b.x
    ensures line < |LogicalLines(b)| && offset < |LogicalLines(b)[line]|
    ensures LogicalLines(b)[line][offset] == b.grid[b.y][b.x]
  {
    var before := Collect(b.grid, b.softWrapped, b.y);
    line, offset := |before.finished|, |before.current| + b.x;
    CollectedFirst(b.grid, b.softWrapped, b.y, b.x);
    CollectedKeeps(b.grid, b.softWrapped, b.y + 1, RelevantRows(b), line, offset, b.grid[b.y][b.x]);
    AtAllLines(Collect(b.grid, b.softWrapped, RelevantRows(b)), line, offset, b.grid[b.y][b.x]);
  }

  /** Neither of the two minima in the program's computation of the moved cursor takes effect. */
  lemma MovedIs(b: Buffer, lines: seq<Row>, columns: nat, line: nat, offset: nat)
    requires 0 <= b.y < |b.grid| == |b.softWrapped| && 0 <= b.x && columns > 0
    requires var before := Collect(b.grid, b.softWrapped, b.y);
             line == |before.finished| < |lines| && offset == |before.current| + b.x
    ensures Moved(b, lines, Point(b.x, b.y), columns) == Point(offset % columns, |CutAll(lines[..line], columns)| + offset / columns)
  {
  }

  /** A cursor on a collected cell is on the same cell after a resize, unless its row was dropped. */
  lemma CursorKeepsItsCell(b: Buffer, columns: nat, rows: nat)
    requires columns > 0 && rows > 0
    requires 0 <= b.y < |b.grid| == |b.softWrapped| && 0 <= b.saved.y < |b.grid| && 0 <= b.saved.x
    requires 0 <= b.x < |Kept(b.grid[b.y], b.softWrapped[b.y])|
    requires Moved(b, LogicalLines(b), Point(b.x, b.y), columns).y >= |CutAll(LogicalLines(b), columns)| - rows
    ensures var after := ResizeBuffer(b, columns, rows);
            && 0 <= after.y < |after.grid| && 0 <= after.x < |after.grid[after.y]|
            && after.grid[after.y][after.x] == b.grid[b.y][b.x]
  {
    MovedToItsCell(b, columns);
    var all := CutAll(LogicalLines(b), columns);
    var moved := Moved(b, LogicalLines(b), Point(b.x, b.y), columns);
    var dropped := Max(0, |all| - rows);
    KeptRow(all, BlankGrid(columns, Max(0, rows - |all|)), dropped, moved.y);
  }

  lemma KeptRow(all: seq<Row>, blank: seq<Row>, dropped: nat, y: nat)
    requires dropped <= y < |all|
    ensures (all[dropped..] + blank)[y - dropped] == all[y]
  {
  }

  // ---------------------------------------------------------------------------------------------
  // The loops of a resize
  // ---------------------------------------------------------------------------------------------

  /** Cuts one logical line into rows. */
  method CutLine(line: Row, columns: nat) returns (rows: seq<Row>, marks: seq<bool>)
    requires columns > 0
    ensures rows == Cut(line, columns) && marks == Marks(|rows|)
  {
    rows := [];
    var offset := 0;
    while offset + columns < |line|
      invariant 0 <= offset <= |line|
      invariant rows + Cut(line[offset..], columns) == Cut(line, columns)
    {
      var rest := line[offset..];
      assert rest[..columns] == line[offset..offset + columns] && rest[columns..] == line[offset + columns..];
      assert rows + ([rest[..columns]] + Cut(rest[columns..], columns)) == rows + [rest[..columns]] + Cut(rest[columns..], columns);
      rows := rows + [line[offset..offset + columns]];
      offset := offset + columns;
    }
    rows := rows + [Pad(line[offset..], columns)];
    marks := Marks(|rows|);
  }

  /** Cuts all logical lines, remembering where each of them starts. */
  method CutLines(lines: seq<Row>, columns: nat) returns (rows: seq<Row>, marks: seq<bool>, starts: seq<nat>)
    requires columns > 0
    ensures rows == CutAll(lines, columns) && marks == MarkAll(lines, columns)
    ensures |starts| == |lines| && forall k :: 0 <= k < |lines| ==> starts[k] == |CutAll(lines[..k], columns)|
  {
    rows, marks, starts := [], [], [];
    for i := 0 to |lines|
      invariant rows == CutAll(lines[..i], columns) && marks == MarkAll(lines[..i], columns)
      invariant |starts| == i && forall k :: 0 <= k < i ==> starts[k] == |CutAll(lines[..k], columns)|
    {
      starts := starts + [|rows|];
      var chunk, chunkMarks := CutLine(lines[i], columns);
      assert lines[..i + 1][..i] == lines[..i];
      rows, marks := rows + chunk, marks + chunkMarks;
    }
    assert lines[..|lines|] == lines;
  }

  /** Collects the logical lines and where the two cursors are in them. */
  method CollectLines(b: Buffer, n: nat) returns (lines: seq<Row>, cursor: Place, saved: Place)
    requires 0 <= b.y < n <= |b.grid| == |b.softWrapped| && 0 <= b.saved.y < n && 0 <= b.x && 0 <= b.saved.x
    ensures lines == AllLines(Collect(b.grid, b.softWrapped, n))
    ensures cursor == PlaceOf(b, Point(b.x, b.y)) && saved == PlaceOf(b, b.saved)
  {
    var finished: seq<Row>, current: Row := [], [];
    cursor, saved := Place(0, 0), Place(0, 0);
    for row := 0 to n
      invariant Lines(finished, current) == Collect(b.grid, b.softWrapped, row)
      invariant row > b.y ==> cursor == PlaceOf(b, Point(b.x, b.y))
      invariant row > b.saved.y ==> saved == PlaceOf(b, b.saved)
    {
      if row == b.y {
        cursor := Place(|finished|, |current| + b.x);
      }
      if row == b.saved.y {
        saved := Place(|finished|, |current| + b.saved.x);
      }
      current := current + (if b.softWrapped[row] then b.grid[row] else Trim(b.grid[row]));
      if !b.softWrapped[row] {
        finished, current := finished + [current], [];
      }
    }
    lines := if current != [] || finished == [] then finished + [current] else finished;
  }

  /** The body of `resize` for one of the two buffers. */
  method ReflowBuffer(b: Buffer, columns: nat, rows: nat) returns (after: Buffer)
    requires columns > 0 && rows > 0
    requires 0 <= b.y < |b.grid| == |b.softWrapped| && 0 <= b.x && 0 <= b.saved.y < |b.grid| && 0 <= b.saved.x
    ensures after == ResizeBuffer(b, columns, rows)
  {
    var n := RelevantRows(b);
    var lines, cursor, saved := CollectLines(b, n);
    var resized, marks, starts := CutLines(lines, columns);
    var cursorAt := MoveCursor(lines, starts, cursor, columns);
    var savedAt := MoveCursor(lines, starts, saved, columns);
    after := Fit(resized, marks, cursorAt, savedAt, columns, rows);
  }

  method MoveCursor(lines: seq<Row>, starts: seq<nat>, place: Place, columns: nat) returns (moved: Point)
    requires lines != [] && columns > 0
    requires |starts| == |lines| && forall k :: 0 <= k < |lines| ==> starts[k] == |CutAll(lines[..k], columns)|
    ensures moved == MovedTo(lines, place, columns)
  {
    moved := Point(Min(place.offset % columns, columns - 1), starts[Min(place.line, |starts| - 1)] + place.offset / columns);
  }

  // ---------------------------------------------------------------------------------------------
  // The screen
  // ---------------------------------------------------------------------------------------------

  /** What the Unicode tables say of a character as a digit: some are digits that no number is written with. */
  datatype Digit = NoDigit | Decimal(value: nat) | OtherDigit

  /** A decoded character with its width in cells, which the program takes from the Unicode tables. */
  datatype Glyph = Glyph(code: char, width: nat, digit: Digit)

  datatype Parser = Normal | Escape | Csi | Osc | OscEscape | Str | StrEscape

  datatype Screen = Screen(columns: nat, rows: nat, primary: Buffer, alternate: Buffer, inAlternate: bool)

  datatype Modes = Modes(
    alternateEntered: nat,
    alternateLeft: nat,
    cursorVisible: bool,
    bracketedPaste: bool,
    kittyKeyboard: bool,
    synchronizedUpdate: bool,
    mouse: set<nat>)

  datatype Terminal = Terminal(screen: Screen, modes: Modes, parser: Parser, sequence: seq<Glyph>)

  function Active(s: Screen): Buffer {
    if s.inAlternate then s.alternate else s.primary
  }

  function WithActive(s: Screen, b: Buffer): Screen {
    if s.inAlternate then s.(alternate := b) else s.(primary := b)
  }

  /** Both buffers have the shape of the screen. */
  ghost predicate WellShaped(s: Screen) {
    s.columns >= 2 && s.rows >= 1 && Shaped(s.primary, s.columns, s.rows) && Shaped(s.alternate, s.columns, s.rows)
  }

  function SetCell(b: Buffer, y: nat, x: nat, cell: Cell): Buffer
    requires y < |b.grid| && x < |b.grid[y]|
  {
    b.(grid := b.grid[y := b.grid[y][x := cell]])
  }

  function LineFeed(b: Buffer, columns: nat, rows: nat, softWrap: bool): Buffer
    requires Shaped(b, columns, rows) && rows > 0
  {
    var marked := b.(softWrapped := b.softWrapped[b.y := softWrap], y := b.y + 1);
    if marked.y >= rows then
      marked.(grid := marked.grid[1..] + [BlankRow(columns)], softWrapped := marked.softWrapped[1..] + [false], y := rows - 1)
    else marked
  }

  function Write(b: Buffer, columns: nat, rows: nat, glyph: Glyph): Buffer
    requires Shaped(b, columns, rows) && columns > 0 && rows > 0
  {
    if glyph.width == 0 then
      var target := Max(0, b.x - 1);
      SetCell(b, b.y, target, b.grid[b.y][target] + [glyph.code])
    else
      var wide := glyph.width == 2;
      var at := if b.x >= columns || (wide && b.x == columns - 1) then LineFeed(b.(x := 0), columns, rows, true) else b;
      var written := SetCell(at, at.y, at.x, [glyph.code]);
      var covered := if wide && at.x + 1 < columns then SetCell(written, at.y, at.x + 1, "") else written;
      covered.(x := at.x + if wide then 2 else 1)
  }

  function Clear(b: Buffer, columns: nat, rows: nat): Buffer {
    b.(grid := BlankGrid(columns, rows), softWrapped := NoMarks(rows), x := 0, y := 0)
  }

  /** A row of which the columns from `low` up to `high` are blank. */
  function BlankSpan(row: Row, low: int, high: int): (r: Row)
    ensures |r| == |row|
  {
    seq(|row|, i requires 0 <= i < |row| => if low <= i < high then BLANK else row[i])
  }

  function EraseLine(b: Buffer, columns: nat, rows: nat, mode: nat): Buffer
    requires Shaped(b, columns, rows) && rows > 0
  {
    if mode == 2 then b.(grid := b.grid[b.y := BlankRow(columns)], softWrapped := b.softWrapped[b.y := false])
    else if mode == 1 then b.(grid := b.grid[b.y := BlankSpan(b.grid[b.y], 0, Min(b.x + 1, columns))])
    else b.(grid := b.grid[b.y := BlankSpan(b.grid[b.y], b.x, columns)])
  }

  /** The grid with the rows from `low` up to `high` blank. */
  function BlankRows(grid: seq<Row>, columns: nat, low: int, high: int): (after: seq<Row>)
    ensures |after| == |grid|
    ensures forall r :: 0 <= r < |grid| ==> after[r] == if low <= r < high then BlankRow(columns) else grid[r]
  {
    seq(|grid|, r requires 0 <= r < |grid| => if low <= r < high then BlankRow(columns) else grid[r])
  }

  function EraseDisplay(b: Buffer, columns: nat, rows: nat, mode: nat): Buffer
    requires Shaped(b, columns, rows) && rows > 0
  {
    if mode == 2 || mode == 3 then Clear(b, columns, rows)
    else if mode == 1 then EraseLine(b.(grid := BlankRows(b.grid, columns, 0, b.y)), columns, rows, 1)
    else
      var erased := EraseLine(b, columns, rows, 0);
      erased.(grid := BlankRows(erased.grid, columns, b.y + 1, rows))
  }

  function ScrollUp(b: Buffer, columns: nat, n: nat): Buffer
    requires |b.grid| == |b.softWrapped| > 0
    decreases n
  {
    if n == 0 then b
    else ScrollUp(b.(grid := b.grid[1..] + [BlankRow(columns)], softWrapped := b.softWrapped[1..] + [false]), columns, n - 1)
  }

  function ScrollDown(b: Buffer, columns: nat, n: nat): Buffer
    requires |b.grid| == |b.softWrapped| > 0
    decreases n
  {
    if n == 0 then b
    else
      var last := |b.grid| - 1;
      ScrollDown(b.(grid := [BlankRow(columns)] + b.grid[..last], softWrapped := [false] + b.softWrapped[..last]), columns, n - 1)
  }

  // ---------------------------------------------------------------------------------------------
  // Control sequences
  // ---------------------------------------------------------------------------------------------

  function Split(body: seq<Glyph>): (parts: seq<seq<Glyph>>)
    ensures |parts| > 0
  {
    if body == [] then [[]]
    else
      var parts := Split(body[..|body| - 1]);
      var last := body[|body| - 1];
      if last.code == ';' then parts + [[]]
      else parts[..|parts| - 1] + [parts[|parts| - 1] + [last]]
  }

  /** `str.isdigit`, which also accepts digits that `int` refuses. */
  predicate IsDigits(part: seq<Glyph>) {
    part != [] && forall i :: 0 <= i < |part| ==> part[i].digit != NoDigit
  }

  /** How many digits `int` converts at most, by default. */
  const INT_MAX_STR_DIGITS: nat := 4300

  /** `int` raises for these. */
  predicate Unreadable(part: seq<Glyph>) {
    IsDigits(part) && (|part| > INT_MAX_STR_DIGITS || exists i :: 0 <= i < |part| && part[i].digit == OtherDigit)
  }

  function Value(part: seq<Glyph>): nat
    requires forall i :: 0 <= i < |part| ==> part[i].digit.Decimal?
  {
    if part == [] then 0 else 10 * Value(part[..|part| - 1]) + part[|part| - 1].digit.value
  }

  function Parsed(part: seq<Glyph>): nat
    requires !Unreadable(part)
  {
    if IsDigits(part) then
      assert forall i :: 0 <= i < |part| ==> part[i].digit.Decimal?;
      Value(part)
    else 0
  }

  predicate IsPrivate(raw: seq<Glyph>) {
    raw != [] && (raw[0].code == '?' || raw[0].code == '>' || raw[0].code == '<' || raw[0].code == '=')
  }

  function Parts(raw: seq<Glyph>): seq<seq<Glyph>> {
    var body := if IsPrivate(raw) then raw[1..] else raw;
    if body == [] then [] else Split(body)
  }

  /** Some parameter is written with digits that `int` refuses. */
  predicate HasUnreadable(raw: seq<Glyph>) {
    exists i :: 0 <= i < |Parts(raw)| && Unreadable(Parts(raw)[i])
  }

  function Params(raw: seq<Glyph>): seq<nat>
    requires !HasUnreadable(raw)
  {
    var parts := Parts(raw);
    seq(|parts|, i requires 0 <= i < |parts| => Parsed(parts[i]))
  }

  function EnterAlternate(s: Screen): Screen {
    if s.inAlternate then s else s.(alternate := NewBuffer(s.columns, s.rows), inAlternate := true)
  }

  function LeaveAlternate(s: Screen): Screen {
    s.(inAlternate := false)
  }

  predicate IsScreenMode(mode: nat) {
    mode == 47 || mode == 1047 || mode == 1049
  }

  function SwitchScreen(s: Screen, mode: nat, enabled: bool): Screen {
    if !IsScreenMode(mode) then s else if enabled then EnterAlternate(s) else LeaveAlternate(s)
  }

  function SwitchModes(m: Modes, inAlternate: bool, mode: nat, enabled: bool): Modes {
    if IsScreenMode(mode) then
      if enabled && !inAlternate then m.(alternateEntered := m.alternateEntered + 1)
      else if !enabled && inAlternate then m.(alternateLeft := m.alternateLeft + 1)
      else m
    else if mode == 25 then m.(cursorVisible := enabled)
    else if mode == 1000 || mode == 1002 || mode == 1003 || mode == 1006 then
      m.(mouse := if enabled then m.mouse + {mode} else m.mouse - {mode})
    else if mode == 2004 then m.(bracketedPaste := enabled)
    else if mode == 2026 then m.(synchronizedUpdate := enabled)
    else m
  }

  function SetMode(t: Terminal, mode: nat, enabled: bool): Terminal {
    t.(screen := SwitchScreen(t.screen, mode, enabled), modes := SwitchModes(t.modes, t.screen.inAlternate, mode, enabled))
  }

  function SetModes(t: Terminal, modes: seq<nat>, enabled: bool): Terminal {
    if modes == [] then t else SetMode(SetModes(t, modes[..|modes| - 1], enabled), modes[|modes| - 1], enabled)
  }

  function ApplyPrivate(t: Terminal, final: char, params: seq<nat>, private: char): Terminal {
    if private == '>' && final == 'u' then t.(modes := t.modes.(kittyKeyboard := true))
    else if private == '<' && final == 'u' then t.(modes := t.modes.(kittyKeyboard := false))
    else if private != '?' || (final != 'h' && final != 'l') then t
    else SetModes(t, params, final == 'h')
  }

  /** A parameter where zero and none stand for one. */
  function Count(params: seq<nat>, i: nat): nat {
    if i < |params| && params[i] > 0 then params[i] else 1
  }

  function ApplyPlain(b: Buffer, columns: nat, rows: nat, final: char, params: seq<nat>): Buffer
    requires Shaped(b, columns, rows) && columns >= 2 && rows > 0
  {
    var first := Count(params, 0);
    var mode := if params == [] then 0 else params[0];
    match final
    case 'A' => b.(y := Max(0, b.y - first))
    case 'B' => b.(y := Min(rows - 1, b.y + first))
    case 'C' => b.(x := Min(columns - 1, b.x + first))
    case 'D' => b.(x := Max(0, b.x - first))
    case 'E' => b.(y := Min(rows - 1, b.y + first), x := 0)
    case 'F' => b.(y := Max(0, b.y - first), x := 0)
    case 'G' => b.(x := Min(columns - 1, first - 1))
    case 'd' => b.(y := Min(rows - 1, first - 1))
    case 'H' => b.(y := Min(rows - 1, first - 1), x := Min(columns - 1, Count(params, 1) - 1))
    case 'f' => b.(y := Min(rows - 1, first - 1), x := Min(columns - 1, Count(params, 1) - 1))
    case 'J' => EraseDisplay(b, columns, rows, mode)
    case 'K' => EraseLine(b, columns, rows, mode)
    case 's' => b.(saved := Point(b.x, b.y))
    case 'u' => b.(x := b.saved.x, y := b.saved.y)
    case 'S' => ScrollUp(b, columns, first)
    case 'T' => ScrollDown(b, columns, first)
    case _ => b
  }

  function ApplyCsi(t: Terminal, raw: seq<Glyph>, final: char): Terminal
    requires WellShaped(t.screen) && !HasUnreadable(raw)
  {
    if IsPrivate(raw) then ApplyPrivate(t, final, Params(raw), raw[0].code)
    else
      t.(screen := WithActive(t.screen, ApplyPlain(Active(t.screen), t.screen.columns, t.screen.rows, final, Params(raw))))
  }

  const ESC: char := 27 as char
  const BELL: char := 7 as char

  /** A character outside of any escape sequence, seen by the active buffer. */
  function Print(b: Buffer, columns: nat, rows: nat, glyph: Glyph): Buffer
    requires Shaped(b, columns, rows) && columns > 0 && rows > 0
  {
    var code := glyph.code as int;
    if glyph.code == '\r' then b.(x := 0)
    else if glyph.code == '\n' then LineFeed(b, columns, rows, false)
    else if code == 8 then b.(x := Max(0, b.x - 1))
    else if glyph.code == '\t' then b.(x := Min(columns - 1, (b.x / 8 + 1) * 8))
    else if code >= 32 && code != 127 then Write(b, columns, rows, glyph)
    else b
  }

  /** The escape sequences of two characters that act on the active buffer. */
  function Escaped(b: Buffer, columns: nat, rows: nat, code: char): Buffer {
    match code
    case '7' => b.(saved := Point(b.x, b.y))
    case '8' => b.(x := b.saved.x, y := b.saved.y)
    case 'c' => Clear(b, columns, rows)
    case _ => b
  }

  function AfterEscape(code: char): Parser {
    match code
    case '[' => Csi
    case ']' => Osc
    case 'P' => Str
    case '^' => Str
    case '_' => Str
    case _ => Normal
  }

  predicate IsFinal(code: char) {
    '@' <= code <= '~'
  }

  /** Feeding the character raises an error: it ends a control sequence that has an unreadable parameter. */
  predicate Raises(t: Terminal, glyph: Glyph) {
    t.parser == Csi && IsFinal(glyph.code) && HasUnreadable(t.sequence)
  }

  /** An error leaves the parser inside the control sequence, with its last character taken in. */
  function FeedGlyph(t: Terminal, glyph: Glyph): Terminal
    requires WellShaped(t.screen)
  {
    var s := t.screen;
    match t.parser
    case Normal =>
      if glyph.code == ESC then t.(parser := Escape)
      else t.(screen := WithActive(s, Print(Active(s), s.columns, s.rows, glyph)))
    case Escape =>
      Terminal(WithActive(s, Escaped(Active(s), s.columns, s.rows, glyph.code)), t.modes, AfterEscape(glyph.code),
               if glyph.code == '[' then [] else t.sequence)
    case Csi =>
      if IsFinal(glyph.code) && !HasUnreadable(t.sequence)
      then ApplyCsi(t, t.sequence, glyph.code).(sequence := [], parser := Normal)
      else t.(sequence := t.sequence + [glyph])
    case Osc => if glyph.code == BELL then t.(parser := Normal) else if glyph.code == ESC then t.(parser := OscEscape) else t
    case OscEscape => t.(parser := if glyph.code == '\\' then Normal else Osc)
    case Str => if glyph.code == ESC then t.(parser := StrEscape) else t
    case StrEscape => t.(parser := if glyph.code == '\\' then Normal else Str)
  }

  function Resize(s: Screen, columns: nat, rows: nat): Screen
    requires WellShaped(s) && columns > 0 && rows > 0
  {
    Screen(columns, rows, ResizeBuffer(s.primary, columns, rows), ResizeBuffer(s.alternate, columns, rows), s.inAlternate)
  }

  // ---------------------------------------------------------------------------------------------
  // Every operation keeps the shape
  // ---------------------------------------------------------------------------------------------

  /** Only a wide character on a screen of one column leaves the cursor beyond the screen. */
  lemma WriteKeepsShape(b: Buffer, columns: nat, rows: nat, glyph: Glyph)
    requires Shaped(b, columns, rows) && columns > 0 && rows > 0
    ensures Shaped(Write(b, columns, rows, glyph), columns, rows) <==> (columns >= 2 || glyph.width != 2)
  {
    LineFeedKeepsShape(b.(x := 0), columns, rows, true);
  }

  lemma LineFeedKeepsShape(b: Buffer, columns: nat, rows: nat, softWrap: bool)
    requires Shaped(b, columns, rows) && rows > 0
    ensures Shaped(LineFeed(b, columns, rows, softWrap), columns, rows)
  {
  }

  lemma EraseKeepsShape(b: Buffer, columns: nat, rows: nat, mode: nat)
    requires Shaped(b, columns, rows) && rows > 0
    ensures Shaped(EraseLine(b, columns, rows, mode), columns, rows)
    ensures Shaped(EraseDisplay(b, columns, rows, mode), columns, rows)
  {
  }

  lemma {:induction false} ScrollKeepsShape(b: Buffer, columns: nat, rows: nat, n: nat)
    requires Shaped(b, columns, rows) && rows > 0
    ensures Shaped(ScrollUp(b, columns, n), columns, rows)
    ensures Shaped(ScrollDown(b, columns, n), columns, rows)
    decreases n
  {
    if n > 0 {
      var last := rows - 1;
      var up := b.(grid := b.grid[1..] + [BlankRow(columns)], softWrapped := b.softWrapped[1..] + [false]);
      var down := b.(grid := [BlankRow(columns)] + b.grid[..last], softWrapped := [false] + b.softWrapped[..last]);
      ScrollKeepsShape(up, columns, rows, n - 1);
      ScrollKeepsShape(down, columns, rows, n - 1);
    }
  }

  lemma PlainKeepsShape(b: Buffer, columns: nat, rows: nat, final: char, params: seq<nat>)
    requires Shaped(b, columns, rows) && columns >= 2 && rows > 0
    ensures Shaped(ApplyPlain(b, columns, rows, final, params), columns, rows)
  {
    match final
    case 'J' => EraseKeepsShape(b, columns, rows, if params == [] then 0 else params[0]);
    case 'K' => EraseKeepsShape(b, columns, rows, if params == [] then 0 else params[0]);
    case 'S' => ScrollKeepsShape(b, columns, rows, Count(params, 0));
    case 'T' => ScrollKeepsShape(b, columns, rows, Count(params, 0));
    case _ =>
  }

  lemma PrintKeepsShape(b: Buffer, columns: nat, rows: nat, glyph: Glyph)
    requires Shaped(b, columns, rows) && columns >= 2 && rows > 0
    ensures Shaped(Print(b, columns, rows, glyph), columns, rows)
  {
    WriteKeepsShape(b, columns, rows, glyph);
    LineFeedKeepsShape(b, columns, rows, false);
  }

  lemma EscapedKeepsShape(b: Buffer, columns: nat, rows: nat, code: char)
    requires Shaped(b, columns, rows) && columns >= 2 && rows > 0
    ensures Shaped(Escaped(b, columns, rows, code), columns, rows)
  {
  }

  lemma ActiveKeepsShape(s: Screen, b: Buffer)
    requires WellShaped(s) && Shaped(b, s.columns, s.rows)
    ensures WellShaped(WithActive(s, b))
  {
  }

  lemma SwitchKeepsShape(s: Screen, mode: nat, enabled: bool)
    requires WellShaped(s)
    ensures WellShaped(SwitchScreen(s, mode, enabled))
  {
  }

  lemma {:induction false} ModesKeepShape(t: Terminal, modes: seq<nat>, enabled: bool)
    requires WellShaped(t.screen)
    ensures WellShaped(SetModes(t, modes, enabled).screen)
  {
    if modes != [] {
      ModesKeepShape(t, modes[..|modes| - 1], enabled);
      SwitchKeepsShape(SetModes(t, modes[..|modes| - 1], enabled).screen, modes[|modes| - 1], enabled);
    }
  }

  lemma CsiKeepsShape(t: Terminal, raw: seq<Glyph>, final: char)
    requires WellShaped(t.screen) && !HasUnreadable(raw)
    ensures WellShaped(ApplyCsi(t, raw, final).screen)
  {
    if IsPrivate(raw) {
      ModesKeepShape(t, Params(raw), final == 'h');
    } else {
      var s := t.screen;
      PlainKeepsShape(Active(s), s.columns, s.rows, final, Params(raw));
      ActiveKeepsShape(s, ApplyPlain(Active(s), s.columns, s.rows, final, Params(raw)));
    }
  }

  lemma GlyphKeepsShape(t: Terminal, glyph: Glyph)
    requires WellShaped(t.screen)
    ensures WellShaped(FeedGlyph(t, glyph).screen)
  {
    var s := t.screen;
    match t.parser
    case Normal =>
      PrintKeepsShape(Active(s), s.columns, s.rows, glyph);
      ActiveKeepsShape(s, Print(Active(s), s.columns, s.rows, glyph));
    case Escape =>
      EscapedKeepsShape(Active(s), s.columns, s.rows, glyph.code);
      ActiveKeepsShape(s, Escaped(Active(s), s.columns, s.rows, glyph.code));
    case Csi =>
      if !HasUnreadable(t.sequence) {
        CsiKeepsShape(t, t.sequence, glyph.code);
      }
    case _ =>
  }

  lemma ScreenResizeKeepsShape(s: Screen, columns: nat, rows: nat)
    requires WellShaped(s) && columns >= 2 && rows > 0
    ensures WellShaped(Resize(s, columns, rows))
  {
    ResizeKeepsShape(s.primary, s.columns, s.rows, columns, rows);
    ResizeKeepsShape(s.alternate, s.columns, s.rows, columns, rows);
  }

  // ---------------------------------------------------------------------------------------------
  // Runs
  // ---------------------------------------------------------------------------------------------

  datatype Event =
    | Feeds(glyph: Glyph)
    | Resizes(columns: nat, rows: nat)

  function NewTerminal(columns: nat, rows: nat): Terminal {
    Terminal(Screen(columns, rows, NewBuffer(columns, rows), NewBuffer(columns, rows), false),
             Modes(0, 0, true, false, false, false, {}), Normal, [])
  }

  predicate Possible(e: Event) {
    e.Resizes? ==> e.columns >= 2 && e.rows >= 1
  }

  predicate Sensible(events: seq<Event>) {
    forall i :: 0 <= i < |events| ==> Possible(events[i])
  }

  function Step(t: Terminal, e: Event): (after: Terminal)
    requires WellShaped(t.screen) && Possible(e)
    ensures WellShaped(after.screen)
  {
    match e
    case Feeds(glyph) =>
      GlyphKeepsShape(t, glyph);
      FeedGlyph(t, glyph)
    case Resizes(columns, rows) =>
      ScreenResizeKeepsShape(t.screen, columns, rows);
      t.(screen := Resize(t.screen, columns, rows))
  }

  /**
   For every input and all sizes of at least two columns and one row, both buffers keep the shape of
   the screen and every cursor stays on it, so that no access to the grid is out of range.
   */
  function Run(t: Terminal, events: seq<Event>): (after: Terminal)
    requires WellShaped(t.screen) && Sensible(events)
    ensures WellShaped(after.screen)
  {
    if events == [] then t else Step(Run(t, events[..|events| - 1]), events[|events| - 1])
  }

  lemma RunGrows(t: Terminal, events: seq<Event>, e: Event)
    requires WellShaped(t.screen) && Sensible(events) && Possible(e)
    ensures Sensible(events + [e]) && Run(t, events + [e]) == Step(Run(t, events), e)
  {
    assert (events + [e])[..|events|] == events;
  }

  /** The screen depends only on the characters and resizes, not on how they are handed over in pieces. */
  lemma {:induction false} RunSplits(t: Terminal, a: seq<Event>, b: seq<Event>)
    requires WellShaped(t.screen) && Sensible(a) && Sensible(b) && Sensible(a + b)
    ensures Run(t, a + b) == Run(Run(t, a), b)
    decreases |b|
  {
    if b == [] {
      assert a + b == a;
    } else {
      var init, last := b[..|b| - 1], b[|b| - 1];
      assert b == init + [last] && a + b == (a + init) + [last];
      RunSplits(t, a, init);
      RunGrows(t, a + init, last);
      RunGrows(Run(t, a), init, last);
    }
  }

  function FeedEvents(glyphs: seq<Glyph>): (events: seq<Event>)
    ensures |events| == |glyphs| && Sensible(events)
  {
    seq(|glyphs|, i requires 0 <= i < |glyphs| => Feeds(glyphs[i]))
  }

  // ---------------------------------------------------------------------------------------------
  // When feeding raises an error
  // ---------------------------------------------------------------------------------------------

  /** Character `k` raises an error after those before it. */
  ghost predicate RaisesAt(t: Terminal, glyphs: seq<Glyph>, k: nat)
    requires WellShaped(t.screen) && k < |glyphs|
  {
    Raises(Run(t, FeedEvents(glyphs[..k])), glyphs[k])
  }

  ghost predicate NoneRaises(t: Terminal, glyphs: seq<Glyph>, n: nat)
    requires WellShaped(t.screen) && n <= |glyphs|
  {
    forall k :: 0 <= k < n ==> !RaisesAt(t, glyphs, k)
  }

  lemma FeedNext(t: Terminal, glyphs: seq<Glyph>, glyph: Glyph)
    requires WellShaped(t.screen)
    ensures Run(t, FeedEvents(glyphs + [glyph])) == FeedGlyph(Run(t, FeedEvents(glyphs)), glyph)
  {
    assert FeedEvents(glyphs + [glyph]) == FeedEvents(glyphs) + [Feeds(glyph)];
    RunGrows(t, FeedEvents(glyphs), Feeds(glyph));
    StepFeeds(Run(t, FeedEvents(glyphs)), glyph);
  }

  lemma StepFeeds(t: Terminal, glyph: Glyph)
    requires WellShaped(t.screen)
    ensures Step(t, Feeds(glyph)) == FeedGlyph(t, glyph)
  {
  }

  lemma FedNext(t: Terminal, glyphs: seq<Glyph>, k: nat)
    requires WellShaped(t.screen) && k < |glyphs|
    ensures Run(t, FeedEvents(glyphs[..k + 1])) == FeedGlyph(Run(t, FeedEvents(glyphs[..k])), glyphs[k])
    ensures NoneRaises(t, glyphs, k) && !RaisesAt(t, glyphs, k) ==> NoneRaises(t, glyphs, k + 1)
    ensures RaisesAt(t, glyphs, k) == Raises(Run(t, FeedEvents(glyphs[..k])), glyphs[k])
  {
    assert glyphs[..k + 1] == glyphs[..k] + [glyphs[k]];
    FeedNext(t, glyphs[..k], glyphs[k]);
  }

  /** Inside a control sequence characters are collected until one ends it. */
  lemma {:induction false} BodyIsCollected(t: Terminal, body: seq<Glyph>)
    requires WellShaped(t.screen) && t.parser == Csi
    requires forall i :: 0 <= i < |body| ==> !IsFinal(body[i].code)
    ensures Run(t, FeedEvents(body)) == t.(sequence := t.sequence + body)
  {
    if body != [] {
      var init, last := body[..|body| - 1], body[|body| - 1];
      assert body == init + [last];
      BodyIsCollected(t, init);
      FeedNext(t, init, last);
      assert t.sequence + body == t.sequence + init + [last];
    } else {
      assert t.sequence + [] == t.sequence;
    }
  }

  /** The characters that begin a control sequence and its parameters. */
  function Begun(body: seq<Glyph>): seq<Glyph> {
    [Glyph(ESC, 0, NoDigit), Glyph('[', 1, NoDigit)] + body
  }

  /**
   A control sequence raises an error exactly if one of its parameters consists of digits of which
   one is not a decimal digit, or of more digits than are converted; then nothing on the screen changes.
   */
  lemma SequenceRaisesIff(t: Terminal, body: seq<Glyph>, final: Glyph)
    requires WellShaped(t.screen) && t.parser == Normal && IsFinal(final.code)
    requires forall i :: 0 <= i < |body| ==> !IsFinal(body[i].code)
    ensures var begun := Run(t, FeedEvents(Begun(body)));
            && (Raises(begun, final) <==> HasUnreadable(body))
            && begun.screen == t.screen
            && (HasUnreadable(body) <==> FeedGlyph(begun, final).parser == Csi)
            && (HasUnreadable(body) ==> FeedGlyph(begun, final).screen == t.screen)
  {
    var inside := t.(parser := Csi, sequence := []);
    OpeningEnters(t);
    assert FeedEvents(Begun(body)) == FeedEvents(Begun([])) + FeedEvents(body);
    RunSplits(t, FeedEvents(Begun([])), FeedEvents(body));
    BodyIsCollected(inside, body);
    assert [] + body == body;
    FinalEnds(inside.(sequence := body), final);
  }

  lemma OpeningEnters(t: Terminal)
    requires WellShaped(t.screen) && t.parser == Normal
    ensures Run(t, FeedEvents(Begun([]))) == t.(parser := Csi, sequence := [])
  {
    var escape, bracket := Glyph(ESC, 0, NoDigit), Glyph('[', 1, NoDigit);
    FeedNext(t, [], escape);
    assert [] + [escape] == [escape];
    FeedNext(t, [escape], bracket);
    assert Begun([]) == [escape] + [bracket];
    assert FeedGlyph(t, escape) == t.(parser := Escape);
  }

  lemma FinalEnds(t: Terminal, final: Glyph)
    requires WellShaped(t.screen) && t.parser == Csi && IsFinal(final.code)
    ensures Raises(t, final) <==> HasUnreadable(t.sequence)
    ensures HasUnreadable(t.sequence) <==> FeedGlyph(t, final).parser == Csi
    ensures HasUnreadable(t.sequence) ==> FeedGlyph(t, final).screen == t.screen
  {
  }

  lemma {:induction false} OnePart(body: seq<Glyph>)
    requires forall i :: 0 <= i < |body| ==> body[i].code != ';'
    ensures Split(body) == [body]
  {
    if body != [] {
      OnePart(body[..|body| - 1]);
      assert body == body[..|body| - 1] + [body[|body| - 1]];
    }
  }

  /** A superscript two as a parameter is a digit to one check and none to the other: it raises. */
  lemma SuperscriptRaises(t: Terminal)
    requires WellShaped(t.screen) && t.parser == Normal
    ensures var two := Glyph('\U{00B2}', 1, OtherDigit);
            Raises(Run(t, FeedEvents(Begun([two]))), Glyph('A', 1, NoDigit))
  {
    var two := Glyph('\U{00B2}', 1, OtherDigit);
    SuperscriptIsUnreadable(two);
    SequenceRaisesIff(t, [two], Glyph('A', 1, NoDigit));
  }

  lemma SuperscriptIsUnreadable(two: Glyph)
    requires two == Glyph('\U{00B2}', 1, OtherDigit)
    ensures HasUnreadable([two])
  {
    OnePart([two]);
    assert Parts([two]) == [[two]];
    assert [two][0].digit == OtherDigit;
    assert Unreadable(Parts([two])[0]);
  }

  // ---------------------------------------------------------------------------------------------
  // The object that the program updates in place
  // ---------------------------------------------------------------------------------------------

  class Display {
    var screen: Screen
    var modes: Modes
    var parser: Parser
    var sequence: seq<Glyph>

    function View(): Terminal
      reads this
    {
      Terminal(screen, modes, parser, sequence)
    }

    constructor (columns: nat, rows: nat)
      requires columns >= 2 && rows >= 1
      ensures View() == NewTerminal(columns, rows) && WellShaped(screen)
    {
      var t := NewTerminal(columns, rows);
      screen, modes, parser, sequence := t.screen, t.modes, t.parser, t.sequence;
    }

    /** `_feed_char`. */
    method FeedChar(glyph: Glyph) returns (raised: bool)
      requires WellShaped(screen)
      modifies this
      ensures View() == FeedGlyph(old(View()), glyph) && WellShaped(screen)
      ensures raised == Raises(old(View()), glyph)
    {
      GlyphKeepsShape(View(), glyph);
      raised := Raises(View(), glyph);
      var after := FeedGlyph(View(), glyph);
      screen, modes, parser, sequence := after.screen, after.modes, after.parser, after.sequence;
    }

    /** Feeds the characters up to the first that raises an error, if one does. */
    method Feed(glyphs: seq<Glyph>) returns (fed: nat, raised: bool)
      requires WellShaped(screen)
      modifies this
      ensures fed <= |glyphs| && View() == Run(old(View()), FeedEvents(glyphs[..fed])) && WellShaped(screen)
      ensures if raised then fed > 0 && RaisesAt(old(View()), glyphs, fed - 1) else fed == |glyphs|
      ensures NoneRaises(old(View()), glyphs, if raised then fed - 1 else fed)
    {
      ghost var before := View();
      fed, raised := 0, false;
      while fed < |glyphs|
        invariant fed <= |glyphs| && !raised && WellShaped(screen)
        invariant View() == Run(before, FeedEvents(glyphs[..fed]))
        invariant NoneRaises(before, glyphs, fed)
      {
        FedNext(before, glyphs, fed);
        raised := FeedChar(glyphs[fed]);
        fed := fed + 1;
        if raised {
          return;
        }
      }
      assert glyphs[..|glyphs|] == glyphs;
    }

    method ResizeTo(columns: nat, rows: nat)
      requires WellShaped(screen) && columns >= 2 && rows >= 1
      modifies this`screen
      ensures screen == Resize(old(screen), columns, rows) && WellShaped(screen)
    {
      ScreenResizeKeepsShape(screen, columns, rows);
      var primary := ReflowBuffer(screen.primary, columns, rows);
      var alternate := ReflowBuffer(screen.alternate, columns, rows);
      screen := Screen(columns, rows, primary, alternate, screen.inAlternate);
    }
  }
}
