/**
 Typing and resizing agree on what a logical line is: text that soft-wraps while it is typed reads
 back as one line, and still does after any number of resizes that drop no row
 (`benchmarks/chat-pty/benchmark.py`, lines 307-389 and 485-507).
 */
module ScreenText {
  import opened ScreenReflow
  import opened VirtualScreen

  function PrintAll(b: Buffer, columns: nat, rows: nat, glyphs: seq<Glyph>): (after: Buffer)
    requires Shaped(b, columns, rows) && columns >= 2 && rows > 0
    ensures Shaped(after, columns, rows)
  {
    if glyphs == [] then b
    else
      var before := PrintAll(b, columns, rows, glyphs[..|glyphs| - 1]);
      PrintKeepsShape(before, columns, rows, glyphs[|glyphs| - 1]);
      Print(before, columns, rows, glyphs[|glyphs| - 1])
  }

  /** Characters that take one cell or two, blanks among them; a blank is not wide. */
  predicate Typeable(glyph: Glyph) {
    && (glyph.width == 1 || (glyph.width == 2 && glyph.code != ' '))
    && glyph.code as int >= 32 && glyph.code as int != 127
  }

  predicate AllTypeable(glyphs: seq<Glyph>) {
    forall i :: 0 <= i < |glyphs| ==> Typeable(glyphs[i])
  }

  function CellsOfOne(glyph: Glyph): Row {
    if glyph.width == 2 then [[glyph.code], ""] else [[glyph.code]]
  }

  function CellsOf(glyphs: seq<Glyph>): Row {
    if glyphs == [] then [] else CellsOf(glyphs[..|glyphs| - 1]) + CellsOfOne(glyphs[|glyphs| - 1])
  }

  /** A wide character that finds only the last column left goes to the next row. */
  predicate MeetsEdge(line: Row, columns: nat, glyph: Glyph)
    requires columns > 0
  {
    glyph.width == 2 && TailLength(line, columns) == columns - 1
  }

  /** The line with one more character; at the edge a blank cell is left behind. */
  function Extended(line: Row, columns: nat, glyph: Glyph): Row
    requires columns > 0
  {
    line + (if MeetsEdge(line, columns, glyph) then [BLANK] else []) + CellsOfOne(glyph)
  }

  /** The line that typing leaves on the screen. */
  function LineOf(glyphs: seq<Glyph>, columns: nat): Row
    requires columns > 0
  {
    if glyphs == [] then []
    else Extended(LineOf(glyphs[..|glyphs| - 1], columns), columns, glyphs[|glyphs| - 1])
  }

  /** How many wide characters meet the last column. */
  function EdgesMet(glyphs: seq<Glyph>, columns: nat): nat
    requires columns > 0
  {
    if glyphs == [] then 0
    else
      var init, last := glyphs[..|glyphs| - 1], glyphs[|glyphs| - 1];
      EdgesMet(init, columns) + if MeetsEdge(LineOf(init, columns), columns, last) then 1 else 0
  }

  /** How many cells the last row of a line holds. */
  function TailLength(line: Row, columns: nat): (length: nat)
    requires columns > 0
    ensures length <= columns && (line != [] ==> length > 0)
    decreases |line|
  {
    if |line| <= columns then |line| else TailLength(line[columns..], columns)
  }

  /** The rows of a line with one more cell: the last row takes it, or a new row does. */
  lemma {:induction false} CutGrows(line: Row, cell: Cell, columns: nat)
    requires columns > 0
    ensures var rows, after, x := Cut(line, columns), Cut(line + [cell], columns), TailLength(line, columns);
            var last := |rows| - 1;
            if x < columns then after == rows[last := rows[last][x := cell]] && TailLength(line + [cell], columns) == x + 1
            else after == rows + [BlankRow(columns)[0 := cell]] && TailLength(line + [cell], columns) == 1
    decreases |line|
  {
    if |line| < columns {
      assert Pad(line + [cell], columns) == Pad(line, columns)[|line| := cell];
    } else if |line| == columns {
      assert (line + [cell])[..columns] == line && (line + [cell])[columns..] == [cell];
      assert Pad([cell], columns) == BlankRow(columns)[0 := cell];
      assert Cut([cell], columns) == [Pad([cell], columns)];
    } else {
      assert (line + [cell])[..columns] == line[..columns] && (line + [cell])[columns..] == line[columns..] + [cell];
      CutGrows(line[columns..], cell, columns);
    }
  }

  /** The screen shows one line, cut into rows from the top, with the cursor behind it. */
  ghost predicate Shows(b: Buffer, line: Row, columns: nat, rows: nat)
    requires columns > 0
  {
    var n := |Cut(line, columns)|;
    && n <= rows && b.y == n - 1 && b.x == TailLength(line, columns)
    && b.grid == Cut(line, columns) + BlankGrid(columns, rows - n)
    && b.softWrapped == Marks(n) + NoMarks(rows - n)
  }

  /** Typing one more character keeps the screen showing one line. */
  lemma TypingExtends(b: Buffer, line: Row, columns: nat, rows: nat, glyph: Glyph)
    requires Shaped(b, columns, rows) && columns >= 2 && rows > 0
    requires Shows(b, line, columns, rows) && Typeable(glyph)
    requires |Cut(Extended(line, columns, glyph), columns)| <= rows
    ensures Shows(Print(b, columns, rows, glyph), Extended(line, columns, glyph), columns, rows)
  {
    assert Print(b, columns, rows, glyph) == Write(b, columns, rows, glyph);
    if glyph.width == 1 {
      assert line + [] == line;
      TypingNarrow(b, line, columns, rows, glyph);
    } else if MeetsEdge(line, columns, glyph) {
      EdgeIsBlank(b, line, columns, rows);
      assert Write(b, columns, rows, glyph) == Write(b.(x := columns), columns, rows, glyph);
      TypingWide(b.(x := columns), line + [BLANK], columns, rows, glyph);
    } else {
      assert line + [] == line;
      TypingWide(b, line, columns, rows, glyph);
    }
  }

  lemma TypingNarrow(b: Buffer, line: Row, columns: nat, rows: nat, glyph: Glyph)
    requires Shaped(b, columns, rows) && columns >= 2 && rows > 0 && glyph.width == 1
    requires Shows(b, line, columns, rows) && |Cut(line + [[glyph.code]], columns)| <= rows
    ensures Shows(Write(b, columns, rows, glyph), line + [[glyph.code]], columns, rows)
  {
    CutGrows(line, [glyph.code], columns);
    if b.x < columns {
      TypingInRow(b, line, columns, rows, glyph);
    } else {
      TypingWraps(b, line, columns, rows, glyph);
    }
  }

  /** The cell at the edge is blank already, so the line may as well be said to go on to it. */
  lemma EdgeIsBlank(b: Buffer, line: Row, columns: nat, rows: nat)
    requires Shaped(b, columns, rows) && columns >= 2 && rows > 0
    requires Shows(b, line, columns, rows) && TailLength(line, columns) == columns - 1
    ensures Shows(b.(x := columns), line + [BLANK], columns, rows)
  {
    CutGrows(line, BLANK, columns);
    BehindTailIsBlank(line, columns, columns - 1);
    var cut := Cut(line, columns);
    var last := |cut| - 1;
    assert cut[last][columns - 1 := BLANK] == cut[last];
    assert cut[last := cut[last]] == cut;
  }

  lemma {:induction false} BehindTailIsBlank(line: Row, columns: nat, x: nat)
    requires columns > 0 && TailLength(line, columns) <= x < columns
    ensures var rows := Cut(line, columns); rows[|rows| - 1][x] == BLANK
    decreases |line|
  {
    if |line| > columns {
      BehindTailIsBlank(line[columns..], columns, x);
    }
  }

  /** Writing a wide character writes its first cell like a narrow one, and an empty cell behind it. */
  lemma WideIsTwoCells(b: Buffer, columns: nat, rows: nat, glyph: Glyph)
    requires Shaped(b, columns, rows) && columns >= 2 && rows > 0 && glyph.width == 2 && b.x != columns - 1
    ensures var typed := Write(b, columns, rows, glyph.(width := 1));
            && 0 <= typed.y < |typed.grid| && 0 <= typed.x < columns && |typed.grid[typed.y]| == columns
            && Write(b, columns, rows, glyph) == SetCell(typed, typed.y, typed.x, "").(x := typed.x + 1)
  {
    var typed := Write(b, columns, rows, glyph.(width := 1));
    WriteKeepsShape(b, columns, rows, glyph.(width := 1));
    assert typed.x < columns;
  }

  lemma TypingWide(b: Buffer, line: Row, columns: nat, rows: nat, glyph: Glyph)
    requires Shaped(b, columns, rows) && columns >= 2 && rows > 0 && glyph.width == 2
    requires Shows(b, line, columns, rows) && b.x != columns - 1
    requires |Cut(line + [[glyph.code], ""], columns)| <= rows
    ensures Shows(Write(b, columns, rows, glyph), line + [[glyph.code], ""], columns, rows)
  {
    var narrow := glyph.(width := 1);
    var first := line + [[glyph.code]];
    assert line + [[glyph.code], ""] == first + [""];
    CutNeverShrinks(first, [""], columns);
    TypingNarrow(b, line, columns, rows, narrow);
    WriteKeepsShape(b, columns, rows, narrow);
    WideIsTwoCells(b, columns, rows, glyph);
    CellInRow(Write(b, columns, rows, narrow), first, "", columns, rows);
  }

  /** Setting the cell behind the line makes it part of the line. */
  lemma CellInRow(b: Buffer, line: Row, cell: Cell, columns: nat, rows: nat)
    requires Shaped(b, columns, rows) && columns >= 2 && rows > 0
    requires Shows(b, line, columns, rows) && b.x < columns
    ensures Shows(SetCell(b, b.y, b.x, cell).(x := b.x + 1), line + [cell], columns, rows)
  {
    var n := |Cut(line, columns)|;
    CutGrows(line, cell, columns);
    var after := SetCell(b, b.y, b.x, cell).(x := b.x + 1);
    assert b.grid[n - 1] == Cut(line, columns)[n - 1];
    assert after.grid == Cut(line, columns)[n - 1 := Cut(line, columns)[n - 1][b.x := cell]] + BlankGrid(columns, rows - n);
  }

  lemma TypingInRow(b: Buffer, line: Row, columns: nat, rows: nat, glyph: Glyph)
    requires Shaped(b, columns, rows) && columns >= 2 && rows > 0 && glyph.width == 1
    requires Shows(b, line, columns, rows) && b.x < columns
    ensures Shows(Write(b, columns, rows, glyph), line + [[glyph.code]], columns, rows)
  {
    assert Write(b, columns, rows, glyph) == SetCell(b, b.y, b.x, [glyph.code]).(x := b.x + 1);
    CellInRow(b, line, [glyph.code], columns, rows);
  }

  lemma TypingWraps(b: Buffer, line: Row, columns: nat, rows: nat, glyph: Glyph)
    requires Shaped(b, columns, rows) && columns >= 2 && rows > 0 && glyph.width == 1
    requires Shows(b, line, columns, rows) && b.x == columns && |Cut(line, columns)| < rows
    ensures Shows(Write(b, columns, rows, glyph), line + [[glyph.code]], columns, rows)
  {
    var cell := [glyph.code];
    var n := |Cut(line, columns)|;
    CutGrows(line, cell, columns);
    var fed := LineFeed(b.(x := 0), columns, rows, true);
    assert fed == b.(x := 0, y := n, softWrapped := b.softWrapped[n - 1 := true]);
    var after := Write(b, columns, rows, glyph);
    assert after == SetCell(fed, n, 0, cell).(x := 1);
    assert b.grid[n] == BlankRow(columns);
    assert after.grid == Cut(line, columns) + [BlankRow(columns)[0 := cell]] + BlankGrid(columns, rows - n - 1);
    assert after.softWrapped == Marks(n + 1) + NoMarks(rows - n - 1);
  }

  lemma {:induction false} CutNeverShrinks(line: Row, cells: Row, columns: nat)
    requires columns > 0
    ensures |Cut(line, columns)| <= |Cut(line + cells, columns)|
    decreases |cells|
  {
    if cells == [] {
      assert line + cells == line;
    } else {
      CutNeverShrinks(line, cells[..|cells| - 1], columns);
      CutGrows(line + cells[..|cells| - 1], cells[|cells| - 1], columns);
      assert line + cells == line + cells[..|cells| - 1] + [cells[|cells| - 1]];
    }
  }

  lemma {:induction false} TypedShows(glyphs: seq<Glyph>, columns: nat, rows: nat)
    requires columns >= 2 && rows > 0 && AllTypeable(glyphs)
    requires |Cut(LineOf(glyphs, columns), columns)| <= rows
    ensures Shows(PrintAll(NewBuffer(columns, rows), columns, rows, glyphs), LineOf(glyphs, columns), columns, rows)
  {
    if glyphs == [] {
      assert [] + BlankRow(columns) == BlankRow(columns);
      assert Pad([], columns) == BlankRow(columns);
      assert Cut([], columns) == [BlankRow(columns)];
      assert [BlankRow(columns)] + BlankGrid(columns, rows - 1) == BlankGrid(columns, rows);
      assert Marks(1) + NoMarks(rows - 1) == NoMarks(rows);
    } else {
      var init, last := glyphs[..|glyphs| - 1], glyphs[|glyphs| - 1];
      var line := LineOf(init, columns);
      var more := (if MeetsEdge(line, columns, last) then [BLANK] else []) + CellsOfOne(last);
      assert Extended(line, columns, last) == line + more;
      CutNeverShrinks(line, more, columns);
      TypedShows(init, columns, rows);
      TypingExtends(PrintAll(NewBuffer(columns, rows), columns, rows, init), line, columns, rows, last);
    }
  }

  // ---------------------------------------------------------------------------------------------
  // When a line reads back as it was typed
  // ---------------------------------------------------------------------------------------------

  /** Every wide character at the edge adds one blank cell, before the last cell that shows something. */
  lemma {:induction false} EdgesAddBlanks(glyphs: seq<Glyph>, columns: nat)
    requires columns > 0 && AllTypeable(glyphs)
    ensures |LineOf(glyphs, columns)| == |CellsOf(glyphs)| + EdgesMet(glyphs, columns)
    ensures Used(LineOf(glyphs, columns)) == Used(CellsOf(glyphs)) + EdgesMet(glyphs, columns)
  {
    if glyphs != [] {
      var init, last := glyphs[..|glyphs| - 1], glyphs[|glyphs| - 1];
      EdgesAddBlanks(init, columns);
      ExtendedUsed(LineOf(init, columns), columns, last);
      UsedGrows(CellsOf(init), last);
    } else {
      assert Used([]) == 0;
    }
  }

  lemma ExtendedUsed(line: Row, columns: nat, glyph: Glyph)
    requires columns > 0 && Typeable(glyph)
    ensures var edge, after := if MeetsEdge(line, columns, glyph) then 1 else 0, Extended(line, columns, glyph);
            && |after| == |line| + edge + |CellsOfOne(glyph)|
            && Used(after) == if glyph.code == ' ' then Used(line) else |line| + edge + 1
  {
    var padded := line + if MeetsEdge(line, columns, glyph) then [BLANK] else [];
    if !MeetsEdge(line, columns, glyph) {
      assert padded == line;
    }
    UsedGrows(padded, glyph);
  }

  lemma UsedGrows(line: Row, glyph: Glyph)
    requires Typeable(glyph)
    ensures Used(line + CellsOfOne(glyph)) == if glyph.code == ' ' then Used(line) else |line| + 1
  {
    if glyph.code == ' ' {
      assert CellsOfOne(glyph) == [BLANK];
      UsedBehind(line, [BLANK]);
    } else {
      VisibleUsed(line, glyph);
    }
  }

  lemma VisibleUsed(line: Row, glyph: Glyph)
    requires glyph.code != ' '
    ensures Used(line + CellsOfOne(glyph)) == |line| + 1
  {
    CharacterShows(glyph.code);
    UsedOfCharacter(line, [glyph.code], CellsOfOne(glyph));
  }

  lemma UsedOfCharacter(line: Row, first: Cell, cells: Row)
    requires !IsBlank(first) && (cells == [first] || cells == [first, ""])
    ensures Used(line + cells) == |line| + 1
  {
    if |cells| == 1 {
      assert cells == [first] + [];
      UsedAtFirst(line, first, []);
    } else {
      assert cells == [first] + [""];
      UsedAtFirst(line, first, [""]);
    }
  }

  lemma CharacterShows(code: char)
    requires code != ' '
    ensures !IsBlank([code])
  {
    assert [code][0] != BLANK[0];
  }

  lemma UsedAtFirst(line: Row, first: Cell, behind: Row)
    requires !IsBlank(first) && AllBlank(behind)
    ensures Used(line + ([first] + behind)) == |line| + 1
  {
    var longer := line + ([first] + behind);
    assert longer[|line|] == first;
    forall i | |line| + 1 <= i < |longer| ensures IsBlank(longer[i]) {
      assert longer[i] == behind[i - |line| - 1];
    }
    UsedIs(longer, |line| + 1);
  }

  lemma UsedBehind(line: Row, blanks: Row)
    requires AllBlank(blanks)
    ensures Used(line + blanks) == Used(line)
  {
    var longer := line + blanks;
    forall i | Used(line) <= i < |longer| ensures IsBlank(longer[i]) {
      if i >= |line| {
        assert longer[i] == blanks[i - |line|];
      }
    }
    UsedIs(longer, Used(line));
  }

  lemma {:induction false} NoEdgeNoBlank(glyphs: seq<Glyph>, columns: nat)
    requires columns > 0 && EdgesMet(glyphs, columns) == 0
    ensures LineOf(glyphs, columns) == CellsOf(glyphs)
  {
    if glyphs != [] {
      NoEdgeNoBlank(glyphs[..|glyphs| - 1], columns);
      assert CellsOf(glyphs[..|glyphs| - 1]) + [] == CellsOf(glyphs[..|glyphs| - 1]);
    }
  }

  /** A screen that shows one line says that line, up to blanks at its end. */
  lemma ShownIsText(b: Buffer, line: Row, columns: nat, rows: nat)
    requires columns > 0 && Shows(b, line, columns, rows)
    ensures Text(b.grid, b.softWrapped) == DropEmptyTail([Trim(line)])
  {
    ShownPrefix(b, line, columns, rows);
    BlankTailSaysNothing(Lines([], []), b.grid, b.softWrapped, |Cut(line, columns)|);
    CutSays(line, columns);
  }

  lemma ShownPrefix(b: Buffer, line: Row, columns: nat, rows: nat)
    requires columns > 0 && Shows(b, line, columns, rows)
    ensures var n := |Cut(line, columns)|;
            && n <= |b.grid| == |b.softWrapped|
            && b.grid[..n] == Cut(line, columns) && b.softWrapped[..n] == Marks(n) && BlankFrom(b.grid, n)
  {
  }

  /** The rows of one line say that line. */
  lemma CutSays(line: Row, columns: nat)
    requires columns > 0
    ensures Said(Join(Lines([], []), Cut(line, columns), Marks(|Cut(line, columns)|))) == DropEmptyTail([Trim(line)])
  {
    var padding := CutJoins(Lines([], []), line, columns);
    assert [] + line + padding == line + padding;
    assert Lines([], []).finished + [line + padding] == [line + padding];
    PaddedSays(line, padding);
  }

  lemma PaddedSays(line: Row, padding: Row)
    requires AllBlank(padding)
    ensures Said(Lines([line + padding], [])) == DropEmptyTail([Trim(line)])
  {
    var joined := Lines([line + padding], []);
    SaidIs(joined);
    TrimBlankTail(line, padding);
    assert TrimAll(joined.finished) == [Trim(line)];
    assert Trim([]) == [];
    DropOneEmpty([Trim(line)]);
  }

  /** No resize of the list drops a row of the buffer. */
  ghost predicate NothingDropped(b: Buffer, sizes: seq<(nat, nat)>)
    requires 0 <= b.y < |b.grid| == |b.softWrapped| && 0 <= b.x && 0 <= b.saved.y < |b.grid| && 0 <= b.saved.x
    decreases |sizes|
  {
    sizes != [] ==>
      && sizes[0].0 > 0 && sizes[0].1 > 0
      && |CutAll(LogicalLines(b), sizes[0].0)| <= sizes[0].1
      && var after := ResizeBuffer(b, sizes[0].0, sizes[0].1);
      && 0 <= after.y < |after.grid| == |after.softWrapped| && 0 <= after.saved.y < |after.grid|
      && NothingDropped(after, sizes[1..])
  }

  function ResizeAll(b: Buffer, sizes: seq<(nat, nat)>): Buffer
    requires 0 <= b.y < |b.grid| == |b.softWrapped| && 0 <= b.x && 0 <= b.saved.y < |b.grid| && 0 <= b.saved.x
    requires NothingDropped(b, sizes)
    decreases |sizes|
  {
    if sizes == [] then b else ResizeAll(ResizeBuffer(b, sizes[0].0, sizes[0].1), sizes[1..])
  }

  lemma {:induction false} ResizesKeepText(b: Buffer, sizes: seq<(nat, nat)>)
    requires 0 <= b.y < |b.grid| == |b.softWrapped| && 0 <= b.x && 0 <= b.saved.y < |b.grid| && 0 <= b.saved.x
    requires NothingDropped(b, sizes)
    ensures var after := ResizeAll(b, sizes);
            && |after.grid| == |after.softWrapped|
            && Text(after.grid, after.softWrapped) == Text(b.grid, b.softWrapped)
    decreases |sizes|
  {
    if sizes != [] {
      ResizeKeepsText(b, sizes[0].0, sizes[0].1);
      ResizesKeepText(ResizeBuffer(b, sizes[0].0, sizes[0].1), sizes[1..]);
    }
  }

  /**
   Text typed on an empty screen that it does not overflow is one logical line, wrapped or not, and
   it stays that line through every series of resizes that drops no row.
   */
  lemma TypedTextSurvivesResizes(glyphs: seq<Glyph>, columns: nat, rows: nat, sizes: seq<(nat, nat)>)
    requires columns >= 2 && rows > 0 && AllTypeable(glyphs)
    requires |Cut(LineOf(glyphs, columns), columns)| <= rows
    requires NothingDropped(PrintAll(NewBuffer(columns, rows), columns, rows, glyphs), sizes)
    ensures var after := ResizeAll(PrintAll(NewBuffer(columns, rows), columns, rows, glyphs), sizes);
            && |after.grid| == |after.softWrapped|
            && Text(after.grid, after.softWrapped) == DropEmptyTail([Trim(LineOf(glyphs, columns))])
  {
    var typed := PrintAll(NewBuffer(columns, rows), columns, rows, glyphs);
    TypedShows(glyphs, columns, rows);
    ShownIsText(typed, LineOf(glyphs, columns), columns, rows);
    ResizesKeepText(typed, sizes);
  }

  /**
   It reads back as the cells of what was typed exactly if no wide character met the last column:
   there typing leaves a blank cell behind that a resize takes for text.
   */
  lemma ReadsBackIff(glyphs: seq<Glyph>, columns: nat, rows: nat, sizes: seq<(nat, nat)>)
    requires columns >= 2 && rows > 0 && AllTypeable(glyphs)
    requires |Cut(LineOf(glyphs, columns), columns)| <= rows
    requires NothingDropped(PrintAll(NewBuffer(columns, rows), columns, rows, glyphs), sizes)
    ensures var after := ResizeAll(PrintAll(NewBuffer(columns, rows), columns, rows, glyphs), sizes);
            && |after.grid| == |after.softWrapped|
            && (Text(after.grid, after.softWrapped) == DropEmptyTail([Trim(CellsOf(glyphs))]) <==> EdgesMet(glyphs, columns) == 0)
  {
    TypedTextSurvivesResizes(glyphs, columns, rows, sizes);
    EdgesAddBlanks(glyphs, columns);
    if EdgesMet(glyphs, columns) == 0 {
      NoEdgeNoBlank(glyphs, columns);
    } else {
      var line := Trim(LineOf(glyphs, columns));
      assert line != [] && DropEmptyTail([line]) == [line];
      assert |line| > |Trim(CellsOf(glyphs))|;
    }
  }
}
