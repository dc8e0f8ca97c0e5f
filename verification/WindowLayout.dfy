/**
 Arranging browser windows in rows: every window has one cell, and the cells tile the work area
 (`agents/browser-use/src/auto-window-layout.ts`, lines 48-108).
 */
module WindowLayout {
  import opened Wrappers

  const MAX_AUTO_LAYOUT_COLUMNS: nat := 4

  datatype WorkArea = WorkArea(x: int, y: int, width: nat, height: nat)

  datatype Bounds = Bounds(x: int, y: int, width: int, height: int)

  datatype RangeError = RangeError

  /** `computeAutoLayoutRows`: how many windows each row holds. */
  function RowCounts(total: int): seq<nat> {
    if total <= 1 then [1]
    else if total == 2 then [2]
    else if total == 3 then [3]
    else if total == 4 then [2, 2]
    else
      var rows := (total + MAX_AUTO_LAYOUT_COLUMNS - 1) / MAX_AUTO_LAYOUT_COLUMNS;
      Spread(total / rows, total % rows, rows)
  }

  /** `rows` counts of `base`, the first `extra` of them one larger. */
  function Spread(base: nat, extra: nat, rows: nat): (counts: seq<nat>)
    ensures |counts| == rows
  {
    seq(rows, row => base + if row < extra then 1 else 0)
  }

  function Sum(counts: seq<nat>): nat {
    if counts == [] then 0 else Sum(counts[..|counts| - 1]) + counts[|counts| - 1]
  }

  lemma {:induction false} SpreadSum(base: nat, extra: nat, rows: nat)
    ensures Sum(Spread(base, extra, rows)) == base * rows + if rows < extra then rows else extra
  {
    if rows > 0 {
      assert Spread(base, extra, rows)[..rows - 1] == Spread(base, extra, rows - 1);
      SpreadSum(base, extra, rows - 1);
    }
  }

  /** The counts add up to the total, are between one and four, and differ by one at most. */
  lemma RowCountsSpec(total: nat)
    requires total >= 1
    ensures var counts := RowCounts(total);
            && counts != [] && Sum(counts) == total
            && (forall i :: 0 <= i < |counts| ==> 1 <= counts[i] <= MAX_AUTO_LAYOUT_COLUMNS)
            && (forall i, j :: 0 <= i < |counts| && 0 <= j < |counts| ==> counts[i] <= counts[j] + 1)
  {
    if total == 4 {
      assert [2, 2][..1] == [2] && [2][..0] == [];
      assert Sum([2, 2]) == 4;
    } else if total < 4 {
      assert RowCounts(total)[..0] == [];
    } else {
      SpreadSpec(total, (total + 3) / 4);
    }
  }

  lemma SpreadSpec(total: nat, rows: nat)
    requires 0 < rows <= total <= 4 * rows
    ensures var counts := Spread(total / rows, total % rows, rows);
            && Sum(counts) == total
            && (forall i :: 0 <= i < |counts| ==> 1 <= counts[i] <= MAX_AUTO_LAYOUT_COLUMNS)
            && (forall i, j :: 0 <= i < |counts| && 0 <= j < |counts| ==> counts[i] <= counts[j] + 1)
  {
    var base, extra := total / rows, total % rows;
    assert total == rows * base + extra;
    assert base * rows == rows * base;
    SpreadSum(base, extra, rows);
    AtMostFour(total, rows, base, extra);
  }

  lemma AtMostFour(total: nat, rows: nat, base: nat, extra: nat)
    requires 0 < rows <= total <= 4 * rows && total == rows * base + extra && extra < rows
    ensures 1 <= base <= 4 && (base == 4 ==> extra == 0)
  {
    assert base == 0 ==> rows * base == 0;
    assert rows * base == rows * 4 + rows * (base - 4);
    assert base > 4 ==> rows * (base - 4) >= rows;
  }

  // ---------------------------------------------------------------------------------------------
  // The cell of a window
  // ---------------------------------------------------------------------------------------------

  /** Window `index` stands in row `row`, column `col`. */
  ghost predicate CellOf(counts: seq<nat>, index: int, row: int, col: int) {
    0 <= row < |counts| && 0 <= col < counts[row] && index == Sum(counts[..row]) + col
  }

  lemma {:induction false} SumGrows(counts: seq<nat>, m: nat, n: nat)
    requires m <= n <= |counts|
    ensures Sum(counts[..m]) <= Sum(counts[..n])
    decreases n
  {
    if m < n {
      assert counts[..n][..n - 1] == counts[..n - 1];
      SumGrows(counts, m, n - 1);
    }
  }

  lemma SumNext(counts: seq<nat>, n: nat)
    requires n < |counts|
    ensures Sum(counts[..n + 1]) == Sum(counts[..n]) + counts[n]
  {
    assert counts[..n + 1][..n] == counts[..n];
  }

  /** No window has two cells and no cell two windows; every cell belongs to a window. */
  lemma CellsAreDistinct(counts: seq<nat>, i: int, j: int, rowI: int, colI: int, rowJ: int, colJ: int)
    requires CellOf(counts, i, rowI, colI) && CellOf(counts, j, rowJ, colJ)
    ensures i == j <==> rowI == rowJ && colI == colJ
    ensures 0 <= i < Sum(counts)
  {
    assert counts[..|counts|] == counts;
    SumNext(counts, rowI);
    SumNext(counts, rowJ);
    SumGrows(counts, rowI + 1, |counts|);
    if rowI < rowJ {
      SumGrows(counts, rowI + 1, rowJ);
    } else if rowJ < rowI {
      SumGrows(counts, rowJ + 1, rowI);
    }
  }

  // ---------------------------------------------------------------------------------------------
  // Bands
  // ---------------------------------------------------------------------------------------------

  /** Where band `k` of `n` begins within `size`. */
  function Edge(size: nat, k: nat, n: nat): nat
    requires n > 0
  {
    size * k / n
  }

  lemma QuotientsGrow(n: nat, p: int, q: int, r: int, s: int)
    requires 0 <= r < n && 0 <= s < n && n * p + r <= n * q + s
    ensures p <= q
  {
    var d := p - q;
    assert n * p == n * q + n * d;
    assert d >= 1 ==> n * d >= n;
  }

  lemma DivisionGrows(a: nat, b: nat, n: nat)
    requires n > 0 && a <= b
    ensures a / n <= b / n
  {
    QuotientsGrow(n, a / n, b / n, a % n, b % n);
  }

  lemma DivisionIs(a: nat, n: nat, q: nat)
    requires n > 0 && a == n * q
    ensures a / n == q
  {
    QuotientsGrow(n, a / n, q, a % n, 0);
    QuotientsGrow(n, q, a / n, 0, a % n);
  }

  lemma {:induction false} EdgesGrow(size: nat, j: nat, k: nat, n: nat)
    requires n > 0 && j <= k
    ensures Edge(size, j, n) <= Edge(size, k, n)
  {
    assert size * j <= size * k;
    DivisionGrows(size * j, size * k, n);
  }

  lemma OuterEdges(size: nat, n: nat)
    requires n > 0
    ensures Edge(size, 0, n) == 0 && Edge(size, n, n) == size
  {
    assert size * 0 == 0;
    DivisionIs(size * n, n, size);
    DivisionIs(0, n, 0);
  }

  /** Every place below an edge lies in some band before it. */
  lemma {:induction false} BandOf(size: nat, n: nat, p: nat, m: nat) returns (k: nat)
    requires 0 < n && p < Edge(size, m, n)
    ensures k < m && Edge(size, k, n) <= p < Edge(size, k + 1, n)
    decreases m
  {
    OuterEdges(size, n);
    if m > 0 && Edge(size, m - 1, n) <= p {
      k := m - 1;
    } else {
      k := BandOf(size, n, p, m - 1);
    }
  }

  lemma OneBand(size: nat, n: nat, p: nat, j: nat, k: nat)
    requires 0 < n
    requires Edge(size, j, n) <= p < Edge(size, j + 1, n) && Edge(size, k, n) <= p < Edge(size, k + 1, n)
    ensures j == k
  {
    if j < k {
      EdgesGrow(size, j + 1, k, n);
    } else if k < j {
      EdgesGrow(size, k + 1, j, n);
    }
  }

  // ---------------------------------------------------------------------------------------------
  // Tiles
  // ---------------------------------------------------------------------------------------------

  function Tile(area: WorkArea, counts: seq<nat>, row: nat, col: nat): Bounds
    requires row < |counts| && counts[row] > 0
  {
    var cols, rows := counts[row], |counts|;
    Bounds(
      area.x + Edge(area.width, col, cols),
      area.y + Edge(area.height, row, rows),
      Edge(area.width, col + 1, cols) - Edge(area.width, col, cols),
      Edge(area.height, row + 1, rows) - Edge(area.height, row, rows))
  }

  predicate Contains(b: Bounds, px: int, py: int) {
    b.x <= px < b.x + b.width && b.y <= py < b.y + b.height
  }

  /** `resolveAutoWindowBoundsForIndex`. */
  method ResolveBounds(index: int, total: int, area: WorkArea) returns (result: Result<Bounds, RangeError>, row: nat, col: nat)
    ensures result.Ok? <==> 0 <= index < total
    ensures result.Ok? ==>
              && CellOf(RowCounts(total), index, row, col)
              && result.value == Tile(area, RowCounts(total), row, col)
  {
    row, col := 0, 0;
    if index < 0 || total <= 0 || index >= total {
      return Err(RangeError), row, col;
    }
    var counts := RowCounts(total);
    RowCountsSpec(total);
    assert counts[..|counts|] == counts;
    col := index;
    while row < |counts| && col >= counts[row]
      invariant row <= |counts| && index == Sum(counts[..row]) + col
      decreases |counts| - row
    {
      SumNext(counts, row);
      col := col - counts[row];
      row := row + 1;
    }
    assert row < |counts|;
    return Ok(Tile(area, counts, row, col)), row, col;
  }

  /** Every pixel of the work area lies in the tile of some window. */
  lemma EveryPixelIsCovered(total: nat, area: WorkArea, px: int, py: int) returns (index: nat, row: nat, col: nat)
    requires total >= 1 && Contains(Bounds(area.x, area.y, area.width, area.height), px, py)
    ensures index < total && CellOf(RowCounts(total), index, row, col)
    ensures RowCounts(total)[row] > 0 && Contains(Tile(area, RowCounts(total), row, col), px, py)
  {
    var counts := RowCounts(total);
    RowCountsSpec(total);
    OuterEdges(area.height, |counts|);
    row := BandOf(area.height, |counts|, py - area.y, |counts|);
    OuterEdges(area.width, counts[row]);
    col := BandOf(area.width, counts[row], px - area.x, counts[row]);
    index := Sum(counts[..row]) + col;
    CellsAreDistinct(counts, index, index, row, col, row, col);
  }

  /** No pixel lies in the tiles of two windows. */
  lemma TilesAreDisjoint(total: nat, area: WorkArea, i: int, j: int, rowI: nat, colI: nat, rowJ: nat, colJ: nat, px: int, py: int)
    requires total >= 1 && CellOf(RowCounts(total), i, rowI, colI) && CellOf(RowCounts(total), j, rowJ, colJ)
    requires Contains(Tile(area, RowCounts(total), rowI, colI), px, py) && Contains(Tile(area, RowCounts(total), rowJ, colJ), px, py)
    ensures i == j
  {
    var counts := RowCounts(total);
    EdgesGrow(area.height, 0, rowI, |counts|);
    OneBand(area.height, |counts|, py - area.y, rowI, rowJ);
    EdgesGrow(area.width, 0, colI, counts[rowI]);
    OneBand(area.width, counts[rowI], px - area.x, colI, colJ);
  }

  /** No tile reaches beyond the work area. */
  lemma TilesStayInside(total: nat, area: WorkArea, index: int, row: nat, col: nat, px: int, py: int)
    requires total >= 1 && CellOf(RowCounts(total), index, row, col)
    requires Contains(Tile(area, RowCounts(total), row, col), px, py)
    ensures Contains(Bounds(area.x, area.y, area.width, area.height), px, py)
  {
    var counts := RowCounts(total);
    OuterEdges(area.height, |counts|);
    OuterEdges(area.width, counts[row]);
    EdgesGrow(area.height, row + 1, |counts|, |counts|);
    EdgesGrow(area.width, col + 1, counts[row], counts[row]);
    EdgesGrow(area.height, 0, row, |counts|);
    EdgesGrow(area.width, 0, col, counts[row]);
  }

  // ---------------------------------------------------------------------------------------------
  // Area
  // ---------------------------------------------------------------------------------------------

  /** The cell of a window, found from the last row. */
  function Cell(counts: seq<nat>, index: nat): (cell: (nat, nat))
    requires index < Sum(counts)
    ensures CellOf(counts, index, cell.0, cell.1)
  {
    var init := counts[..|counts| - 1];
    if index >= Sum(init) then (|init|, index - Sum(init))
    else
      var cell := Cell(init, index);
      assert counts[..cell.0] == init[..cell.0];
      cell
  }

  ghost predicate NoEmptyRow(counts: seq<nat>) {
    forall row :: 0 <= row < |counts| ==> counts[row] > 0
  }

  /** The sizes of the first `n` windows added up. */
  function SizeUpTo(counts: seq<nat>, n: nat, size: Sizes): int
    requires n <= Sum(counts)
  {
    if n == 0 then 0
    else SizeUpTo(counts, n - 1, size) + size(Cell(counts, n - 1).0, Cell(counts, n - 1).1)
  }

  lemma CellIs(counts: seq<nat>, index: nat, row: nat, col: nat)
    requires CellOf(counts, index, row, col) && index < Sum(counts)
    ensures Cell(counts, index) == (row, col)
  {
    var cell := Cell(counts, index);
    CellsAreDistinct(counts, index, index, row, col, cell.0, cell.1);
  }

  lemma BeforeWithin(counts: seq<nat>, row: nat, col: nat)
    requires row < |counts| && col <= counts[row]
    ensures Sum(counts[..row]) + col <= Sum(counts)
  {
    SumNext(counts, row);
    SumGrows(counts, row + 1, |counts|);
    assert counts[..|counts|] == counts;
  }

  type Sizes = (nat, nat) -> int

  ghost predicate RowGoesOn(counts: seq<nat>, filled: Sizes, row: nat) {
    row + 1 < |counts| ==> filled(row + 1, 0) == filled(row, counts[row])
  }

  ghost predicate CellAdds(counts: seq<nat>, size: Sizes, filled: Sizes, row: nat, col: nat) {
    row < |counts| && col < counts[row] ==> filled(row, col + 1) == filled(row, col) + size(row, col)
  }

  /** `filled` says how much lies before a cell, if each cell adds its own size. */
  ghost predicate FillsUp(counts: seq<nat>, size: Sizes, filled: Sizes) {
    && filled(0, 0) == 0
    && (forall row: nat :: RowGoesOn(counts, filled, row))
    && (forall row: nat, col: nat :: CellAdds(counts, size, filled, row, col))
  }

  /** The windows before a cell fill exactly what lies before it. */
  lemma {:induction false} SizeBefore(counts: seq<nat>, size: Sizes, filled: Sizes, row: nat, col: nat)
    requires FillsUp(counts, size, filled) && row < |counts| && col <= counts[row]
    ensures Sum(counts[..row]) + col <= Sum(counts)
    ensures SizeUpTo(counts, Sum(counts[..row]) + col, size) == filled(row, col)
    decreases row, col
  {
    BeforeWithin(counts, row, col);
    if col > 0 {
      SizeBefore(counts, size, filled, row, col - 1);
      CellIs(counts, Sum(counts[..row]) + col - 1, row, col - 1);
      assert CellAdds(counts, size, filled, row, col - 1);
    } else if row > 0 {
      SizeBefore(counts, size, filled, row - 1, counts[row - 1]);
      SumNext(counts, row - 1);
      assert RowGoesOn(counts, filled, row - 1);
    }
  }

  function AreaOf(b: Bounds): int {
    b.width * b.height
  }

  function AreaAt(area: WorkArea, counts: seq<nat>, row: nat, col: nat): int {
    if row < |counts| && counts[row] > 0 then AreaOf(Tile(area, counts, row, col)) else 0
  }

  /** The rows above a cell and the part of its row before it. */
  function Filled(area: WorkArea, counts: seq<nat>, row: nat, col: nat): int
    requires row < |counts| && counts[row] > 0
  {
    area.width * Edge(area.height, row, |counts|)
    + Edge(area.width, col, counts[row]) * (Edge(area.height, row + 1, |counts|) - Edge(area.height, row, |counts|))
  }

  lemma FilledStarts(area: WorkArea, counts: seq<nat>)
    requires counts != [] && counts[0] > 0
    ensures Filled(area, counts, 0, 0) == 0
  {
    OuterEdges(area.width, counts[0]);
    OuterEdges(area.height, |counts|);
  }

  lemma FilledNextRow(area: WorkArea, counts: seq<nat>, row: nat)
    requires row + 1 < |counts| && counts[row] > 0 && counts[row + 1] > 0
    ensures Filled(area, counts, row + 1, 0) == Filled(area, counts, row, counts[row])
  {
    OuterEdges(area.width, counts[row]);
    OuterEdges(area.width, counts[row + 1]);
    Distributes(Edge(area.height, row, |counts|), Edge(area.height, row + 1, |counts|), area.width);
  }

  lemma FilledNextColumn(area: WorkArea, counts: seq<nat>, row: nat, col: nat)
    requires row < |counts| && counts[row] > 0
    ensures Filled(area, counts, row, col + 1) == Filled(area, counts, row, col) + AreaOf(Tile(area, counts, row, col))
  {
    Distributes(Edge(area.width, col, counts[row]), Edge(area.width, col + 1, counts[row]),
                Edge(area.height, row + 1, |counts|) - Edge(area.height, row, |counts|));
  }

  function FilledAt(area: WorkArea, counts: seq<nat>, row: nat, col: nat): int {
    if row < |counts| && counts[row] > 0 then Filled(area, counts, row, col) else 0
  }

  function AreasIn(area: WorkArea, counts: seq<nat>): Sizes {
    (row: nat, col: nat) => AreaAt(area, counts, row, col)
  }

  function FilledIn(area: WorkArea, counts: seq<nat>): Sizes {
    (row: nat, col: nat) => FilledAt(area, counts, row, col)
  }

  lemma AreasFillUp(area: WorkArea, counts: seq<nat>)
    requires NoEmptyRow(counts) && counts != []
    ensures FillsUp(counts, AreasIn(area, counts), FilledIn(area, counts))
  {
    FilledStarts(area, counts);
    forall row: nat ensures RowGoesOn(counts, FilledIn(area, counts), row) {
      if row + 1 < |counts| {
        FilledNextRow(area, counts, row);
      }
    }
    forall row: nat, col: nat ensures CellAdds(counts, AreasIn(area, counts), FilledIn(area, counts), row, col) {
      if row < |counts| && col < counts[row] {
        FilledNextColumn(area, counts, row, col);
      }
    }
  }

  lemma Distributes(low: int, high: int, factor: int)
    ensures low * factor + (high - low) * factor == high * factor
    ensures factor * low + factor * (high - low) == factor * high
  {
  }

  /** The last row ends where the work area ends. */
  lemma AllFilled(area: WorkArea, counts: seq<nat>)
    requires counts != [] && NoEmptyRow(counts)
    ensures FilledAt(area, counts, |counts| - 1, counts[|counts| - 1]) == area.width * area.height
  {
    var row := |counts| - 1;
    OuterEdges(area.width, counts[row]);
    OuterEdges(area.height, |counts|);
    Distributes(Edge(area.height, row, |counts|), area.height, area.width);
  }

  /** The tiles of all windows together are as large as the work area. */
  lemma AreasAddUp(total: nat, area: WorkArea)
    requires total >= 1
    ensures var counts := RowCounts(total);
            && Sum(counts) == total
            && SizeUpTo(counts, total, AreasIn(area, counts)) == area.width * area.height
  {
    var counts := RowCounts(total);
    RowCountsSpec(total);
    var row := |counts| - 1;
    AreasFillUp(area, counts);
    SizeBefore(counts, AreasIn(area, counts), FilledIn(area, counts), row, counts[row]);
    SumNext(counts, row);
    assert counts[..|counts|] == counts;
    AllFilled(area, counts);
  }
}
