/** Streaming a worksheet into the smallest rectangle that holds it.
    (django_connectors/providers/microsoft/excel.py sheet_grid) */
module Excel {
  import opened Values

  type Grid = seq<seq<Value>>

  /** A row without its trailing blank cells. */
  function Trimmed(row: seq<Value>): (kept: seq<Value>)
    ensures kept <= row
    ensures kept != [] ==> !IsBlank(kept[|kept| - 1])
    ensures forall j :: |kept| <= j < |row| ==> IsBlank(row[j])
  {
    if row == [] || !IsBlank(row[|row| - 1]) then row else Trimmed(row[..|row| - 1])
  }

  method WithoutTrailingBlanks(row: seq<Value>) returns (kept: seq<Value>)
    ensures kept == Trimmed(row)
  {
    var n := |row|;
    assert row[..n] == row;
    while n > 0
      invariant 0 <= n <= |row| && Trimmed(row[..n]) == Trimmed(row)
    {
      if !IsBlank(row[n - 1]) {
        return row[..n];
      }
      assert row[..n][..n - 1] == row[..n - 1];
      n := n - 1;
    }
    kept := [];
  }

  predicate BlankRow(row: seq<Value>) { forall j :: 0 <= j < |row| ==> IsBlank(row[j]) }

  /** The cells a row counts for: an unmerging parse cannot trim. */
  function Streamed(row: seq<Value>, unmerge: bool): seq<Value> { if unmerge then row else Trimmed(row) }

  function CellCount(rows: Grid, unmerge: bool): nat {
    if rows == [] then 0 else CellCount(rows[..|rows| - 1], unmerge) + |Streamed(rows[|rows| - 1], unmerge)|
  }

  lemma {:induction false} CountGrows(rows: Grid, n: nat, unmerge: bool)
    requires n <= |rows|
    ensures CellCount(rows[..n], unmerge) <= CellCount(rows, unmerge)
    decreases |rows|
  {
    if n < |rows| {
      var init := rows[..|rows| - 1];
      assert init[..n] == rows[..n];
      CountGrows(init, n, unmerge);
    } else {
      assert rows[..n] == rows;
    }
  }

  predicate HasValue(rows: Grid, i: int, j: int) {
    0 <= i < |rows| && 0 <= j < |rows[i]| && !IsBlank(rows[i][j])
  }

  ghost predicate RowUsed(rows: Grid, i: int) { exists j :: HasValue(rows, i, j) }

  ghost predicate ColumnUsed(rows: Grid, j: int) { exists i :: HasValue(rows, i, j) }

  /** `grid` is `width` columns wide throughout, anchored where the sheet starts; it holds every value of the sheet at
      its own position and is blank elsewhere; and its last row and last column each hold a value. */
  ghost predicate SmallestRectangle(rows: Grid, grid: Grid, width: nat) {
    && (forall i :: 0 <= i < |grid| ==> |grid[i]| == width)
    && (forall i, j :: HasValue(rows, i, j) ==> i < |grid| && j < width && grid[i][j] == rows[i][j])
    && (forall i, j :: HasValue(grid, i, j) ==> HasValue(rows, i, j))
    && (grid != [] ==> RowUsed(rows, |grid| - 1))
    && (width > 0 ==> ColumnUsed(rows, width - 1))
  }

  /** Any rectangle that holds every value is at least as large. */
  lemma NoneIsSmaller(rows: Grid, grid: Grid, width: nat, otherHeight: nat, otherWidth: nat)
    requires SmallestRectangle(rows, grid, width)
    requires forall i, j :: HasValue(rows, i, j) ==> i < otherHeight && j < otherWidth
    ensures |grid| <= otherHeight && width <= otherWidth
  {
    if grid != [] {
      var j :| HasValue(rows, |grid| - 1, j);
    }
    if width > 0 {
      var i :| HasValue(rows, i, width - 1);
    }
  }

  predicate SameCell(a: Value, b: Value) { a == b || (IsBlank(a) && IsBlank(b)) }

  /** Trimming while streaming and trimming the whole sheet agree on the extents, and on every cell up to which blank
      a blank is. */
  lemma SameUpToBlanks(rows: Grid, a: Grid, aWidth: nat, b: Grid, bWidth: nat)
    requires SmallestRectangle(rows, a, aWidth) && SmallestRectangle(rows, b, bWidth)
    ensures |a| == |b| && aWidth == bWidth
    ensures forall i, j :: 0 <= i < |a| && 0 <= j < aWidth ==> SameCell(a[i][j], b[i][j])
  {
    NoneIsSmaller(rows, a, aWidth, |b|, bWidth);
    NoneIsSmaller(rows, b, bWidth, |a|, aWidth);
    forall i, j | 0 <= i < |a| && 0 <= j < aWidth ensures SameCell(a[i][j], b[i][j]) {
      assert HasValue(a, i, j) ==> HasValue(rows, i, j);
      assert HasValue(b, i, j) ==> HasValue(rows, i, j);
    }
  }

  datatype SheetError = TooManyCells

  /** The trimmed grid, or a refusal exactly when the cells it would keep number more than `maxCells`. The sheet has no
      merged regions. */
  method SheetGrid(rows: Grid, unmerge: bool, maxCells: nat) returns (grid: Result<Grid, SheetError>, ghost width: nat)
    ensures grid.Err? <==> CellCount(rows, unmerge) > maxCells
    ensures grid.Ok? ==> SmallestRectangle(rows, grid.value, width)
  {
    hide SmallestRectangle, SameValues, CellCount;
    width := 0;
    var kept: Grid := [];
    var cells: nat := 0;
    NoCells(rows, unmerge);
    for i := 0 to |rows|
      invariant |kept| == i && cells == CellCount(rows[..i], unmerge) <= maxCells
      invariant forall k :: 0 <= k < i ==> kept[k] == Streamed(rows[k], unmerge)
    {
      var values := rows[i];
      if !unmerge {
        values := WithoutTrailingBlanks(rows[i]);
      }
      CountOne(rows, i, unmerge);
      cells := cells + |values|;
      if cells > maxCells {
        CountGrows(rows, i + 1, unmerge);
        return Err(TooManyCells), 0;
      }
      kept := kept + [values];
    }
    assert rows[..|rows|] == rows;
    StreamedKeepsValues(rows, kept, unmerge);
    var rectangle;
    rectangle, width := Cut(kept);
    SameValuesSameRectangle(rows, kept, rectangle, width);
    grid := Ok(rectangle);
  }

  lemma NoCells(rows: Grid, unmerge: bool)
    ensures CellCount(rows[..0], unmerge) == 0
  {
  }

  lemma CountOne(rows: Grid, i: nat, unmerge: bool)
    requires i < |rows|
    ensures CellCount(rows[..i + 1], unmerge) == CellCount(rows[..i], unmerge) + |Streamed(rows[i], unmerge)|
  {
    assert rows[..i + 1][..i] == rows[..i];
  }

  /** Drops the trailing blank rows and fits the rest to the last used column. */
  method Cut(kept: Grid) returns (fitted: Grid, columns: nat)
    ensures SmallestRectangle(kept, fitted, columns)
  {
    var height := |kept|;
    while height > 0 && BlankRow(kept[height - 1])
      invariant 0 <= height <= |kept|
      invariant forall k :: height <= k < |kept| ==> BlankRow(kept[k])
    {
      height := height - 1;
    }
    hide BlankRow, SmallestRectangle;
    columns := UsedWidth(kept[..height]);
    fitted := [];
    for i := 0 to height
      invariant |fitted| == i && forall k :: 0 <= k < i ==> fitted[k] == Fit(kept[k], columns)
    {
      fitted := fitted + [Fit(kept[i], columns)];
    }
    FittedIsSmallest(kept, height, columns, fitted);
  }

  ghost predicate SameValues(rows: Grid, kept: Grid) {
    && (forall i, j :: HasValue(rows, i, j) ==> HasValue(kept, i, j) && kept[i][j] == rows[i][j])
    && (forall i, j :: HasValue(kept, i, j) ==> HasValue(rows, i, j))
  }

  lemma StreamedKeepsValues(rows: Grid, kept: Grid, unmerge: bool)
    requires |kept| == |rows| && forall k :: 0 <= k < |rows| ==> kept[k] == Streamed(rows[k], unmerge)
    ensures SameValues(rows, kept)
  {
  }

  lemma SameValuesSameRectangle(rows: Grid, kept: Grid, grid: Grid, width: nat)
    requires SameValues(rows, kept) && SmallestRectangle(kept, grid, width)
    ensures SmallestRectangle(rows, grid, width)
  {
    if grid != [] {
      var j :| HasValue(kept, |grid| - 1, j);
      assert HasValue(rows, |grid| - 1, j);
    }
    if width > 0 {
      var i :| HasValue(kept, i, width - 1);
      assert HasValue(rows, i, width - 1);
    }
  }

  /** One past the last column any row uses. */
  method UsedWidth(used: Grid) returns (width: nat)
    ensures forall i, j :: HasValue(used, i, j) ==> j < width
    ensures width > 0 ==> ColumnUsed(used, width - 1)
  {
    width := 0;
    for i := 0 to |used|
      invariant forall k, j :: 0 <= k < i && HasValue(used, k, j) ==> j < width
      invariant width > 0 ==> ColumnUsed(used, width - 1)
    {
      var n := |used[i]|;
      while n > 0
        invariant 0 <= n <= |used[i]|
        invariant forall j :: n <= j < |used[i]| ==> IsBlank(used[i][j])
      {
        if !IsBlank(used[i][n - 1]) {
          if n > width {
            assert HasValue(used, i, n - 1);
            width := n;
          }
          break;
        }
        n := n - 1;
      }
    }
  }

  function Fit(row: seq<Value>, width: nat): (fitted: seq<Value>)
    ensures |fitted| == width
    ensures forall j :: 0 <= j < width ==> fitted[j] == if j < |row| then row[j] else Null
  {
    if |row| >= width then row[..width] else row + seq(width - |row|, _ => Null)
  }

  lemma FittedIsSmallest(kept: Grid, height: nat, width: nat, fitted: Grid)
    requires height <= |kept| && (forall k :: height <= k < |kept| ==> BlankRow(kept[k]))
    requires height > 0 ==> !BlankRow(kept[height - 1])
    requires forall i, j :: HasValue(kept[..height], i, j) ==> j < width
    requires width > 0 ==> ColumnUsed(kept[..height], width - 1)
    requires |fitted| == height && forall k :: 0 <= k < height ==> fitted[k] == Fit(kept[k], width)
    ensures SmallestRectangle(kept, fitted, width)
  {
    forall i, j | HasValue(kept, i, j) ensures i < |fitted| && j < width && fitted[i][j] == kept[i][j] {
      assert i < height ==> HasValue(kept[..height], i, j);
    }
    if height > 0 {
      var j :| 0 <= j < |kept[height - 1]| && !IsBlank(kept[height - 1][j]);
      assert HasValue(kept, |fitted| - 1, j);
    }
    forall i, j | HasValue(fitted, i, j) ensures HasValue(kept, i, j) {
      assert fitted[i] == Fit(kept[i], width);
    }
    if width > 0 {
      var i :| HasValue(kept[..height], i, width - 1);
      assert HasValue(kept, i, width - 1);
    }
  }
}
