/**
 * The trend chart of past totals (`dice_photo`): the list of totals is laid out
 * column by column in a 6 x 14 grid, the filled cells are counted as big
 * (>= 10) or small (<= 9), and a full list is cleared for the next chart.
 * The drawing itself is not modelled; `None` stands for an empty (NaN) cell.
 */
module Trend {
  import opened Wrappers

  const Rows: nat := 6
  const Cols: nat := 14

  type Grid = seq<seq<Option<int>>>

  predicate IsGrid(g: Grid) {
    |g| == Rows && forall row :: 0 <= row < Rows ==> |g[row]| == Cols
  }

  /** Every cell holds entry `col * Rows + row` of `list` when `list` has it, and is empty otherwise. */
  ghost predicate Holds(g: Grid, list: seq<int>) {
    IsGrid(g) &&
    forall row, col :: 0 <= row < Rows && 0 <= col < Cols ==>
      g[row][col] == (if col * Rows + row < |list| then Some(list[col * Rows + row]) else None)
  }

  /** numpy raises `IndexError` when an entry's column is past the last one. */
  datatype TrendError = IndexOutOfRange(index: nat, column: nat)

  function EmptyGrid(): (g: Grid)
    ensures IsGrid(g)
    ensures forall row, col :: 0 <= row < Rows && 0 <= col < Cols ==> g[row][col].None?
  {
    seq(Rows, row => seq(Cols, col => None))
  }

  /** The filling loop: entry `i` goes to row `i % Rows`, column `i / Rows`. */
  method Fill(list: seq<int>) returns (r: Result<Grid, TrendError>)
    ensures r.Success? <==> |list| <= Rows * Cols
    ensures r.Failure? ==> r.error == IndexOutOfRange(Rows * Cols, Cols)
    ensures r.Success? ==> Holds(r.value, list)
  {
    var grid := EmptyGrid();
    var i := 0;
    while i < |list|
      invariant 0 <= i <= |list| && i <= Rows * Cols
      invariant IsGrid(grid)
      invariant forall row, col :: 0 <= row < Rows && 0 <= col < Cols ==>
        grid[row][col] == (if col * Rows + row < i then Some(list[col * Rows + row]) else None)
    {
      var col := i / Rows;
      var row := i % Rows;
      if col >= Cols {
        return Failure(IndexOutOfRange(i, col));
      }
      grid := grid[row := grid[row][col := Some(list[i])]];
      i := i + 1;
    }
    return Success(grid);
  }

  /** Cell `k` of the grid in column-major order: row `k % Rows`, column `k / Rows`. */
  function CellAt(g: Grid, k: nat): Option<int>
    requires IsGrid(g) && k < Rows * Cols
  {
    g[k % Rows][k / Rows]
  }

  /** Entry `k` of a filled grid's list is found at cell `k`; the cells past the list are empty. */
  lemma CellOfFilled(g: Grid, list: seq<int>, k: nat)
    requires Holds(g, list) && k < Rows * Cols
    ensures CellAt(g, k) == (if k < |list| then Some(list[k]) else None)
  {
    var row, col := k % Rows, k / Rows;
    assert col * Rows + row == k;
  }

  /** `grid >= 10` and `grid <= 9`: a NaN cell compares false both ways. */
  predicate Counts(c: Option<int>, big: bool) {
    c.Some? && (if big then c.value >= 10 else c.value <= 9)
  }

  /** How many of the first `n` cells count (`np.sum` over the comparison). */
  function Tally(g: Grid, n: nat, big: bool): (t: nat)
    requires IsGrid(g) && n <= Rows * Cols
    ensures t <= n
  {
    if n == 0 then 0 else Tally(g, n - 1, big) + (if Counts(CellAt(g, n - 1), big) then 1 else 0)
  }

  /** How many entries of a list count, read straight off the list. */
  function CountIn(list: seq<int>, big: bool): (t: nat)
    ensures t <= |list|
  {
    if list == [] then 0
    else CountIn(list[..|list| - 1], big) + (if Counts(Some(list[|list| - 1]), big) then 1 else 0)
  }

  /** Every total is big or small, never both. */
  lemma {:induction false} BigPlusSmall(list: seq<int>)
    ensures CountIn(list, true) + CountIn(list, false) == |list|
    decreases |list|
  {
    if list != [] {
      BigPlusSmall(list[..|list| - 1]);
    }
  }

  /** Counting the first `n` cells of a filled grid counts the first `n` entries of its list. */
  lemma {:induction false} TallyOfFilled(g: Grid, list: seq<int>, n: nat, big: bool)
    requires Holds(g, list) && n <= Rows * Cols
    ensures Tally(g, n, big) == CountIn(list[..if n < |list| then n else |list|], big)
    decreases n
  {
    if n > 0 {
      TallyOfFilled(g, list, n - 1, big);
      CellOfFilled(g, list, n - 1);
      if n - 1 < |list| {
        assert list[..n][..n - 1] == list[..n - 1];
      }
    }
  }

  /** The counts a chart reports, and the list of totals it leaves for the next one. */
  datatype Chart = Chart(grid: Grid, big: nat, small: nat, points: seq<int>)

  /**
   * `dice_photo` without the drawing: fill the grid, count big and small cells,
   * and clear the list once it has filled all 84 cells.
   */
  method DicePhoto(points: seq<int>) returns (r: Result<Chart, TrendError>)
    ensures r.Success? <==> |points| <= Rows * Cols
    ensures r.Failure? ==> r.error == IndexOutOfRange(Rows * Cols, Cols)
    ensures r.Success? ==> Holds(r.value.grid, points)
    ensures r.Success? ==> r.value.big == CountIn(points, true) && r.value.small == CountIn(points, false)
    ensures r.Success? ==> r.value.big + r.value.small == |points|
    ensures r.Success? ==> (r.value.points == [] <==> |points| == Rows * Cols || points == [])
    ensures r.Success? && r.value.points != [] ==> r.value.points == points
  {
    var filled := Fill(points);
    if filled.Failure? {
      return Failure(filled.error);
    }
    var grid := filled.value;
    var big := Tally(grid, Rows * Cols, true);
    var small := Tally(grid, Rows * Cols, false);
    TallyOfFilled(grid, points, Rows * Cols, true);
    TallyOfFilled(grid, points, Rows * Cols, false);
    assert points[..|points|] == points;
    BigPlusSmall(points);
    var next := if |points| == Rows * Cols then [] else points;
    return Success(Chart(grid, big, small, next));
  }
}
