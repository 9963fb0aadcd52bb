/**
 * The label grid that loading a CSV file builds: one header label per column
 * on grid row 0, then one label per shown cell, at grid row i + 1 for table
 * row i, skipping hidden rows and hidden columns.
 */
module Grid {
  import opened Frame

  /** A label placed on the grid: grid row, grid column and the label's text. */
  datatype Placement = Placement(row: nat, col: nat, text: string)

  /**
   * What the loops may index without failing: the row mask is read for every
   * table row, and the column mask for every column of each row it shows.
   */
  predicate MasksCover(t: Table, rowVis: seq<bool>, colVis: seq<bool>)
  {
    |rowVis| >= |t.rows| &&
    (|colVis| >= |t.columns| || forall i | 0 <= i < |t.rows| :: !rowVis[i])
  }

  /** The header labels for the first `n` columns, in column order. */
  function HeaderCells(columns: seq<string>, n: nat): seq<Placement>
    requires n <= |columns|
  {
    if n == 0 then []
    else HeaderCells(columns, n - 1) + [Placement(0, n - 1, columns[n - 1])]
  }

  /** The labels of the first `n` cells of one data row, shown at grid row `g`. */
  function RowCells(row: seq<string>, g: nat, colVis: seq<bool>, n: nat): seq<Placement>
    requires n <= |row| && n <= |colVis|
  {
    if n == 0 then []
    else
      RowCells(row, g, colVis, n - 1) +
      (if colVis[n - 1] then [Placement(g, n - 1, row[n - 1])] else [])
  }

  /** The data labels of the first `m` table rows, in the order they are placed. */
  function DataCells(t: Table, rowVis: seq<bool>, colVis: seq<bool>, m: nat): seq<Placement>
    requires t.WellFormed() && MasksCover(t, rowVis, colVis) && m <= |t.rows|
  {
    if m == 0 then []
    else
      DataCells(t, rowVis, colVis, m - 1) +
      (if rowVis[m - 1] then RowCells(t.rows[m - 1], m, colVis, |t.columns|) else [])
  }

  /** Every label the load step places, in placement order. */
  function Layout(t: Table, rowVis: seq<bool>, colVis: seq<bool>): seq<Placement>
    requires t.WellFormed() && MasksCover(t, rowVis, colVis)
  {
    HeaderCells(t.columns, |t.columns|) + DataCells(t, rowVis, colVis, |t.rows|)
  }

  /** `p` is placed before `q` in row-major order. */
  predicate Before(p: Placement, q: Placement)
  {
    p.row < q.row || (p.row == q.row && p.col < q.col)
  }

  /** Placements strictly ascending by grid row, then by grid column. */
  predicate RowMajor(s: seq<Placement>)
  {
    forall a, b | 0 <= a < b < |s| :: Before(s[a], s[b])
  }

  /** The number of entries of a mask that are set. */
  function CountTrue(s: seq<bool>): nat
  {
    if s == [] then 0 else CountTrue(s[..|s| - 1]) + (if s[|s| - 1] then 1 else 0)
  }

  /** `p` is the header label of its column. */
  predicate IsHeader(t: Table, p: Placement)
  {
    p.row == 0 && p.col < |t.columns| && p.text == t.columns[p.col]
  }

  /** `p` is the label of a table cell that both masks show, at its original row. */
  predicate IsShownCell(t: Table, rowVis: seq<bool>, colVis: seq<bool>, p: Placement)
    requires t.WellFormed() && MasksCover(t, rowVis, colVis)
  {
    1 <= p.row <= |t.rows| && p.col < |t.columns| &&
    rowVis[p.row - 1] && colVis[p.col] && p.text == t.rows[p.row - 1][p.col]
  }

  /**
   * The grid-building loops of the load step: a header label per column,
   * then the shown cells of every shown row.
   */
  method BuildGrid(t: Table, rowVis: seq<bool>, colVis: seq<bool>) returns (cells: seq<Placement>)
    requires t.WellFormed() && MasksCover(t, rowVis, colVis)
    ensures cells == Layout(t, rowVis, colVis)
  {
    cells := [];
    var i := 0;
    while i < |t.columns|
      invariant i <= |t.columns|
      invariant cells == HeaderCells(t.columns, i)
    {
      cells := cells + [Placement(0, i, t.columns[i])];
      i := i + 1;
    }
    ghost var headers := cells;
    i := 0;
    while i < |t.rows|
      invariant i <= |t.rows|
      invariant cells == headers + DataCells(t, rowVis, colVis, i)
    {
      if rowVis[i] {
        var row := t.rows[i];
        assert |colVis| >= |row|;
        ghost var before := cells;
        var j := 0;
        while j < |row|
          invariant j <= |row|
          invariant cells == before + RowCells(row, i + 1, colVis, j)
        {
          if colVis[j] {
            cells := cells + [Placement(i + 1, j, row[j])];
          }
          j := j + 1;
        }
      }
      i := i + 1;
    }
  }

  lemma {:induction false} HeaderCellsAt(columns: seq<string>, n: nat)
    requires n <= |columns|
    ensures |HeaderCells(columns, n)| == n
    ensures forall i | 0 <= i < n :: HeaderCells(columns, n)[i] == Placement(0, i, columns[i])
  {
    if n > 0 {
      HeaderCellsAt(columns, n - 1);
    }
  }

  lemma {:induction false} RowCellsFacts(row: seq<string>, g: nat, colVis: seq<bool>, n: nat)
    requires n <= |row| && n <= |colVis|
    ensures RowMajor(RowCells(row, g, colVis, n))
    ensures forall a | 0 <= a < |RowCells(row, g, colVis, n)| ::
      RowCells(row, g, colVis, n)[a].row == g && RowCells(row, g, colVis, n)[a].col < n
    ensures |RowCells(row, g, colVis, n)| == CountTrue(colVis[..n])
  {
    if n > 0 {
      RowCellsFacts(row, g, colVis, n - 1);
      assert colVis[..n][..n - 1] == colVis[..n - 1];
    }
  }

  lemma {:induction false} RowCellsIff(row: seq<string>, g: nat, colVis: seq<bool>, n: nat, p: Placement)
    requires n <= |row| && n <= |colVis|
    ensures p in RowCells(row, g, colVis, n) <==>
      p.row == g && p.col < n && colVis[p.col] && p.text == row[p.col]
  {
    if n > 0 {
      RowCellsIff(row, g, colVis, n - 1, p);
    }
  }

  /** Appending a row-major block whose labels all come after `x`'s keeps row-major order. */
  lemma AppendRowMajor(x: seq<Placement>, y: seq<Placement>)
    requires RowMajor(x) && RowMajor(y)
    requires forall a, b | 0 <= a < |x| && 0 <= b < |y| :: Before(x[a], y[b])
    ensures RowMajor(x + y)
  {
    forall a, b | 0 <= a < b < |x + y|
      ensures Before((x + y)[a], (x + y)[b])
    {
      if b < |x| {
      } else if a < |x| {
        assert Before(x[a], y[b - |x|]);
      } else {
        assert Before(y[a - |x|], y[b - |x|]);
      }
    }
  }

  lemma {:induction false} DataCellsFacts(t: Table, rowVis: seq<bool>, colVis: seq<bool>, m: nat)
    requires t.WellFormed() && MasksCover(t, rowVis, colVis) && m <= |t.rows|
    ensures RowMajor(DataCells(t, rowVis, colVis, m))
    ensures forall a | 0 <= a < |DataCells(t, rowVis, colVis, m)| ::
      1 <= DataCells(t, rowVis, colVis, m)[a].row <= m &&
      DataCells(t, rowVis, colVis, m)[a].col < |t.columns|
  {
    if m > 0 {
      DataCellsFacts(t, rowVis, colVis, m - 1);
      if rowVis[m - 1] {
        var prev := DataCells(t, rowVis, colVis, m - 1);
        var last := RowCells(t.rows[m - 1], m, colVis, |t.columns|);
        RowCellsFacts(t.rows[m - 1], m, colVis, |t.columns|);
        AppendRowMajor(prev, last);
      }
    }
  }

  lemma {:induction false} DataCellsIff(t: Table, rowVis: seq<bool>, colVis: seq<bool>, m: nat, p: Placement)
    requires t.WellFormed() && MasksCover(t, rowVis, colVis) && m <= |t.rows|
    ensures p in DataCells(t, rowVis, colVis, m) <==>
      1 <= p.row <= m && IsShownCell(t, rowVis, colVis, p)
  {
    if m > 0 {
      DataCellsIff(t, rowVis, colVis, m - 1, p);
      if rowVis[m - 1] {
        RowCellsIff(t.rows[m - 1], m, colVis, |t.columns|, p);
      }
    }
  }

  lemma {:induction false} DataCellsCount(t: Table, rowVis: seq<bool>, colVis: seq<bool>, m: nat)
    requires t.WellFormed() && MasksCover(t, rowVis, colVis) && m <= |t.rows|
    requires |colVis| >= |t.columns|
    ensures |DataCells(t, rowVis, colVis, m)| ==
      CountTrue(rowVis[..m]) * CountTrue(colVis[..|t.columns|])
  {
    if m > 0 {
      DataCellsCount(t, rowVis, colVis, m - 1);
      var shownBefore := CountTrue(rowVis[..m - 1]);
      var shownCols := CountTrue(colVis[..|t.columns|]);
      assert rowVis[..m][..m - 1] == rowVis[..m - 1];
      if rowVis[m - 1] {
        RowCellsFacts(t.rows[m - 1], m, colVis, |t.columns|);
        assert CountTrue(rowVis[..m]) == shownBefore + 1;
        MulSucc(shownBefore, shownCols);
      } else {
        assert CountTrue(rowVis[..m]) == shownBefore;
      }
    }
  }

  lemma MulSucc(a: nat, b: nat)
    ensures (a + 1) * b == a * b + b
  {
  }

  lemma {:induction false} CountTrueAll(s: seq<bool>)
    requires forall i | 0 <= i < |s| :: s[i]
    ensures CountTrue(s) == |s|
  {
    if s != [] {
      CountTrueAll(s[..|s| - 1]);
    }
  }

  /**
   * The header labels come first: label i is column i's name at grid row 0,
   * whatever the column mask says, and every later label is on a data row.
   */
  lemma LayoutHeadersFirst(t: Table, rowVis: seq<bool>, colVis: seq<bool>)
    requires t.WellFormed() && MasksCover(t, rowVis, colVis)
    ensures |Layout(t, rowVis, colVis)| >= |t.columns|
    ensures forall i | 0 <= i < |t.columns| ::
      Layout(t, rowVis, colVis)[i] == Placement(0, i, t.columns[i])
    ensures forall k | |t.columns| <= k < |Layout(t, rowVis, colVis)| ::
      Layout(t, rowVis, colVis)[k].row >= 1
  {
    HeaderCellsAt(t.columns, |t.columns|);
    DataCellsFacts(t, rowVis, colVis, |t.rows|);
  }

  /**
   * A label is placed exactly when it is a column's header, or the cell of a
   * shown row and a shown column, at grid row (table row + 1).
   */
  lemma LayoutIff(t: Table, rowVis: seq<bool>, colVis: seq<bool>, p: Placement)
    requires t.WellFormed() && MasksCover(t, rowVis, colVis)
    ensures p in Layout(t, rowVis, colVis) <==>
      IsHeader(t, p) || IsShownCell(t, rowVis, colVis, p)
  {
    HeaderCellsAt(t.columns, |t.columns|);
    DataCellsIff(t, rowVis, colVis, |t.rows|, p);
    if IsHeader(t, p) {
      assert HeaderCells(t.columns, |t.columns|)[p.col] == p;
    }
  }

  /** Labels come out headers first, then data, ascending by row and then column. */
  lemma LayoutRowMajor(t: Table, rowVis: seq<bool>, colVis: seq<bool>)
    requires t.WellFormed() && MasksCover(t, rowVis, colVis)
    ensures RowMajor(Layout(t, rowVis, colVis))
  {
    var headers := HeaderCells(t.columns, |t.columns|);
    HeaderCellsAt(t.columns, |t.columns|);
    DataCellsFacts(t, rowVis, colVis, |t.rows|);
    AppendRowMajor(headers, DataCells(t, rowVis, colVis, |t.rows|));
  }

  /** No two labels share a grid position. */
  lemma LayoutPositionsDistinct(t: Table, rowVis: seq<bool>, colVis: seq<bool>, a: nat, b: nat)
    requires t.WellFormed() && MasksCover(t, rowVis, colVis)
    requires a < b < |Layout(t, rowVis, colVis)|
    ensures Layout(t, rowVis, colVis)[a].row != Layout(t, rowVis, colVis)[b].row ||
            Layout(t, rowVis, colVis)[a].col != Layout(t, rowVis, colVis)[b].col
  {
    LayoutRowMajor(t, rowVis, colVis);
  }

  /**
   * A hidden column keeps its header but gets no data label; a hidden row
   * gets no label, and the rows after it keep their original grid row numbers.
   */
  lemma HiddenKeepsHeaderAndRowNumbers(t: Table, rowVis: seq<bool>, colVis: seq<bool>, p: Placement)
    requires t.WellFormed() && MasksCover(t, rowVis, colVis)
    requires p in Layout(t, rowVis, colVis) && p.row >= 1
    ensures p.row <= |t.rows| && rowVis[p.row - 1]
    ensures p.col < |t.columns| && colVis[p.col]
    ensures p.text == t.rows[p.row - 1][p.col]
  {
    LayoutIff(t, rowVis, colVis, p);
  }

  /**
   * The number of labels: one header per column plus one label per
   * (shown row, shown column) pair.
   */
  lemma LayoutCount(t: Table, rowVis: seq<bool>, colVis: seq<bool>)
    requires t.WellFormed() && MasksCover(t, rowVis, colVis)
    requires |colVis| >= |t.columns|
    ensures |Layout(t, rowVis, colVis)| ==
      |t.columns| + CountTrue(rowVis[..|t.rows|]) * CountTrue(colVis[..|t.columns|])
  {
    HeaderCellsAt(t.columns, |t.columns|);
    DataCellsCount(t, rowVis, colVis, |t.rows|);
  }

  /** With every row and column shown, there are rows x columns data labels. */
  lemma FullMasksCount(t: Table, rowVis: seq<bool>, colVis: seq<bool>)
    requires t.WellFormed()
    requires |rowVis| == |t.rows| && |colVis| == |t.columns|
    requires forall i | 0 <= i < |rowVis| :: rowVis[i]
    requires forall j | 0 <= j < |colVis| :: colVis[j]
    ensures MasksCover(t, rowVis, colVis)
    ensures |Layout(t, rowVis, colVis)| == |t.columns| + |t.rows| * |t.columns|
  {
    LayoutCount(t, rowVis, colVis);
    CountTrueAll(rowVis[..|t.rows|]);
    CountTrueAll(colVis[..|t.columns|]);
  }
}
