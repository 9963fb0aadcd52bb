/**
 * Column sizing in the load step: each grid column's minimum size is the
 * length of its longest cell text plus a fixed padding. All table rows are
 * measured, whatever the masks show, and the header text is not measured.
 */
module Sizing {
  import opened Frame

  /** The padding added to the longest cell text of a column. */
  const Padding: nat := 10

  /** The longest cell text of column `c` among the first `m` rows (0 when m is 0). */
  function ColumnMax(t: Table, c: nat, m: nat): (w: nat)
    requires t.WellFormed() && c < |t.columns| && m <= |t.rows|
    ensures forall i | 0 <= i < m :: |t.rows[i][c]| <= w
    ensures m == 0 ==> w == 0
    ensures m > 0 ==> exists i | 0 <= i < m :: w == |t.rows[i][c]|
  {
    if m == 0 then 0
    else
      var prev := ColumnMax(t, c, m - 1);
      if |t.rows[m - 1][c]| > prev then |t.rows[m - 1][c]| else prev
  }

  /** The width of every column, in column order. */
  function Widths(t: Table): seq<nat>
    requires t.WellFormed()
  {
    seq(|t.columns|, c requires 0 <= c < |t.columns| => ColumnMax(t, c, |t.rows|) + Padding)
  }

  /**
   * The width loop of the load step. One width per column; each is the
   * longest cell text of the column plus the padding, so at least the
   * padding, and exactly the padding for a table without rows.
   */
  method ColumnWidths(t: Table) returns (widths: seq<nat>)
    requires t.WellFormed()
    ensures widths == Widths(t)
    ensures |widths| == |t.columns|
    ensures forall c, j | 0 <= c < |t.columns| && 0 <= j < |t.rows| ::
      |t.rows[j][c]| + Padding <= widths[c]
    ensures |t.rows| == 0 ==> forall c | 0 <= c < |t.columns| :: widths[c] == Padding
    ensures forall c | 0 <= c < |t.columns| && |t.rows| > 0 ::
      exists j | 0 <= j < |t.rows| :: widths[c] == |t.rows[j][c]| + Padding
  {
    widths := [];
    var c := 0;
    while c < |t.columns|
      invariant c <= |t.columns| && |widths| == c
      invariant forall k | 0 <= k < c :: widths[k] == ColumnMax(t, k, |t.rows|) + Padding
    {
      var maxWidth := 0;
      var j := 0;
      while j < |t.rows|
        invariant j <= |t.rows|
        invariant maxWidth == ColumnMax(t, c, j)
      {
        var cellWidth := |t.rows[j][c]|;
        if cellWidth > maxWidth {
          maxWidth := cellWidth;
        }
        j := j + 1;
      }
      widths := widths + [maxWidth + Padding];
      c := c + 1;
    }
    assert widths == Widths(t);
  }

  /** Renaming the columns changes no width: header text is not measured. */
  lemma WidthsIgnoreHeader(t: Table, names: seq<string>)
    requires t.WellFormed() && |names| == |t.columns|
    ensures Table(names, t.rows).WellFormed()
    ensures Widths(Table(names, t.rows)) == Widths(t)
  {
  }
}
