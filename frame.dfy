/**
 * The table the viewer displays: what the CSV parser hands back, reduced to
 * what the display and chart code read from it.
 */
module Frame {

  /**
   * A parsed CSV file: the header names and the data rows. Each cell is held
   * as one text, the `str(value)` of the cell as the width loop reads it.
   * The grid labels show the same text; where a row read upcasts a mixed-type
   * row (an integer shown as a float) the two can differ, which this table
   * does not represent.
   */
  datatype Table = Table(columns: seq<string>, rows: seq<seq<string>>) {

    /** Every row has one cell per column, as the parser guarantees. */
    predicate WellFormed()
    {
      forall i | 0 <= i < |rows| :: |rows[i]| == |columns|
    }

    /** The data frame's `empty` test: no rows, or no columns. */
    predicate IsEmpty()
    {
      |rows| == 0 || |columns| == 0
    }
  }
}
