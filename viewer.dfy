/**
 * The viewer window's state and its two actions. The loaded table, the
 * chart-kind selection, the separator switch and what the canvas shows are
 * fields; loading a file and visualizing update them.
 */
module Viewer {
  import opened Wrappers
  import opened Frame
  import opened Grid
  import opened Sizing
  import opened Chart

  /** What the scrollable canvas shows. */
  datatype Display =
    | Blank
    | TableGrid(cells: seq<Placement>, widths: seq<nat>)
    | ChartFigure(figure: Figure)

  /** The separator the parser is called with. */
  function Separator(semicolon: bool): (sep: char)
    ensures sep == ';' <==> semicolon
    ensures sep == ',' <==> !semicolon
  {
    if semicolon then ';' else ','
  }

  class CsvViewer {
    /** The loaded table (the data frame). */
    var df: Table
    /** The chart-kind selection, as the radio buttons store it. */
    var kind: string
    /** The separator check box. */
    var semicolon: bool
    /** The canvas content. */
    var display: Display

    ghost predicate Valid()
      reads this
    {
      df.WellFormed()
    }

    /** A new window: no data, "bar" selected, comma separator, empty canvas. */
    constructor ()
      ensures Valid()
      ensures df == Table([], []) && kind == "bar" && !semicolon && display == Blank
    {
      df := Table([], []);
      kind := "bar";
      semicolon := false;
      display := Blank;
    }

    /** A radio button selects the chart kind. */
    method SelectKind(selection: string)
      requires Valid()
      modifies this
      ensures Valid()
      ensures kind == selection
      ensures df == old(df) && semicolon == old(semicolon) && display == old(display)
    {
      kind := selection;
    }

    /** The check box sets the separator. */
    method SetSemicolon(on: bool)
      requires Valid()
      modifies this
      ensures Valid()
      ensures semicolon == on
      ensures df == old(df) && kind == old(kind) && display == old(display)
    {
      semicolon := on;
    }

    /**
     * The load action. `path` is what the file dialog returned, empty when
     * it was cancelled or failed; `parse` stands for the CSV parser, called
     * with the path and the selected separator, and gives `None` when it
     * raises (an empty file, a row with too many fields). A parser error
     * leaves the window as it was; otherwise the canvas shows the label
     * grid and the column widths of the new table.
     */
    method LoadCsv(path: string, parse: (string, char) -> Option<Table>, rowVis: seq<bool>, colVis: seq<bool>)
      requires Valid()
      requires path != "" && parse(path, Separator(semicolon)).Some? ==>
        parse(path, Separator(semicolon)).value.WellFormed() &&
        MasksCover(parse(path, Separator(semicolon)).value, rowVis, colVis)
      modifies this
      ensures Valid()
      ensures kind == old(kind) && semicolon == old(semicolon)
      ensures path == "" || parse(path, Separator(semicolon)).None? ==>
        df == old(df) && display == old(display)
      ensures path != "" && parse(path, Separator(semicolon)).Some? ==>
        df == parse(path, Separator(semicolon)).value &&
        display == TableGrid(Layout(df, rowVis, colVis), Widths(df))
    {
      if path == "" {
        return;
      }
      var sep := Separator(semicolon);
      var parsed := parse(path, sep);
      if parsed.None? {
        return;
      }
      df := parsed.value;
      var cells := BuildGrid(df, rowVis, colVis);
      var widths := ColumnWidths(df);
      display := TableGrid(cells, widths);
    }

    /**
     * The visualize action: nothing happens on an empty table; otherwise the
     * canvas shows the figure chosen for the current selection.
     */
    method VisualizeData()
      requires Valid()
      modifies this
      ensures Valid()
      ensures df == old(df) && kind == old(kind) && semicolon == old(semicolon)
      ensures df.IsEmpty() ==> display == old(display)
      ensures !df.IsEmpty() ==> display == ChartFigure(Visualize(df, kind).figure)
    {
      var outcome := Visualize(df, kind);
      match outcome
      case NoChange =>
      case Show(figure) =>
        display := ChartFigure(figure);
    }
  }
}
