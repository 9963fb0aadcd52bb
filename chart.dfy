/**
 * The visualize step: which chart is drawn from the loaded table. Drawing is
 * left to the plotting library; the model keeps what the code decides: the
 * kind of chart, the column plotted, the row index it is plotted against,
 * the title and the axis label.
 */
module Chart {
  import opened Wrappers
  import opened Frame

  /** The title every drawn chart gets. */
  const Title: string := "CSV Data Visualization"

  /** The three chart kinds the radio buttons offer. */
  datatype ChartKind = Bar | Pie | Line

  /**
   * The figure put on the canvas. `Plotted` charts column `column` (cell
   * texts in `series`) against the row index `index`; `EmptyFigure` is the
   * blank figure made when the selected kind is none of the three.
   */
  datatype Figure =
    | Plotted(kind: ChartKind, column: nat, index: seq<nat>, series: seq<string>,
              title: string, yLabel: Option<string>)
    | EmptyFigure

  /** `NoChange` leaves the canvas as it was; `Show` replaces it with a figure. */
  datatype Outcome = NoChange | Show(figure: Figure)

  /** The value a radio button stores for each kind. */
  function KindName(k: ChartKind): string
  {
    match k
    case Bar => "bar"
    case Pie => "pie"
    case Line => "line"
  }

  /** The chart kind a stored selection names, if any. */
  function ParseKind(s: string): (r: Option<ChartKind>)
    ensures r.Some? ==> KindName(r.value) == s
    ensures r.None? ==> forall k: ChartKind :: KindName(k) != s
  {
    if s == "bar" then Some(Bar)
    else if s == "pie" then Some(Pie)
    else if s == "line" then Some(Line)
    else None
  }

  /**
   * The visualize step on table `t` with stored selection `selection`. An
   * empty table changes nothing. Otherwise a figure replaces the canvas:
   * for "bar", "pie" and "line", column 0 plotted against the row index
   * 0, 1, ..., with the title, and for bar and line the column's name on
   * the y axis; for any other selection, a blank figure.
   */
  function Visualize(t: Table, selection: string): (o: Outcome)
    requires t.WellFormed()
    ensures o.NoChange? <==> t.IsEmpty()
    ensures o.Show? ==> (o.figure.Plotted? <==> ParseKind(selection).Some?)
    ensures o.Show? && o.figure.Plotted? ==>
      && ParseKind(selection) == Some(o.figure.kind)
      && o.figure.column == 0
      && |o.figure.index| == |o.figure.series| == |t.rows|
      && (forall r | 0 <= r < |t.rows| :: o.figure.index[r] == r && o.figure.series[r] == t.rows[r][0])
      && o.figure.title == Title
      && o.figure.yLabel == (if o.figure.kind == Pie then None else Some(t.columns[0]))
  {
    if t.IsEmpty() then NoChange
    else
      var index := seq(|t.rows|, r => r);
      var series := seq(|t.rows|, r requires 0 <= r < |t.rows| => t.rows[r][0]);
      match ParseKind(selection)
      case Some(Bar) => Show(Plotted(Bar, 0, index, series, Title, Some(t.columns[0])))
      case Some(Pie) => Show(Plotted(Pie, 0, index, series, Title, None))
      case Some(Line) => Show(Plotted(Line, 0, index, series, Title, Some(t.columns[0])))
      case None => Show(EmptyFigure)
  }

  /** Each kind's stored value selects that kind again. */
  lemma ParseKindName(k: ChartKind)
    ensures ParseKind(KindName(k)) == Some(k)
  {
  }
}
