# CSV viewer: grid building, column sizing and chart choice

A Dafny model of the logic in PlotMaster's `CSVViewer` window (`main.py`).
The window loads a CSV file into a table and shows it as a grid of labels.
On request it draws the first column as a bar, pie or line chart instead.

What is modelled:

- **Frame**: the parsed table. It has the header names and the rows of cell texts, each cell held as one text, its `str(value)` as the width loop reads it.
- **Grid**: the label placements of the load action. One header label per column goes on grid row 0. Then every cell whose row and column are both shown gets a label at grid row (table row + 1). `BuildGrid` has the three loops of the source. It is proved equal to the specification function `Layout`, and the lemmas state what `Layout` contains and in what order.
- **Sizing**: the column-width loop. Each column's minimum size is its longest cell text plus 10.
- **Chart**: the visualize action's empty-table guard and its dispatch on the selected chart kind.
- **Viewer**: the window as a class. Its fields are the loaded table, the chart-kind selection, the separator switch and what the canvas shows. `LoadCsv` and `VisualizeData` update them.

Policies, as the code has them:

- Rows keep their original grid row numbers: data row i is placed at grid row i + 1 whether or not the rows before it are shown, and nothing is renumbered.
- Headers are always placed, whatever the column mask says.
- Widths are measured over every row, whatever the masks say. Header text is not measured.
- The row and column masks (`row_var`, `column_var`) are read by the code but never created. The model takes them as inputs. Its precondition `MasksCover` is exactly the condition under which the code's indexing succeeds: the row mask covers every row, and the column mask covers every column whenever some row is shown. The code has no separate error for a mask of the wrong size, so the model has none either.
- An empty table (no rows or no columns) makes visualizing a no-op. Any selection other than "bar", "pie" or "line" still replaces the canvas, with a blank figure.

## Model

| member | source | states |
|---|---|---|
| Grid.BuildGrid | main.py:93-106 | the label list built by the header loop and the nested row/column loops is exactly `Layout`: headers, then shown cells row by row |
| Grid.HeaderCellsAt | main.py:94-96 | the header loop places one label per column, label i being column i's name at grid row 0, column i |
| Grid.RowCellsIff | main.py:102-106 | within one shown row, a cell label exists at (row, j) with the cell's text iff j is a column and the column mask shows j |
| Grid.RowCellsFacts | main.py:102-106 | one shown row's labels all lie on that grid row, in ascending column order, one per shown column |
| Grid.DataCellsIff | main.py:99-106 | after the first m rows, a data label exists iff its grid row is i+1 for a row i < m shown by the row mask, its column is shown, and its text is cell (i, j) |
| Grid.DataCellsFacts | main.py:99-106 | data labels are in row-major order, on grid rows 1..m, in existing columns |
| Grid.DataCellsCount | main.py:99-106 | the number of data labels is (shown rows) x (shown columns) |
| Grid.LayoutHeadersFirst | main.py:94-96 | the first labels are the headers, one per column, independent of the column mask; every later label is on a data row |
| Grid.LayoutIff | main.py:94-106 | a label is placed iff it is a column header at row 0, or the text of a cell whose row and column are both shown, at its original row + 1 |
| Grid.LayoutRowMajor | main.py:94-106 | all labels come out strictly ascending by grid row, then grid column |
| Grid.LayoutPositionsDistinct | main.py:94-106 | no two labels share a grid position |
| Grid.HiddenKeepsHeaderAndRowNumbers | main.py:99-106 | every label below row 0 belongs to a shown row and a shown column and carries that cell's text, so rows keep their original grid row numbers and hidden columns only keep their header |
| Grid.LayoutCount | main.py:94-106 | the grid has one label per column plus (shown rows) x (shown columns) |
| Grid.FullMasksCount | main.py:94-106 | with every row and column shown, the masks are valid and there are columns + rows x columns labels |
| Sizing.ColumnMax | main.py:111-116 | the running maximum is at least every measured cell length, is 0 with no rows, and otherwise equals some cell's length |
| Sizing.ColumnWidths | main.py:109-119 | one width per column; each width is at least every cell length in its column plus 10, equals some cell length plus 10, and is exactly 10 for a table without rows |
| Sizing.WidthsIgnoreHeader | main.py:109-119 | renaming the columns leaves every width unchanged: only data cells are measured, never the header names |
| Chart.ParseKind | main.py:41-43 | a selection names a chart kind exactly when it is that kind's radio-button value |
| Chart.ParseKindName | main.py:41-43 | each radio-button value selects its own kind |
| Chart.Visualize | main.py:125-150 | no change iff the table is empty; otherwise a figure; it is a chart iff the selection is "bar", "pie" or "line", of that kind, plotting column 0 against the index 0..rows-1, titled, with the column name as y label for bar and line |
| Viewer.Separator | main.py:82 | the parser gets ';' iff the semicolon box is checked, ',' otherwise |
| Viewer.CsvViewer.constructor | main.py:9-69 | a new window holds an empty table, selection "bar", comma separator and an empty canvas |
| Viewer.CsvViewer.SelectKind | main.py:40-46 | a radio button changes only the selection |
| Viewer.CsvViewer.SetSemicolon | main.py:19-20 | the check box changes only the separator switch |
| Viewer.CsvViewer.LoadCsv | main.py:71-119 | a cancelled dialog or a parser error changes nothing; otherwise the table is replaced by the parse with the selected separator, and the canvas shows its `Layout` and `Widths`, the widths independent of the masks |
| Viewer.CsvViewer.VisualizeData | main.py:124-161 | an empty table leaves the canvas as it was; otherwise the canvas shows the figure `Visualize` chose; the table is unchanged |

## Left out

- Chart.Visualize: the plotted series holds the cells' texts, not the numbers the plotting library draws from them.
- Chart.Visualize: the x-axis label (`index.name`, unset for the default index) and the pie labels are not modelled beyond the index itself. The index is taken to be the parser's default 0..rows-1.
- Widget creation, frames, label styling, the scrollbar, the canvas window, `on_canvas_configure` and `mainloop`: user-interface plumbing with no computed result.
- The file dialog: its answer is the `path` parameter of `LoadCsv`. A cancelled dialog and a dialog error both give the empty path.
- The CSV parser (`pd.read_csv`): a library call. It is the `parse` parameter of `LoadCsv`, called with the path and the separator; `None` stands for the parser raising (an empty file, a row with too many fields), which happens before the table or the canvas is touched.
- Matplotlib drawing and the Tk canvas embedding: the model keeps only which figure replaces the canvas.
- The crash from the never-created mask lists: the masks are inputs, and `MasksCover` is the condition under which the code does not fail.
- The tk `columnconfigure` call: only the computed width values are modelled.
- Grid.BuildGrid: a label shows the cell as a whole-row read gives it, which pandas upcasts for a mixed-type row (in `a,b` / `1,2.5` the label at (1, 0) shows `1.0`); the model uses the one cell text that the width loop measures for the label too.
- Sizing.ColumnWidths: it measures `str` of the single cell (`1` in the example above, width 11), which can differ from the label's upcast text (`1.0`); the model holds only that one text per cell.
- Viewer.CsvViewer.VisualizeData: the pie chart raises on negative or non-numeric cells (column `v` with rows `-1`, `2`) before the canvas is swapped, so the canvas stays as it was; the model has no numeric cell values and always shows the figure `Visualize` chose.
