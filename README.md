# d3_chart core, modelled in Dafny

d3_chart is a small Flask and D3 application for the PCMDI mean-climate metrics. It has two halves.

The Python scripts turn the metrics JSON files into CSV tables:
- `app/mean_climate_parser.py` builds the "all seasons for a variable" and "all variables for a season" tables;
- `app/json_to_csv_mean_climate.py` writes one table per metrics file, with one row per `model_run`;
- `app/convert_json2csv.py` gathers the ratio `tmp / ref` of each model's statistic to the observed reference, for every mode and season;
- `app/__init__.py` accepts uploads and lists the variables.

The browser code draws those tables:
- `app/static/parallel_coordinates.js` draws a parallel-coordinates chart of one CSV file;
- `app/static/divgrid.js` draws a grid of the same rows;
- clicking a row or a plotted symbol highlights that model's row and its coordinate path together;
- "select all" and "deselect all" drive every model to a fixed end state;
- the older pages `divgrid.js` and `pcmdi_parcoords.js` hold simpler variants of the table.

The model keeps each file in the form it has in the source:
- state that the source updates in place becomes a class:
  - the highlight page: `HighlightGrid.Chart`;
  - the two older tables: `PlainGrid.Grid` and `ParcoordsTable.Table`;
  - the shared `output` dictionary: `JsonToCsv.OutputTable`;
  - the module-level collections of `convert_json2csv.py`: `ConvertJsonToCsv.ModeTables`;
- loops become methods with loop invariants. Each method is proved equal to a specification function, and the properties the source promises are proved as lemmas about that function;
- parsed JSON is a datatype of objects that keep their key order, arrays, numbers, strings, booleans and `null`;
- which strings Python's `float()` accepts is a grammar of its own (`FloatText`);
- a CSV file is a name, a header and rows;
- a Python exception that stops a script is an `Err`;
- an exception that a `try` swallows is a skipped step.

Modules, one per file:

| module | file | models |
|---|---|---|
| `HighlightGrid` | highlight_grid.dfy | app/static/divgrid.js, and the symbol click of app/static/parallel_coordinates.js |
| `ChartHelpers` | chart_helpers.dfy | the non-drawing helpers of app/static/parallel_coordinates.js |
| `ParcoordsTable` | parcoords_table.dfy | pcmdi_parcoords.js |
| `PlainGrid` | plain_grid.dfy | divgrid.js |
| `Records` | records.dfy | rows as `d3.csv` parses them; shared by the browser modules |
| `Upload` | upload.dfy | app/__init__.py |
| `FileNames` | file_names.dfy | the variable-from-file-name listing shared by two scripts |
| `MeanClimateParser` | mean_climate_parser.dfy | app/mean_climate_parser.py |
| `JsonToCsv` | json_to_csv.dfy | app/json_to_csv_mean_climate.py |
| `ConvertJsonToCsv` | convert_json2csv.dfy | app/convert_json2csv.py |
| `CsvRows` | csv_rows.dfy | the row-writing loop shared by the two CSV writers |
| `Results` | results.dfy | the `model_run` bookkeeping shared by the two converters |
| `JsonModel` | json.dfy | parsed JSON and CSV tables |
| `FloatText` | float_text.dfy | the strings `float()` accepts in the two CSV writers |
| `Text`, `Sorting`, `Seqs`, `Wrappers` | text.dfy, sorting.dfy, seqs.dfy, wrappers.dfy | string order and case, stable sorting by key, sequence filters, Option and Result |

Two behaviours the proofs bring out:
- In `app/json_to_csv_mean_climate.py` one `output` dictionary is shared by all files. A `model_run` that a later file cannot read keeps the values an earlier file stored, so the later file's table repeats them (`JsonToCsv.SharedOutputCarriesOver`).
- In `pcmdi_parcoords.js`:
  - the table's click handler replaces divgrid's `rowClicked` only on the rows of the first drawing. Rows a brush redraw appends keep `rowClicked`, which flips their `highlight` class and leaves `selectedModels` and the chart alone (`ParcoordsTable.Table.GridClick`);
  - the brush listener passes an object to `.on`, which d3 (version 4 and later) reads as a request for a listener, so no hover listener is attached; when the brush selects nothing there is no row to ask and the listener throws, after the redraw (`ParcoordsTable.Table.Brush`);
  - kept rows keep their `row_highlight` class while showing another data row, so the table and `selectedModels` are only in step until the first brush (`ParcoordsTable.Table.Valid`, `ParcoordsTable.Redrawn`, `ParcoordsTable.BrushLeavesStaleHighlight`).

## Model

| member | source | states |
|---|---|---|
| HighlightGrid.Initial | app/static/parallel_coordinates.js:331-333 | a path is created with `path_regular` only, and a row with no highlight and no inline colours |
| HighlightGrid.TogglePath | app/static/divgrid.js:5-14 | the path's `path_highlight` flag is flipped and afterwards exactly one of the two classes is set |
| HighlightGrid.FlipRow | app/static/divgrid.js:18-26 | `row_highlight` flips; a highlighted row gets the model's colour and text `#deffffff`, an unhighlighted one background `none` and text `#4a4a4a` |
| HighlightGrid.Click | app/static/divgrid.js:16-27 | a click flips both the row and the path flags, leaves one path class set and styles the row by its new flag |
| HighlightGrid.HoverIn | app/static/divgrid.js:115-120 | mouseover never changes `row_highlight`, leaves a highlighted row untouched and tints only an unhighlighted one grey |
| HighlightGrid.HoverOut | app/static/divgrid.js:121-128 | mouseout never changes `row_highlight`, leaves a highlighted row untouched and resets an unhighlighted one to transparent and `#4a4a4a` |
| HighlightGrid.SelectAllEntry | app/static/divgrid.js:29-38 | after "select all" a model's row is highlighted, and an already highlighted model is unchanged |
| HighlightGrid.ClickedIfOn | app/static/divgrid.js:41-48 | after the row pass of "deselect all" a model's row is not highlighted |
| HighlightGrid.PathOff | app/static/divgrid.js:50-57 | after the path pass of "deselect all" a path is not highlighted and the row is unchanged |
| HighlightGrid.ClickModel | app/static/divgrid.js:16-27 | a click on one model keeps the set of models on the page |
| HighlightGrid.SelectAllPage | app/static/divgrid.js:29-38 | "select all" over the page keeps the set of models |
| HighlightGrid.ClickHighlightedPage | app/static/divgrid.js:41-48 | the row pass over the page keeps the set of models |
| HighlightGrid.ClearPathsPage | app/static/divgrid.js:50-57 | the path pass over the page keeps the set of models |
| HighlightGrid.DeselectAllPage | app/static/divgrid.js:40-58 | "deselect all" over the page keeps the set of models |
| HighlightGrid.Step | app/static/divgrid.js:63-69 | each pointer event (row click, symbol click, select all, deselect all, hover) keeps the set of models |
| HighlightGrid.Run | app/static/divgrid.js:60-131 | any sequence of those events keeps the set of models |
| HighlightGrid.InitialConsistent | app/static/parallel_coordinates.js:313-333 | a freshly drawn page is consistent and nothing is selected |
| HighlightGrid.StepConsistent | app/static/divgrid.js:16-58 | every event keeps, for every model, row flag equal to path flag, one path class, and highlighted rows in their colours |
| HighlightGrid.RunConsistent | app/static/divgrid.js:16-131 | after any sequence of events the table and the chart agree: the highlighted rows are exactly the highlighted paths |
| HighlightGrid.ClickToggles | app/static/divgrid.js:16-27 | a click adds the model to the selection or removes it, and no other model changes |
| HighlightGrid.ClickTwice | app/static/parallel_coordinates.js:163-183 | two clicks on the same model restore the selection and that model's path, and leave every other model as it was |
| HighlightGrid.SelectAllSelectsAll | app/static/divgrid.js:29-38 | after "select all" every model is selected, and models already highlighted are untouched |
| HighlightGrid.DeselectAllClears | app/static/divgrid.js:40-58 | after "deselect all" no row and no path is highlighted, whatever the paths were before |
| HighlightGrid.HoverKeepsSelection | app/static/divgrid.js:115-128 | hovering changes neither the selection nor any path |
| HighlightGrid.HeaderLabel | app/static/divgrid.js:92-97 | the header shows `model_name` as "name" and any other column unchanged |
| HighlightGrid.Chart.constructor | app/static/parallel_coordinates.js:313-333 | a page over distinct model names starts with every path regular, no row highlighted, no columns chosen |
| HighlightGrid.Chart.TogglePathOf | app/static/divgrid.js:5-14 | `togglePathHighlight` changes only the named model's path, as `TogglePath` |
| HighlightGrid.Chart.FlipRowOf | app/static/divgrid.js:18-26 | the row half of `rowClicked` changes only the named row, as `FlipRow` |
| HighlightGrid.Chart.RowClicked | app/static/divgrid.js:16-27 | `rowClicked` changes only the clicked model, as `Click` |
| HighlightGrid.Chart.SymbolClicked | app/static/parallel_coordinates.js:163-183 | a symbol click toggles the same model's path and row, as `ClickModel` |
| HighlightGrid.Chart.HighlightAll | app/static/divgrid.js:29-38 | the `.each` loop over rows leaves the page equal to `SelectAllPage` of the old page |
| HighlightGrid.Chart.DeselectAll | app/static/divgrid.js:40-58 | the two passes leave the page equal to `DeselectAllPage` of the old page |
| HighlightGrid.Chart.ClickHighlightedRows | app/static/divgrid.js:41-48 | the row pass leaves the page equal to `ClickHighlightedPage` of the old page |
| HighlightGrid.Chart.ClearHighlightedPaths | app/static/divgrid.js:50-57 | the path pass leaves the page equal to `ClearPathsPage` of the old page |
| HighlightGrid.Chart.MouseOver | app/static/divgrid.js:115-120 | only the hovered row changes, as `HoverIn` |
| HighlightGrid.Chart.MouseOut | app/static/divgrid.js:121-128 | only the left row changes, as `HoverOut` |
| HighlightGrid.Chart.SetColumns | app/static/divgrid.js:166-170 | after `dg.columns(c)`, `dg.columns()` gives back `c` |
| HighlightGrid.Chart.Render | app/static/divgrid.js:60-164 | columns default to the first row's keys when empty; the header is the labelled columns; each row has its classes, its `data-model_name` and its values in column order |
| ChartHelpers.Variables | app/static/parallel_coordinates.js:57-63 | the variables are the first row's keys other than `model_name`, and all of them, in order, when the row has no `model_name` |
| ChartHelpers.VariablesAround | app/static/parallel_coordinates.js:57-63 | the keys before and after `model_name` keep their order |
| ChartHelpers.Compare | app/static/parallel_coordinates.js:339-351 | the result is -1, 0 or 1; 0 exactly when the upper-cased names are equal; -1 exactly when the first sorts before |
| ChartHelpers.CompareAntisymmetric | app/static/parallel_coordinates.js:339-351 | `compare(a, b) == -compare(b, a)` |
| ChartHelpers.CompareTransitive | app/static/parallel_coordinates.js:339-351 | the comparator is transitive, so `data.sort(compare)` has a consistent order |
| ChartHelpers.Extent | app/static/parallel_coordinates.js:44-50 | `d3.extent` is undefined exactly when no value is a number; otherwise it is an interval containing every number, and both ends are attained |
| ChartHelpers.ColumnNumbers | app/static/parallel_coordinates.js:46-49 | one converted value per row, `undefined` where the row lacks the column |
| ChartHelpers.DomainCoversRows | app/static/parallel_coordinates.js:44-50 | every row's number in a column lies within that column's domain |
| ChartHelpers.SetStaticScale | app/static/parallel_coordinates.js:26-42 | one entry per listed variable: `[lowerBound, upperBound]` for the "custom" type, otherwise the variable's own extent |
| ChartHelpers.AbsoluteRangeUndefined | app/static/parallel_coordinates.js:480-487 | the overall range is undefined exactly when every variable's domain is |
| ChartHelpers.AbsoluteRangeCovers | app/static/parallel_coordinates.js:480-487 | the overall range contains every defined variable domain |
| ChartHelpers.AbsoluteRangeLowAttained | app/static/parallel_coordinates.js:480-487 | the low end is the low end of some variable's domain |
| ChartHelpers.AbsoluteRangeHighAttained | app/static/parallel_coordinates.js:480-487 | the high end is the high end of some variable's domain |
| ChartHelpers.FindAbsoluteMinMax | app/static/parallel_coordinates.js:480-487 | the loop's result is below and above every variable's extent, attained at both ends, and undefined only when every domain is |
| ChartHelpers.ChooseApiEndpoint | app/static/parallel_coordinates.js:557-567 | `/plot_by_variable` exactly for the level `plotAllSeasonsByVariable`, `/plot_by_season` otherwise |
| ChartHelpers.GenerateCsvPayload | app/static/parallel_coordinates.js:597-609 | the payload's names are exactly those of the enabled `SELECT` elements, each with the value of the last such element of that name |
| ChartHelpers.PlottedFields | app/static/parallel_coordinates.js:193-226 | a row plots at most one symbol per field, none for `model_name`, each tagged with the row's model name and carrying a column and value the row holds together |
| ChartHelpers.PlottedValues | app/static/parallel_coordinates.js:195-217 | on a row with each column once, every symbol's value is the row's value for its column, the value behind `y[variable](value)` and `data-value` |
| ChartHelpers.PlottedVariables | app/static/parallel_coordinates.js:195-198 | the symbols' columns are the row's keys without `model_name`, in order |
| ChartHelpers.FirstRowPlotsVariables | app/static/parallel_coordinates.js:57-63 | the first row plots one symbol per chart variable, in axis order |
| ChartHelpers.CalculatePoint | app/static/parallel_coordinates.js:193-226 | the loop over `Object.entries(row)` yields `PlottedFields` of the row |
| ParcoordsTable.ToggleSelected | pcmdi_parcoords.js:196-200 | a present row is removed (every occurrence), an absent row is appended, and no other row's membership changes |
| ParcoordsTable.CallAfterClick | pcmdi_parcoords.js:201-205 | `unhighlight()` exactly when the list is empty, `highlight(list)` exactly when it is not |
| ParcoordsTable.BrushedRows | pcmdi_parcoords.js:213-216 | the redrawn table shows a prefix of the brushed rows, at most ten, and all of them when there are ten or fewer |
| ParcoordsTable.ToggleKeepsNoDuplicates | pcmdi_parcoords.js:196-200 | `selectedModels` never holds a row twice |
| ParcoordsTable.ToggleTwice | pcmdi_parcoords.js:196-200 | clicking the same row twice restores membership, and for an unselected row the very list |
| ParcoordsTable.Redrawn | pcmdi_parcoords.js:213-217 | the redraw shows the new rows joined by index; kept elements keep both classes and their click listener, appended ones have no class and divgrid's `rowClicked` |
| ParcoordsTable.BrushLeavesStaleHighlight | pcmdi_parcoords.js:213-217 | a highlighted element re-bound by a brush to a row that is not selected stays highlighted |
| ParcoordsTable.Table.constructor | pcmdi_parcoords.js:189-194 | the table is drawn over all rows, nothing selected and nothing highlighted, every row with the table's click listener |
| ParcoordsTable.Table.Click | pcmdi_parcoords.js:194-208 | the list becomes `ToggleSelected`, the chart gets `CallAfterClick`, only the clicked element's class flips, and the list stays free of repeats |
| ParcoordsTable.Table.DoubleClick | pcmdi_parcoords.js:209-211 | `unhighlight([d])` with the list unchanged |
| ParcoordsTable.Table.GridClick | divgrid.js:11-15 | a click on a row a brush appended flips only that element's `highlight` class; the list and the chart are untouched |
| ParcoordsTable.Table.Brush | pcmdi_parcoords.js:213-224 | the elements become `Redrawn` over `BrushedRows`, and the listener throws exactly when nothing is brushed |
| PlainGrid.EnteredRow | divgrid.js:57-63 | a new row element has class `"row " + model_name` and no highlight |
| PlainGrid.Grid.constructor | divgrid.js:1-3 | no columns and no rows |
| PlainGrid.Grid.RowClicked | divgrid.js:11-15 | `highlight` flips on the clicked row only |
| PlainGrid.Grid.Reset | divgrid.js:5-9 | every row loses `highlight` and nothing else changes |
| PlainGrid.Grid.SetColumns | divgrid.js:95-99 | after `dg.columns(c)`, `dg.columns()` gives back `c` |
| PlainGrid.Grid.Render | divgrid.js:22-93 | columns default to the first row's keys; the header shows them unchanged; kept rows keep their elements, new ones enter plain; each row's cells are its values in column order |
| Records.Lookup | app/static/divgrid.js:140-142 | `row[k]` is undefined exactly when the row has no key `k`, and otherwise is a value stored under `k` |
| Records.FirstRowKeys | app/static/divgrid.js:61 | `d3.keys(data[0])`, and no keys for an empty dataset |
| Records.Project | app/static/divgrid.js:139-143 | one cell per column, holding the row's value for that column in column order |
| Records.ProjectOwnKeys | divgrid.js:68-75 | with the default columns a row's cells are exactly its values |
| Upload.AllowedFileMeans | app/__init__.py:21-22 | a name is allowed exactly when some dot has no dot after it and the lower-cased text after it is `json` or `csv` |
| Upload.NoDotRefused | app/__init__.py:22 | a name without a dot is refused |
| Upload.LastExtensionDecides | app/__init__.py:14-22 | `a.tar.CSV` is accepted and `a.csv.exe` refused |
| Upload.VariablesFromJsonFileNames | app/__init__.py:25-35 | the result is sorted, holds one entry per file (duplicates kept), and each entry is a file-name prefix without `_` |
| Upload.UploadFile | app/__init__.py:60-79 | a missing part or an empty name flashes its message and saves nothing; a file is saved exactly when its name is allowed; otherwise the refusal is flashed |
| Upload.SavedOnlyAllowed | app/__init__.py:71-73 | nothing is saved unless `allowed_file` holds |
| FileNames.VariableOfMeans | app/mean_climate_parser.py:117-121 | the base name has no `/`, and the variable is a prefix of it without the separator |
| FileNames.VariablesOf | app/mean_climate_parser.py:117-121 | one variable per listed file, in listing order |
| FileNames.VariablesFromFileNames | app/mean_climate_parser.py:113-124 | the result is the listed variables sorted: ordered, and the same multiset |
| MeanClimateParser.VariablesFromJsonFileNames | app/mean_climate_parser.py:113-124 | the result is sorted, holds one entry per file, and each entry is a file-name prefix without `.` |
| MeanClimateParser.InputPathNamesVariable | app/mean_climate_parser.py:16-19 | the file read for a variable is listed back as that variable |
| MeanClimateParser.Filled | app/mean_climate_parser.py:28-37 | `output` has an entry for exactly the readable models |
| MeanClimateParser.FillInOrder | app/mean_climate_parser.py:28-37 | the fill loop succeeds exactly when every model is readable, and then yields `Filled` |
| MeanClimateParser.FillOutput | app/mean_climate_parser.py:28-37 | the same in case-insensitive order: the result does not depend on the visiting order |
| MeanClimateParser.AllSeasonsTableMeans | app/mean_climate_parser.py:24-59 | the table is built exactly when the models are listed, the first one has the seasons and all are readable; the header is `model_name` and the first model's seasons; the rows follow `models_list` |
| MeanClimateParser.AllSeasonsForVariable | app/mean_climate_parser.py:12-59 | a missing input file is reported by name; otherwise the result is `AllSeasonsTable` of that file, named `all_seasons_{variable}-{gen}-{region}-{stat}.csv` |
| MeanClimateParser.SeasonColumn | app/mean_climate_parser.py:83-93 | a column has one value per model |
| MeanClimateParser.SeasonColumnMeans | app/mean_climate_parser.py:84-92 | a column exists exactly when every model has the value, and then lists them in model order |
| MeanClimateParser.SeasonColumnPrefix | app/mean_climate_parser.py:88-92 | a value missing for an earlier model makes the whole column fail |
| MeanClimateParser.FileColumn | app/mean_climate_parser.py:79-93 | a file's column has one value per model of that file |
| MeanClimateParser.SeasonTable | app/mean_climate_parser.py:79-93 | the first column is the first file's model names, then one column per file |
| MeanClimateParser.MinLength | app/mean_climate_parser.py:95 | the shortest column's length |
| MeanClimateParser.Zip | app/mean_climate_parser.py:95 | `zip(*output)`: row `i` holds the `i`-th entry of every column, up to the shortest column |
| MeanClimateParser.ReadColumn | app/mean_climate_parser.py:83-93 | the values loop yields `SeasonColumn`, failing at the first missing value |
| MeanClimateParser.ReadFile | app/mean_climate_parser.py:75-93 | one file's labels and `FileColumn` |
| MeanClimateParser.CollectColumns | app/mean_climate_parser.py:67-93 | fails exactly when a file is unreadable; the header is `model_name` plus each file's variable in path order; the columns are `SeasonTable` |
| MeanClimateParser.AllVariablesBySeason | app/mean_climate_parser.py:62-110 | fails exactly when some file lacks a value; the header is `model_name` plus the sorted files' variables; the rows are the `zip` of the columns; the name is `all_variables_{season}-{gen}-{region}-{stat}.csv` |
| CsvRows.OverflowBound | app/json_to_csv_mean_climate.py:67-73 | `float()` of a whole number at or beyond 2^1024 - 2^970 raises `OverflowError`, so its row is skipped; smaller numbers are written |
| CsvRows.SeasonValues | app/mean_climate_parser.py:56 | the values exist exactly when every header season holds a value `float()` takes (a number below the double overflow bound, a boolean or float text), one per season in order |
| FloatText.FractionIsFloat | app/mean_climate_parser.py:56 | digits, a point and digits are accepted by `float()` |
| FloatText.TwoPointsRefused | app/mean_climate_parser.py:56 | a second decimal point is refused |
| FloatText.ExponentIsFloat | app/json_to_csv_mean_climate.py:70 | digits, `e` and digits are accepted |
| FloatText.SingleUnderscore | app/json_to_csv_mean_climate.py:70 | one underscore between digits is accepted |
| FloatText.DoubleUnderscore | app/json_to_csv_mean_climate.py:70 | two underscores in a row are refused |
| FloatText.DigitsAreFloat | app/mean_climate_parser.py:56 | a digit run is accepted, with or without white space around it |
| FloatText.WithoutDigits | app/mean_climate_parser.py:56 | text without digits is accepted exactly when it is `inf`, `infinity` or `nan` in some case, after an optional sign |
| FloatText.NanExample | app/mean_climate_parser.py:56 | `nan` is accepted |
| FloatText.InfinityExample | app/mean_climate_parser.py:56 | `-Inf` is accepted: a sign, then the word in any case |
| FloatText.WordExample | app/mean_climate_parser.py:56 | a word such as `abc` is refused |
| CsvRows.SeasonRow | app/mean_climate_parser.py:54-56 | a row is the name followed by its season values; none when the name has no entry or a value fails |
| CsvRows.RowsFor | app/mean_climate_parser.py:52-59 | at most one row per name |
| CsvRows.RowsForShape | app/mean_climate_parser.py:52-59 | every row is a listed name followed by one value per header season |
| CsvRows.SkipsFailedRow | app/mean_climate_parser.py:57-59 | a row that raises is left out and the rows around it are still written |
| CsvRows.RowsForComplete | app/json_to_csv_mean_climate.py:64-73 | when no row raises there is one row per name, in the names' order |
| CsvRows.WriteRows | app/json_to_csv_mean_climate.py:64-73 | the writing loop yields `RowsFor` |
| Results.RunsTried | app/json_to_csv_mean_climate.py:21-26 | with one run per model only `r1i1p1` is tried; otherwise the run keys, sorted case-insensitively |
| Results.AppendNew | app/convert_json2csv.py:53-54 | `model_run_list` only grows at its end, holds each name seen, and never holds a name twice |
| Results.AppendNewDedup | app/convert_json2csv.py:53-54 | the list is the first occurrences of the names seen, in first-seen order |
| Results.StoreEntry | app/json_to_csv_mean_climate.py:37-43 | a store adds its key and leaves other keys unchanged |
| Results.LastEntry | app/json_to_csv_mean_climate.py:42-43 | the last successful lookup of a name exists exactly when some pass for it succeeded |
| Results.StoreAllKeys | app/json_to_csv_mean_climate.py:35-38 | after the passes, the stored names are those stored before plus those visited |
| Results.StoreAllValues | app/json_to_csv_mean_climate.py:37-43 | a name holds its last successful lookup, else its earlier value, else the placeholder `{}` |
| JsonToCsv.RunVisits | app/json_to_csv_mean_climate.py:26-45 | one pass per run tried, in order, each with its `model_run` and the entry read |
| JsonToCsv.OutputTable.constructor | app/json_to_csv_mean_climate.py:85 | the shared dictionary starts empty |
| JsonToCsv.VisitRun | app/json_to_csv_mean_climate.py:28-49 | one pass appends a new `model_run` and stores its entry as `StoreAll` does |
| JsonToCsv.VisitRuns | app/json_to_csv_mean_climate.py:26-49 | the run loop extends the run list and the dictionary by that model's passes |
| JsonToCsv.VisitModels | app/json_to_csv_mean_climate.py:18-52 | the model loop yields the deduplicated `model_run` names and the dictionary after all passes |
| JsonToCsv.ConvertToCsv | app/json_to_csv_mean_climate.py:7-73 | the table and the dictionary afterwards are those of `Converted` |
| JsonToCsv.ConvertedTable | app/json_to_csv_mean_climate.py:14-16 | a file converts exactly when its models and the reference model's seasons can be read; the table is named after the file plus `.csv` and headed by `model_name` and those seasons |
| JsonToCsv.ConvertedAllStops | app/json_to_csv_mean_climate.py:86-87 | once a file fails, later files change nothing |
| JsonToCsv.ConvertAll | app/json_to_csv_mean_climate.py:76-87 | `main` converts the listed files with region "global", statistic "rms_xy" and one run per model, with one shared dictionary |
| JsonToCsv.ReadableModels | app/json_to_csv_mean_climate.py:18-22 | only listed models whose run keys can be read |
| JsonToCsv.OnePerModelVisits | app/json_to_csv_mean_climate.py:24-32 | with one run per model, each readable model is visited once under its own name, reading `r1i1p1` only |
| JsonToCsv.ReadableKeepsOrder | app/json_to_csv_mean_climate.py:47-52 | skipping unreadable models keeps the order and the absence of repeats |
| JsonToCsv.OnePerModelRunList | app/json_to_csv_mean_climate.py:18-36 | `model_run_list` is the readable models, each once, in case-insensitive order |
| JsonToCsv.RunListHasEntries | app/json_to_csv_mean_climate.py:35-38 | every name of the run list has an entry in `output` |
| JsonToCsv.SharedOutputCarriesOver | app/json_to_csv_mean_climate.py:37-43 | a `model_run` not read again keeps the value an earlier file stored |
| ConvertJsonToCsv.DominantSeasonIsOneOfAll | app/convert_json2csv.py:22-31 | the dominant season is a single season, and one of those read when all are kept |
| ConvertJsonToCsv.ModeSeasonsOf | app/convert_json2csv.py:37 | one `mode_season` per season, `mode + "_" + season`, in season order |
| ConvertJsonToCsv.ConfiguredModeSeasons | app/convert_json2csv.py:7-31 | with the configured modes and all seasons there are seventeen `mode_season` names |
| ConvertJsonToCsv.ModeSeasonsCover | app/convert_json2csv.py:16-38 | every season read for every mode gives a `mode_season` in the list, and each mode adds at most four |
| ConvertJsonToCsv.RunVisits | app/convert_json2csv.py:46-60 | one pass per run tried, each with its `model_run` and its ratio |
| ConvertJsonToCsv.QuotientOverflow | app/convert_json2csv.py:59-62 | `tmp / ref` raises, and the cell keeps `{}`, when the quotient exceeds double range, however large the operands themselves are |
| ConvertJsonToCsv.StoreRatiosRow | app/convert_json2csv.py:53-60 | after a season's passes a visited row equals one store of its last successful ratio; unvisited rows are unchanged |
| ConvertJsonToCsv.StoreRatiosCells | app/convert_json2csv.py:55-62 | a visited row gains the `mode_season` cell, holding its last successful ratio, else its old value, else the placeholder `{}`; its other cells are unchanged |
| ConvertJsonToCsv.SeasonStepKeeps | app/convert_json2csv.py:40-64 | a season keeps `model_run_list` free of repeats and naming exactly the rows of `d2`; the list only grows at its end |
| ConvertJsonToCsv.SeasonStepsKeep | app/convert_json2csv.py:33-64 | the same across a mode's seasons |
| ConvertJsonToCsv.ModeStepsKeep | app/convert_json2csv.py:16-64 | the same across all modes |
| ConvertJsonToCsv.SeasonStepColumns | app/convert_json2csv.py:37-38 | a season appends its `mode_season` |
| ConvertJsonToCsv.SeasonStepsColumns | app/convert_json2csv.py:33-38 | a mode appends its `mode_season` names in season order |
| ConvertJsonToCsv.ModeStepsColumns | app/convert_json2csv.py:16-38 | `mode_season_list` is every mode's seasons in mode-then-season order |
| ConvertJsonToCsv.MissingFileStops | app/convert_json2csv.py:17-19 | a missing file stops the script with that file named |
| ConvertJsonToCsv.ModeStepsStops | app/convert_json2csv.py:16-20 | once a mode fails, later modes change nothing |
| ConvertJsonToCsv.SeasonStepsStops | app/convert_json2csv.py:33-40 | once a season fails, later seasons change nothing |
| ConvertJsonToCsv.OnePerModelVisits | app/convert_json2csv.py:41-52 | with one run per model each pass is for a listed model under its own name reading `r1i1p1`, and every model with readable runs is visited |
| ConvertJsonToCsv.ModeTables.constructor | app/convert_json2csv.py:12-14 | the three collections start empty |
| ConvertJsonToCsv.ModeTables.VisitRun | app/convert_json2csv.py:48-62 | one pass appends a new `model_run`, creates its row and placeholder cell if absent, and stores the ratio when the lookup succeeds |
| ConvertJsonToCsv.ModeTables.VisitRuns | app/convert_json2csv.py:46-62 | the run loop extends `d2` and `model_run_list` by the model's passes |
| ConvertJsonToCsv.ModeTables.VisitModels | app/convert_json2csv.py:41-64 | the model loop applies all passes of the season |
| ConvertJsonToCsv.ModeTables.ProcessSeason | app/convert_json2csv.py:33-64 | one season is `SeasonStep` of the old state: a missing reference or `RESULTS` stops the script |
| ConvertJsonToCsv.ModeTables.ProcessSeasons | app/convert_json2csv.py:33-64 | the season loop is `SeasonSteps` of the old state |
| ConvertJsonToCsv.ModeTables.ProcessMode | app/convert_json2csv.py:17-33 | one mode is `ModeStep` of the old state: a missing file stops the script |
| ConvertJsonToCsv.ModeTables.ProcessModes | app/convert_json2csv.py:16-64 | the mode loop is `ModeSteps` of the old state |
| ConvertJsonToCsv.Script | app/convert_json2csv.py:1-65 | the script is `ModeSteps` from empty collections over the configured modes |
| ConvertJsonToCsv.ScriptColumns | app/convert_json2csv.py:12-64 | a run that reads every file has the seventeen `mode_season` columns in order and a consistent run list |
| Sorting.SortBy | app/convert_json2csv.py:41 | `sorted(..., key=...)` keeps the elements and their number |
| Sorting.SortBySorted | app/convert_json2csv.py:41 | the result is ordered by key |
| Sorting.InsertWithKey | app/convert_json2csv.py:41 | inserting into a sorted list puts the new element after every element of its key already there |
| Sorting.SortByStable | app/convert_json2csv.py:41 | the sort is stable: for every key, the elements with that key come out in their input order |
| Text.Lower | app/convert_json2csv.py:41 | `s.lower()` maps each character |
| Text.Upper | app/static/parallel_coordinates.js:341-342 | `toUpperCase()` maps each character |
| Text.Before | app/mean_climate_parser.py:121 | `split(sep)[0]` is a prefix without the separator, ending at the first one |
| Text.AfterLast | app/__init__.py:22 | `rsplit('.', 1)[1]` is the suffix after the last separator and contains none |
| Seqs.Without | pcmdi_parcoords.js:197 | the filter keeps exactly the elements other than the removed one |
| Seqs.Dedup | app/json_to_csv_mean_climate.py:35-36 | first occurrences only: no repeats and the same members |

## Left out
- D3 drawing: scales, axes, symbols, legends, transitions, tooltips and layout arithmetic. These are library calls on floating-point pixels. This covers `createValueScale`, `createModelScale`, `drawAxis`, `updateAxis`, `createLegend`, `plotSymbols` positioning, `calculatePath` and the `d3.scaleLinear` objects of `setStaticScale`. The model keeps only their domains.
- The `fetch` chain, toasts, the slider, `update_plot_title`, `updateChart` and the selector show/hide helpers. These are network and DOM I/O with asynchronous ordering.
- `createTable`'s in-place `data.sort(compare)` is not modelled as an operation; its comparator is, with its ordering laws.
- `bigdata.js` and `index.py`: page wiring around `d3.parcoords`, which is not part of this model.
- Flask routing, `request.method`, `secure_filename` (a parameter), `file.save`, `render_template`, `get_json_attributes` (prints only) and `index`.
- `main` of `app/mean_climate_parser.py`: it only calls the two table builders for fixed arguments.
- File opening, `glob`, `json.load` and CSV writing. Files are given as a map from path to parsed document, a directory listing as a sequence; a written table is returned as a value.
- Printing and logging.
- Floating point: JSON numbers are integers, and the value `round(float(x), 3)` writes is not computed: the cell keeps the JSON value it comes from. `tmp / ref` is kept as the pair `Ratio(tmp, ref)`. The division fails exactly when either side is neither a number nor a boolean, `ref` is 0 (or `false`), or the quotient reaches the double overflow bound 2^1024 - 2^970. A JSON literal with a fraction or an exponent, which Python reads as a float and never overflows in `float()` (`1e400` is infinity), is not modelled apart from whole numbers.
- ChartHelpers.ColumnNumbers, ChartHelpers.CalculateDomain, ChartHelpers.SetStaticScale, ChartHelpers.FindAbsoluteMinMax: JavaScript's `+d[name]` (ToNumber) is a parameter from cell text to an optional whole number, and domain ends, `lowerBound` and `upperBound` are whole numbers. The model does not fix which texts convert: in the browser `+""` is 0 and counts in `d3.extent`, `+"abc"` is NaN and is skipped, and fractions are doubles.
- FloatText: white space and digits are the ASCII ones; `float()` also strips other Unicode white space and reads other Unicode decimal digits.
- HighlightGrid.Chart.constructor: requires distinct model names, which the scripts' own CSV files have. An uploaded CSV may repeat a `model_name`. The page then selects only the first path and the first row of that name (`d3.select("path." + name)` and `.row.NAME`), so "select all" leaves the second path out of step with its row. The model also finds a model's path and row by its name exactly, where the page builds CSS selectors from it (`"path." + name`, `".row." + name`). It therefore takes names to be CSS class identifiers that differ from the page's own classes (`row`, `cell`, `path_regular`, `path_highlight`, `coordinate_path`, `row_highlight`). Otherwise the page behaves differently. A name with a dot or a leading digit makes the selector invalid, and the click throws a `SyntaxError`. A name with a space selects nothing, and the click throws on the empty selection. A name equal to one of the page's classes selects another element. The model does not capture this.
- Case mapping and string order cover ASCII letters only, compared by code point. `localeCompare` in the legend is not modelled.
- JSON objects with repeated keys: a lookup takes the first one where Python keeps the last. This is why `JsonToCsv.OnePerModelRunList` requires a model list without repeats.
- The state left behind when a script stops with an exception: the model reports the failure, not the partial collections.
- The commented-out CSV writer at the end of `app/convert_json2csv.py`.
- A double click in `pcmdi_parcoords.js` is modelled as its own event, not as the two clicks a browser also delivers.
- ConvertJsonToCsv.ConfiguredModeSeasons: states the number of columns (17), not the literal list; `ConvertJsonToCsv.ModeSeasonsCover` and `ConvertJsonToCsv.ModeStepsColumns` give its members and order.
- HighlightGrid.ClickModel, HighlightGrid.SelectAllPage, HighlightGrid.ClickHighlightedPage, HighlightGrid.ClearPathsPage, HighlightGrid.DeselectAllPage, HighlightGrid.Step, HighlightGrid.Run: their own contracts state only that the set of models is kept; what they do to the selection and the paths is stated by the lemmas `ClickToggles`, `SelectAllSelectsAll`, `DeselectAllClears`, `HoverKeepsSelection` and `RunConsistent`.
- CsvRows.RowsFor, MeanClimateParser.SeasonColumn, MeanClimateParser.FileColumn: their own contracts bound the length only; `RowsForShape`, `RowsForComplete`, `SkipsFailedRow` and `SeasonColumnMeans` state the contents.
