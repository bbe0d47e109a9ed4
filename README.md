# Well analysis dashboard — a Dafny model of its ingest and plot-selection logic

The dashboard is a single Streamlit page (`welldashboardup.py`). A user uploads a
spreadsheet. The page reads it with pandas, strips every character other than
letters, digits and whitespace from the text-typed columns, shows the table, and
offers a fixed menu of plots over the columns the user selects. This project
models the two parts of that page that carry logic. It proves what they do.

- **Ingest and clean** (`parse_file`, `clean_column_values`). The file-name suffix
  picks the Excel reader or the CSV reader. Any other name reports
  "Unsupported file type" and yields no table. The table is then cleaned in
  place, column by column.
  - `Frames`: the data model. A column has a pandas dtype tag and a sequence of
    cells. A cell is `Missing`, a string, or a non-string value. A table is its
    ordered column labels, its columns and a row count.
  - `Cleaning`: the regular-expression filter `[^a-zA-Z0-9\s]` on one cell
    (`CleanCell`). Then `Series.str.replace` on a column, and the whole
    cleaning pass as pure functions, with lemmas about them.
  - `Tables`: the DataFrame as a class whose columns live in an array.
    `CleanColumnValues` is the imperative loop of `clean_column_values`, proved
    against the pure `CleanColumns`.
  - `Ingest`: the suffix dispatch, the pure `Parse`, and the method `ParseFile`
    proved against it.
- **Plot plan** (the selection block of the page). Given the table's labels, the
  multiselect (in click order), the checkboxes and the select boxes,
  `PlotPlan` is the list of render calls in the order the page makes them.
  `RenderPlots` emits them one at a time with the page's loops and is proved
  equal to it. The lemmas describe each kind of call, how many of each there
  are, and their order.
- `Dashboard.RunDashboard` ties the two together the way the page script does.

Behaviour the model follows from the code where a plain reading might differ:

- `\s` in a Python text pattern is Unicode-aware. The model keeps exactly the
  characters `str.isspace` accepts. Those are U+0009–U+000D, U+001C–U+0020,
  U+0085, U+00A0, U+1680, U+2000–U+200A, U+2028, U+2029, U+202F, U+205F and
  U+3000. Letters and digits are ASCII only.
- `.str.replace` on an `object` column turns every non-string value (a number
  or date in a mixed column) into a missing value. So cleaning keeps missing
  cells missing and strings as strings, but non-strings in a text column become
  missing.
- The `.str` accessor raises an error on an `object` column that holds values
  but no string. That error propagates out of `parse_file`. The columns already
  visited have been cleaned in place by then.
- The selection is a sequence, not a set. The scatter plot's x and y are the
  first and second columns in click order.
- The upload widget accepts `.pdf` and `.docx`, and it matches extensions
  without regard to case. `parse_file` compares suffixes case-sensitively and
  knows only `.xlsx` and `.csv`. So such files, and `.CSV` or `.XLSX` names,
  yield no table. The model keeps this mismatch.

## Model

| member | source | states |
|---|---|---|
| `Cleaning.CleanCell` | welldashboardup.py:11 | the cleaned cell holds only ASCII letters, ASCII digits and Python whitespace, and is no longer than the original |
| `Cleaning.CleanCellIsSubsequence` | welldashboardup.py:11 | the kept characters appear in the original cell in the same order |
| `Cleaning.CleanCellCounts` | welldashboardup.py:11 | each allowed character is kept exactly as often as it occurs; each other character is removed |
| `Cleaning.CleanCellUnique` | welldashboardup.py:11 | any in-order selection of allowed characters that keeps all of them is the cleaned cell, so the filter is exactly the substitution |
| `Cleaning.CleanCellFixpoints` | welldashboardup.py:11 | a cell is left unchanged if and only if it holds only allowed characters |
| `Cleaning.CleanCellIdempotent` | welldashboardup.py:11 | filtering an already filtered cell changes nothing |
| `Cleaning.CleanColumnSpec` | welldashboardup.py:9-11 | a column fails exactly when it is text-typed and holds values but no string; otherwise it keeps its dtype and length, and each cell is cleaned (text columns) or kept (other columns) |
| `Cleaning.CleanColumnsPointwise` | welldashboardup.py:8-11 | the table cleans without error exactly when every column does, and then column j is column j's own clean |
| `Cleaning.CleanColumnsFirstFailure` | welldashboardup.py:8-11 | a failing table reports the error of its first failing column, because the loop stops there |
| `Cleaning.CleanColumnsFails` | welldashboardup.py:8-11 | cleaning fails exactly when some text-typed column holds values but no string, and then with the `.str` accessor error |
| `Cleaning.CleanColumnsShape` | welldashboardup.py:8-12 | same number of columns, same dtypes and lengths; non-text columns untouched; missing stays missing, strings stay strings; every string in a text column holds only allowed characters |
| `Cleaning.CleanColumnIdempotent` | welldashboardup.py:9-11 | cleaning a cleaned column returns it unchanged |
| `Cleaning.CleanColumnsIdempotent` | welldashboardup.py:8-12 | cleaning a cleaned table returns it unchanged |
| `Cleaning.CleanKeepsWellFormed` | welldashboardup.py:8-12 | a cleaned table still has unique labels, one column per label and equal column lengths |
| `Tables.DataFrame.CleanColumnValues` | welldashboardup.py:6-12 | the in-place loop ends with the table equal to the pure clean of its old columns, or it stops with that clean's error, leaving earlier columns cleaned and later ones untouched; labels and row count never change |
| `Ingest.Dispatch` | welldashboardup.py:15-23 | the Excel branch is taken exactly for names ending in `.xlsx` and the CSV branch exactly for names ending in `.csv`; no name ends in both |
| `Ingest.OtherSuffixesUnsupported` | welldashboardup.py:15-23 | names ending in `.pdf`, `.docx`, `.CSV` or `.XLSX` reach neither reader |
| `Ingest.PdfUploadYieldsNoTable` | welldashboardup.py:21-23 | an uploaded `.pdf` gives no table, whatever the readers would return |
| `Ingest.ParseSpec` | welldashboardup.py:14-26 | no table exactly for unsupported names; a parsed table keeps the reader's labels and row count, is well formed, is already clean, and its text cells hold only allowed characters |
| `Ingest.ParseFile` | welldashboardup.py:14-26 | reports "Unsupported file type" exactly once for an unsupported name and otherwise nothing; returns a table exactly when the parse succeeds, equal to the cleaned reader output; a reader or accessor error propagates |
| `Plots.Pick` | welldashboardup.py:75-76 | a select box returns one of its options, and its default index when left alone |
| `Plots.TimeAxis` | welldashboardup.py:59 | the time axis is one of the table's columns |
| `Plots.EmitLines` | welldashboardup.py:60-65 | the line-plot loop emits exactly `Lines` of the time axis and the selection |
| `Plots.EmitHists` | welldashboardup.py:69-71 | the histogram loop emits exactly one `Hist` per selected column, in selection order |
| `Plots.RenderPlots` | welldashboardup.py:45-79 | the page's conditionals and loops issue exactly the calls of `PlotPlan` |
| `Plots.LinesInSelectionOrder` | welldashboardup.py:60-65 | one line plot per selected column other than the time axis, in selection order: as many as the selection, less one when the time axis is selected |
| `Plots.PlanInPageOrder` | welldashboardup.py:45-79 | the calls come in the order pair plot, heat map, line plots, histograms, scatter plot |
| `Plots.PlanCounts` | welldashboardup.py:45-79 | with two or more columns selected: one pair plot and one heat map if ticked, the line-plot count above, one histogram per selected column, one scatter plot only with three or more columns; with fewer, none of any kind |
| `Plots.PlanContents` | welldashboardup.py:45-79 | pair plot and heat map are over the selection; a line plot puts a selected non-axis column against the time axis and only when a `time` column exists; a histogram is of a selected column; the scatter uses the first and second selected columns as x and y, and hue and size from the selection |
| `Plots.PlanNeedsTwoColumns` | welldashboardup.py:45 | with fewer than two selected columns nothing is drawn, whatever the checkboxes say |
| `Plots.NoTimeColumnNoLines` | welldashboardup.py:58 | a table without a `time` column gets no line plots |
| `Plots.ScatterFollowsClickOrder` | welldashboardup.py:74-78 | selecting B, A, C with the default hue and size plots B on x and A on y |
| `Plots.TimeSeriesOfTwoColumns` | welldashboardup.py:58-65 | with a `time` axis and X, Y selected, there is exactly one line plot for X and one for Y |
| `Plots.TwoColumnsWithoutTime` | welldashboardup.py:45-71 | two selected columns and no `time` column give pair plot, heat map and two histograms only |
| `Dashboard.RunDashboard` | welldashboardup.py:33-43 | no upload does nothing; an unsupported name gives one message and no plots; an error stops the page; otherwise the cleaned table is shown and the plot plan for its labels follows |

## Left out

- Streamlit rendering and widgets (`st.title`, `st.set_option`, `st.file_uploader`, `st.multiselect`, `st.checkbox`, `st.selectbox`, `st.write`, `st.pyplot`). They are host UI. Their values are inputs to the model (`Widgets`, the `interact` parameter), and a render call is a `PlotRequest`.
- The decoding done by `pd.read_excel` and by `pd.read_csv(thousands=',')`, including the thousands separator. These are library calls. They are parameters of type `Reader` that return a table or raise.
- Pandas dtype inference. The dtype tag of each column is taken as given.
- The `.str` accessor's exact type test. The model raises for every text-typed column with values but no string. Pandas accepts a few heterogeneous non-string mixes (integers with booleans, for example) and turns them all missing instead.
- Byte-string cells and non-string column labels. Labels are modelled as strings.
- Everything numeric or graphical: `df.corr()`, the seaborn and matplotlib drawing calls, figure sizes and the 45° tick rotation. Also the errors those libraries raise for columns they cannot plot, such as a histogram of a text column. The plan lists the calls the page issues, not whether they succeed.
- The rerun-on-every-interaction execution model. `RunDashboard` is one pass over the page.
