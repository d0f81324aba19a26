# Immovable monuments by voivodeship: the table arithmetic

The script loads a spreadsheet of immovable-monument counts per Polish
voivodeship (one `VOIVODESHIP` column and one `YEAR <n>` column per year). It
strips the whitespace around every column name. It then picks the voivodeships
whose 2025 count is strictly above both their 2016 and their 2024 count. It
computes the growth between two year columns for every voivodeship, and it
draws a bar chart.

This project models the data steps between loading and drawing, as pure
functions over values:

- `whitespace.dfy` (module `Whitespace`): Python's `str.strip()` with no
  argument. Whitespace is the set of code points for which `str.isspace` is
  true.
- `series.dfy` (module `Series`): the whole-column operations pandas applies.
  These are `>`, `&` and `-` on two aligned columns, and boolean-mask selection
  `xs[mask]`. In the model, arithmetic or comparison on a text cell is a type error.
- `frame.dfy` (module `Frame`): the table. It has a header, one row label per
  row (the DataFrame index) and rows of cells. A cell is a count or a text.
  `df[name]` reads the column called `name`, or fails with a missing-column
  error (Python's `KeyError`).
- `monuments.dfy` (module `Monuments`): `load_monuments_data` (header
  normalisation only), `voivodeships_with_increase` and
  `compute_growth_array`, with their properties and a worked three-region
  sheet.
- `results.dfy` (module `Results`): the `Option` and `Result` wrappers used
  for the error paths.

Errors are values, not preconditions. A missing column gives
`MissingColumn(name)` and a text cell in a compared or subtracted column gives
`NonNumeric`. The error reported is the one Python meets first, in Python's
order of evaluation. For the filter that order is: look up `YEAR 2025`, look
up `YEAR 2016`, compare, look up `YEAR 2024`, compare. For the growth it is:
look up the end column, look up the start column, subtract.

The only precondition is that the table is rectangular (`Frame.WellFormed`).
Every DataFrame is rectangular.

## Model

| member | source | states |
|---|---|---|
| Whitespace.TrimStart | code.py:10 | the result is the longest suffix of the name that does not start with whitespace; everything cut off is whitespace |
| Whitespace.TrimEnd | code.py:10 | the result is the longest prefix of the name that does not end with whitespace; everything cut off is whitespace |
| Whitespace.Strip | code.py:10 | `col.strip()` is no longer than `col` and has no whitespace at either end; whitespace (`Whitespace.IsSpace`) is exactly the code points `str.isspace` accepts: U+0009–U+000D, U+001C–U+0020, U+0085, U+00A0, U+1680, U+2000–U+200A, U+2028, U+2029, U+202F, U+205F and U+3000 |
| Whitespace.StripDecomposes | code.py:10 | the raw name is some whitespace, then the stripped name as a contiguous piece, then some whitespace |
| Whitespace.StripUnique | code.py:10 | any way of cutting whitespace off both ends that leaves no whitespace at either end gives exactly `strip()`; with StripDecomposes this pins Strip down completely |
| Whitespace.StripFixedPoint | code.py:10 | `strip()` leaves a name unchanged if and only if the name has no surrounding whitespace |
| Whitespace.StripIdempotent | code.py:10 | stripping a second time changes nothing |
| Series.Greater | code.py:16-17 | `a > b` succeeds exactly when both columns hold only counts; it then has one entry per row, and entry i is true iff a[i] > b[i] (strict); otherwise it is a type error |
| Series.And | code.py:15-18 | `a & b` has one entry per row, and entry i is a[i] and b[i] |
| Series.Difference | code.py:26 | `a - b` succeeds exactly when both columns hold only counts; it then has one entry per row, and entry i is a[i] - b[i]; otherwise it is a type error |
| Series.KeptIndices | code.py:19 | the positions a mask marks: strictly increasing, all within the mask, and a position is listed iff the mask marks it |
| Series.Select | code.py:19 | `xs[mask]` has one element per marked position, and its k-th element is the element at the k-th marked position |
| Series.SelectMembership | code.py:19 | a value survives the selection iff it stands at some marked position |
| Series.SelectAll | code.py:19 | a mask that marks every row keeps the sequence unchanged |
| Frame.IndexOf | code.py:16-17 | the position of the first column with the given name; none exactly when no column has that name |
| Frame.Column | code.py:16-17 | `df[name]` fails with MissingColumn(name) exactly when the header lacks `name`; otherwise it returns each row's cell under that column, in row order |
| Monuments.LoadMonumentsData | code.py:8-11 | the loaded table keeps the number and order of columns; every new name has no surrounding whitespace and is the raw name with only surrounding whitespace removed; rows are untouched and labelled 0, 1, ... |
| Monuments.LoadIdempotent | code.py:10 | normalising the already-normalised column names changes nothing |
| Monuments.IncreaseMask | code.py:15-18 | the mask succeeds iff the three year columns exist and hold counts; entry i is true iff row i's 2025 count is strictly above its 2016 and its 2024 count; each missing column or text cell gives the error Python meets first |
| Monuments.VoivodeshipsWithIncrease | code.py:14-19 | the filter succeeds iff the mask does, and otherwise reports the mask's error; the result is rectangular, keeps the header, and has at most as many rows as the input |
| Monuments.FilterMembership | code.py:13-19 | a row is in the output iff it is an input row whose 2025 count is strictly above both its 2016 and its 2024 count; a tie on either comparison excludes it |
| Monuments.FilterKeptInOrder | code.py:19 | the output rows are the input rows at strictly increasing positions, each unchanged and with its own label, and those positions are exactly the rows with an increase |
| Monuments.FilterIsOrderedSubsequence | code.py:19 | there are such increasing positions, so the output is an order-preserving subsequence of the input |
| Monuments.FilterLabelsArePositions | code.py:9-19 | on a freshly loaded sheet, each kept row's label is its position in the sheet, and the row there is the kept row |
| Monuments.FilterIdempotent | code.py:14-19 | filtering the filtered table returns it unchanged |
| Monuments.ComputeGrowthArray | code.py:22-27 | the growth succeeds iff both columns exist and hold counts; it then has one entry per row of the whole table, and entry i is row i's end count minus its start count; a missing end column is reported before a missing start column, and a text cell gives a type error |
| Monuments.GrowthSwapNegates | code.py:26 | swapping the start and end years keeps success and negates every entry |
| Monuments.GrowthSameColumnIsZero | code.py:26 | the growth from a count column to itself is all zeros, one per row |
| Monuments.SpacesAroundNameStripped | code.py:10 | `" YEAR 2016 "` strips to `YEAR 2016`, and a one-column sheet with that header loads with the header `[YEAR 2016]` |
| Monuments.TabAfterNameStripped | code.py:10 | `"YEAR 2025\t"` strips to `YEAR 2025`, and a one-column sheet with that header loads with the header `[YEAR 2025]` |
| Monuments.ThreeRegions | code.py:14-27 | for A (10, 12, 15), B (20, 25, 18) and C (5, 5, 5), only A is kept, with its label 0, and the 2016 to 2025 growth is [5, -2, 0] |

## Left out

- Reading the workbook (`pd.read_excel`, code.py:9) and the file name (code.py:5) are I/O through a library the model cannot see. The model starts from the parsed header and rows. It gives them the default labels 0, 1, ... that a freshly read sheet has. File-access and format errors are not modelled.
- `plot_monuments_by_year` (code.py:31-61) draws an interactive matplotlib chart. Its bar offsets are floating-point chart coordinates. It has no result to state anything about.
- `main` (code.py:64-82) only chains the modelled functions and prints to the console.
- Cell types are only counts (unbounded integers) and texts. NaN, floats, dtype coercion and 64-bit overflow of numpy integers are outside the model.
- Series.Greater: a comparison between two text cells is a type error in the model. Python would order the two strings lexicographically instead. Year columns that hold only text are outside the model.
- Frame.Column: with two columns of the same name, the model reads the first one. pandas would return both as a sub-frame.
- Header names are strings. A non-string header label, on which `.strip()` would raise an AttributeError, is outside the model.
- The source reads `df["YEAR 2025"]` twice, and `Monuments.IncreaseMask` reads it once. Both reads give the same column, so the result and the error are the same.
