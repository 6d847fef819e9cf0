# Furnace plate optimizer — Dafny model

The application takes a spreadsheet of steel plates. It strips whitespace from
the header names and refuses the table unless both a "Plate Weight" and a
"Plate Thickness" column are present. It turns the furnace chosen in a
selection box into a weight capacity (100 or 200 metric tons) and a thickness
limit (350 or 700 mm). It then loads the furnace as a 0/1 knapsack with two
constraints. Each row gets one binary variable. The objective is the total
weight of the chosen rows. The chosen rows' total weight must stay within the
capacity and their total thickness within the thickness limit. The chosen rows
are kept in their original order and re-indexed 0, 1, ..., and their weights
and thicknesses are summed.

The model has four modules:

- `Table` (`table.dfy`): Python's `str.strip()`, the header normalisation and
  the required-column check, and a `Frame` class for the table. The frame has
  a header row, index labels and rows. Its methods are the header
  reassignment, the boolean-mask filter and `reset_index`.
- `Furnace` (`furnace.dfy`): the two presets and the mapping from the chosen
  label to the two limits.
- `BinaryProgram` (`binary_program.dfy`): a maximisation problem over binary
  variables with linear "at most" constraints. It includes a `Problem` class
  that is built step by step like the `prob += ...` statements. The solving
  library is replaced by `Search`, an exhaustive include/exclude search. The
  model proves that `Search` is exact: its result is feasible, no feasible
  assignment has a larger objective, and it fails only when nothing is
  feasible.
- `Optimizer` (`optimizer.dfy`): plates, column sums, the furnace formulation,
  and the proof that the formulation means "the chosen rows fit and weigh
  the most". `Optimize` and `Run` are the imperative flow of the button
  handler.

Weights and thicknesses are real numbers, so fractional tonnages and
thicknesses are represented exactly. Any sign is admitted, as
in the source. The search therefore always explores both values of every
variable and returns `None` only when no assignment is feasible. With the
furnace limits, which are never negative, the empty selection is always
feasible, so the search always succeeds (`SearchLoadsBest`).

Where the documented intent and the code disagree, the model follows the code:

- Header names are only stripped of whitespace, not case-folded. A
  lower-case "plate weight" is refused (`AcceptedHeaders` states the exact
  condition).
- The code never rejects negative or zero weights or thicknesses. The model
  admits them too.
- The code never inspects the solve status, so no error path is modelled
  beyond `Status.Infeasible`. That status cannot arise for the furnace limits.
- A table with both headers and no rows is not reported with zero totals.
  The decision list is then empty, and pandas reads `df[[]]` as a selection
  of no columns rather than as a row mask. The sum of "Plate Weight" then
  raises `KeyError`. `Frame.Filter` keeps the header row only for a
  non-empty mask (`MaskColumns`). `Optimize` and `Run` return
  `Outcome.KeyError("Plate Weight")` exactly for such a table.

## Model

| member | source | states |
|---|---|---|
| `Table.StripLeft` | app.py:14 | the result is the suffix of the string after its leading run of stripped characters; everything removed is such a character; the result does not start with one |
| `Table.StripRight` | app.py:14 | the result is the prefix of the string before its trailing run of stripped characters; everything removed is such a character; the result does not end with one |
| `Table.StripChars` | app.py:14 | the stripped string has no stripped character at either end |
| `Table.Strip` | app.py:14 | `col.strip()` leaves no Python whitespace at either end of a header name |
| `Table.StripSlice` | app.py:14 | the stripped string is a contiguous slice of the input, with only stripped characters before and after it |
| `Table.StripLeftPadded` | app.py:14 | left-stripping a padded string removes exactly the padding |
| `Table.StripRightPadded` | app.py:14 | right-stripping a padded string removes exactly the padding |
| `Table.StripPadded` | app.py:14 | stripping `lead + core + trail` gives back `core` whenever the pads are strippable and `core` is trimmed |
| `Table.StripIdempotent` | app.py:14 | stripping a stripped name changes nothing |
| `Table.PrintableNotSpace` | app.py:14 | no printable ASCII character is Python whitespace, so header letters are never stripped |
| `Table.Normalized` | app.py:14 | the new header row has one entry per old header, each the stripped old name |
| `Table.HasPlateColumns` | app.py:16 | the table is accepted exactly when some header is "Plate Weight" and some header is "Plate Thickness"; an accepted header row has at least two names |
| `Table.AcceptedHeaders` | app.py:14-16 | a raw header row is accepted exactly when some header strips to "Plate Weight" and some header strips to "Plate Thickness" |
| `Table.PaddedHeadersAccepted` | app.py:14-16 | whitespace around the two required headers, wherever they stand, does not cause a refusal |
| `Table.Select` | app.py:40 | the boolean-mask filter keeps at most as many rows as the table has |
| `Table.PositionsFrom` | app.py:40 | there are no more kept positions than mask entries |
| `Table.PositionsKept` | app.py:40 | every kept position is in range and its mask entry is true |
| `Table.PositionsIncreasing` | app.py:40 | kept positions are strictly increasing: original order, no duplicates |
| `Table.PositionsComplete` | app.py:40 | every row whose mask entry is true is among the kept positions |
| `Table.Positions` | app.py:40 | the kept row numbers are in range, are rows with a true mask entry, strictly increase, and include every such row |
| `Table.SelectLength` | app.py:40 | the filtered table has one row per kept position |
| `Table.SelectAtFrom` | app.py:40 | row `j` of the filtered table is the input row at the `j`-th kept position, for any numbering base |
| `Table.SelectAt` | app.py:40 | row `j` of the filtered table is input row `Positions(mask)[j]`: nothing is added, duplicated or reordered |
| `Table.Range` | app.py:41 | the default index labels 0, 1, ..., n-1 |
| `Table.FilteredLabels` | app.py:40-41 | before the reset, the filtered table's index labels are the original row numbers of the kept rows |
| `Table.MaskColumns` | app.py:40 | `df[key]` for a non-empty boolean list keeps the header row; for the empty list it selects no column |
| `Table.MaskKeepsPlateColumns` | app.py:40-42 | after filtering an accepted table, both plate columns are still there exactly when the mask is not empty |
| `Table.Frame.constructor` | app.py:13 | a freshly read table carries the default index |
| `Table.Frame.StripColumnNames` | app.py:14 | the header row is replaced by its normalisation |
| `Table.Frame.Filter` | app.py:40 | `df[mask].copy()` is a new table with the kept rows and their original index labels; its header row is the old one for a non-empty mask and empty for the empty mask |
| `Table.Frame.ResetIndex` | app.py:41 | `reset_index(drop=True, inplace=True)` relabels the rows 0, 1, ... and leaves the rows unchanged |
| `Furnace.Capacity` | app.py:23 | the capacity is 100 exactly when the label contains '1', and 200 otherwise |
| `Furnace.MaxThickness` | app.py:24 | the thickness limit is 350 exactly when the capacity is 100, and 700 otherwise |
| `Furnace.ChoicesMatchLabels` | app.py:22-24 | the first choice gets (100, 350) and the second (200, 700), as their labels announce |
| `BinaryProgram.Dot` | app.py:32-36 | `lpSum(x[i] * c[i])` at a 0/1 assignment; never negative when no coefficient is |
| `BinaryProgram.NoneSet` | app.py:29 | the assignment with every variable unset has one entry per variable |
| `BinaryProgram.DotNoneSet` | app.py:32-36 | every linear expression is 0 when no variable is set |
| `BinaryProgram.NoneSetHolds` | app.py:35-36 | constraints with non-negative bounds are satisfied by setting nothing |
| `BinaryProgram.DotCons` | app.py:32 | a linear expression splits into its first term plus the rest |
| `BinaryProgram.Fix` | app.py:35-36 | fixing the first variable removes its coefficient and charges it against each bound when the variable is set |
| `BinaryProgram.FixHolds` | app.py:35-36 | an assignment starting with `b` is feasible exactly when its tail is feasible for the fixed constraints |
| `BinaryProgram.Search` | app.py:38 | any assignment the solver returns has one value per variable and satisfies every constraint |
| `BinaryProgram.SearchBeats` | app.py:28-38 | for every feasible assignment, the solver succeeds and its result's objective is at least as large |
| `BinaryProgram.SearchIsExact` | app.py:28-38 | the solver's result is optimal, and it fails only when no assignment is feasible |
| `BinaryProgram.Problem.constructor` | app.py:28-29 | a new maximisation problem with one binary variable per row, no objective terms and no constraints |
| `BinaryProgram.Problem.SetObjective` | app.py:32 | `prob += expression` makes the expression the objective |
| `BinaryProgram.Problem.AddConstraint` | app.py:35-36 | `prob += expression <= bound` appends the constraint |
| `BinaryProgram.Problem.Solve` | app.py:38 | on `Optimal` the variables hold an optimal feasible assignment; on `Infeasible` nothing is feasible (the model then keeps the old values) |
| `Optimizer.Column` | app.py:32 | one coefficient per row, namely that row's cell of the column |
| `Optimizer.Total` | app.py:42-43 | `.sum()` of a column: 0 for no rows, and never negative when no cell is |
| `Optimizer.TotalAppend` | app.py:42-43 | the sum over two runs of rows is the sum of their sums |
| `Optimizer.WeightLimit` | app.py:35 | the weight constraint has one coefficient per row, that row's weight, and the capacity as its bound |
| `Optimizer.ThicknessLimit` | app.py:36 | the thickness constraint has one coefficient per row, that row's thickness, and the thickness limit as its bound |
| `Optimizer.Limits` | app.py:35-36 | two constraints over one variable per row, bounded by the capacity and by the thickness limit, in that order |
| `Optimizer.BestLoadBeats` | app.py:38 | a best load fits, and weighs at least as much as any load that fits |
| `Optimizer.ExpressionIsTotal` | app.py:32-43 | the linear expression over a column, at a decision vector, equals the column's sum over the rows the vector keeps |
| `Optimizer.LimitsMeaning` | app.py:32-36 | an assignment satisfies both constraints exactly when the kept rows' total weight is within the capacity and their total thickness within the limit; the objective is their total weight |
| `Optimizer.SearchLoadsBest` | app.py:28-38 | with non-negative limits the solver succeeds; the chosen rows fit, and no fitting choice of rows weighs more |
| `Optimizer.EmptyTable` | app.py:38-42 | a table without rows is solved with the empty decision list, and filtering with it leaves no "Plate Weight" column to sum |
| `Optimizer.NothingChosen` | app.py:40-43 | choosing no row gives an empty selection whose two totals are 0 |
| `Optimizer.OnePlateTotals` | app.py:42-43 | the totals of a one-row table are the plate's cells when it is chosen and 0 otherwise |
| `Optimizer.OverweightBest` | app.py:35 | the best load of a one-row table whose plate is over the capacity leaves the plate out |
| `Optimizer.FittingBest` | app.py:32-36 | the best load of a one-row table whose plate has positive weight and fits both limits takes the plate |
| `Optimizer.OverweightPlateLeftOut` | app.py:35 | a single plate heavier than the capacity is not loaded |
| `Optimizer.FittingPlateLoaded` | app.py:32-36 | a single plate of positive weight within both limits is loaded |
| `Optimizer.FractionalPlateLoaded` | app.py:22-38 | a plate of 1.5 tons and 10.5 mm is loaded into the first furnace: fractional cells are compared with the limits as they are |
| `Optimizer.DotOfThree` | app.py:32 | a linear expression in three variables, written out term by term |
| `Optimizer.ThreePlateTotals` | app.py:42-43 | the totals of any choice among plates of 60.5, 50.25 and 39.5 tons, 100 mm each |
| `Optimizer.FirstAndThirdFit` | app.py:35-36 | loading the 60.5 and the 39.5 ton plates fits 100 tons and 250 mm and weighs 100 tons |
| `Optimizer.ThreeHeavyFit` | app.py:35-36 | a choice of the three plates fits 100 tons and 250 mm and weighs at least 100 tons exactly when it is the first and the third |
| `Optimizer.ThreeBestLoad` | app.py:28-38 | the best load of the three plates under 100 tons and 250 mm is the first and the third |
| `Optimizer.ThreePlateExample` | app.py:28-38 | the solver loads the 60.5 and 39.5 ton plates (100 tons, 200 mm) rather than 60.5 + 50.25 (over capacity) or 50.25 + 39.5 (lighter) |
| `Optimizer.Optimize` | app.py:23-43 | a `KeyError` on "Plate Weight" exactly when the table has no rows; otherwise the chosen decision vector has one entry per row, fits the chosen furnace's limits and is a heaviest fitting load, the selected table is a new table with the same header holding exactly the chosen rows in order, re-indexed 0, 1, ..., and the totals are the sums of its two columns |
| `Optimizer.Run` | app.py:14-43 | the header names are stripped; the table is refused exactly when a required column is missing; an accepted table without rows raises `KeyError` on "Plate Weight"; otherwise the outcome carries a heaviest fitting load, a new table with the same header holding exactly those rows re-indexed 0, 1, ..., and the sums of its two columns |

## Left out

- Streamlit page set-up, widgets, messages, metrics, table display and the button: presentation only. `Run` models one press of "Optimize" on an uploaded table.
- Reading the spreadsheet and writing the result workbook and download: file I/O. A table arrives as a `Frame` whose rows are already `Plate` records, so a missing, non-numeric or non-string cell or header is not modelled.
- Looking cells up by column name is modelled by the two fields of `Plate`. Other columns of a row travel with it unchanged, which `Select` being generic in the row type captures. Duplicate column names are not modelled.
- The PuLP/CBC solver behind `prob.solve()`: a foreign library. It is replaced by the exhaustive `Search`, which takes exponential time. Among loads of equal weight, `Search` prefers leaving a plate out; CBC may pick another of the tied loads.
- Floating-point rounding in the sums and in the solver, the `varValue == 1` comparison and the `:.2f`/`:.0f` formatting: quantities are exact reals and decisions are booleans.
- Solver time limits and failures: the source imposes none and checks no status.
- BinaryProgram.Problem.Solve: on `Infeasible` the model keeps the old variable values, whereas the library would report some values of its own. That branch cannot arise for the furnace limits, which are never negative.
- The spreadsheet export round trip: I/O.
