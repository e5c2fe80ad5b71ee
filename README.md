# Economic dashboard data pipeline, modelled in Dafny

This project models the data core of an economic-indicator dashboard written in
Python with pandas:

- **Series cleaning** (`clean_fred_data` in `scripts/clean_data.py`). A raw
  two-column CSV table of one economic series is coerced: dates with
  `pd.to_datetime`, values with `pd.to_numeric`, both with `errors='coerce'`.
  Rows where either coercion failed are dropped. Repeated dates keep their
  first row. The value column is renamed after the series. Every failure gives
  the empty frame and nothing is raised.
- **Merge** (`main` in the same script). The four FRED datasets are cleaned one
  by one. Each one whose file exists and whose cleaned frame is not empty takes
  part. The cleaned series are folded with a full outer join on `date`, and the
  result is sorted by date. With no participating series there is no merge.
- **Dashboard frame** (`create_economic_data` and `numeric_columns` in
  `app.py`). The frame has one row per day from 2000-01-01 to 2025-09-20. It has
  five indicator columns; FEDFUNDS is clamped to [0.1, 10] and UNRATE to
  [3.2, 12]. Two year-over-year percent changes are added in place
  (`pct_change(365) * 100`). Every column is then forward-filled.
- **Data table query** (`update_charts` in `app.py`, and the table's initial
  data). The frame is filtered to an inclusive date range, and the last ten
  rows are shown.

Dates are day numbers (`int`); values are `real`; a missing cell (NaN/NaT) is
`None`. The files are:

| file | module | contents |
|---|---|---|
| `tables.dfy` | `Tables` | `Option`, dated entries, date sets, ordering predicates, lookup by date, subsequences |
| `cleaning.dfy` | `Cleaning`, `CleaningProperties` | `clean_fred_data` and what it promises about the raw rows |
| `merging.dfy` | `Merging`, `MergingProperties` | the loop over the datasets, the outer-join fold and the sort in `main`; the merge's specification `IsMergeOf` and its consequences |
| `derivation.dfy` | `Derivation` | day axis, clamp, percent change, forward fill, the dashboard's frame as a class, `numeric_columns` |
| `query.dfy` | `Query` | the date-range filter and `tail(10)` |

The CSV reader and both pandas parsers are inputs. The reader is a map from
file name to `Option<RawTable>` (`None` when reading raised; no key when the
file does not exist). The parsers are functions `string -> Option<...>`. The
generated (unclamped) indicator values are given sequences.

The merge is specified once, by `Merging.IsMergeOf`:
- the indicator columns are the series names in order;
- the dates ascend strictly;
- the dates are the union of the series' dates;
- each cell is that series' value on that date, or missing.

`MergingProperties.MergeIsUnique` proves that this determines the table.
`Merging.CleanAndMerge` is proved to produce it.

## Model

| member | source | states |
|---|---|---|
| Cleaning.Clean | scripts/clean_data.py:5-52 | An unreadable file, a table with fewer than two columns, and a table with more than two (whose column assignment raises and is caught) all give the empty frame; a two-column table gives the columns `date` and the series name, with pairwise distinct dates |
| Cleaning.DropMissing | scripts/clean_data.py:36 | The rows kept are exactly the rows whose date and value both parsed: a subsequence of the parsed rows, as many as there are complete ones, and every complete row's date is kept |
| Cleaning.KeepFirst | scripts/clean_data.py:39 | The scan keeps an in-order subsequence with distinct dates, covering every date not already seen, each with the value of that date's first row, in the order of the dates' first occurrences |
| Cleaning.DropDuplicates | scripts/clean_data.py:39 | Dropping duplicate dates keeps an in-order subsequence with distinct dates, loses no date, and keeps each date's first value, the dates in the order of their first occurrences |
| CleaningProperties.CleanKeepsOrder | scripts/clean_data.py:30-39 | Cleaning only removes rows: the result, read back as parsed rows, is a subsequence of the coerced raw rows in their order |
| CleaningProperties.CleanPointsParsed | scripts/clean_data.py:30-36 | Every output row comes from a raw row whose date and value both parsed to exactly that date and value |
| CleaningProperties.CleanKeepsEveryParsedDate | scripts/clean_data.py:30-39 | Every raw row whose date and value both parse has its date in the output |
| CleaningProperties.AtDropMissing | scripts/clean_data.py:36 | The value the complete rows give a date is that of the first raw row complete with that date |
| CleaningProperties.CleanKeepsFirst | scripts/clean_data.py:39 | For a repeated date the row kept is the first raw row with that date whose value also parsed: no earlier raw row has that date with a parsed value |
| CleaningProperties.KeepFirstOfDistinct | scripts/clean_data.py:39 | Rows whose dates are already distinct pass the duplicate removal unchanged |
| CleaningProperties.DropDuplicatesIdempotent | scripts/clean_data.py:39 | Removing duplicate dates twice is removing them once |
| Merging.FirstTable | scripts/clean_data.py:100 | The first participating series alone is already a join of that one series |
| Merging.RightOnly | scripts/clean_data.py:104 | The rows the outer join adds for dates only on the right have distinct dates, are exactly the right dates not on the left, and have missing left cells before the right value |
| Merging.ExtendRows | scripts/clean_data.py:104 | Each left row keeps its date and cells and gains the right series' value at that date, or missing |
| Merging.OuterJoin | scripts/clean_data.py:104 | The outer join appends the series' column, keeps dates distinct, has the union of both sides' dates, and every row holds the left cells and the right value at its date |
| Merging.RightOnlyJoined | scripts/clean_data.py:104 | Each right-only row is a joined row: the left cells are all missing and the last cell is the right value |
| Merging.JoinedRowAligned | scripts/clean_data.py:103-104 | A row of the fold's next join holds, in order, every series' value at its date |
| Merging.OuterJoinStep | scripts/clean_data.py:103-104 | One merge step keeps the accumulator a join of all series so far: names in order, distinct dates, the union of their dates, every cell aligned |
| Merging.UnionDatesCovers | scripts/clean_data.py:104 | Every series' dates are among the merged dates |
| Merging.Insert | scripts/clean_data.py:107 | Inserting a row gives a reordering of the rows plus that row |
| Merging.InsertSorted | scripts/clean_data.py:107 | Inserting into rows ascending by date keeps them ascending, strictly so when the new date is not already present |
| Merging.SortByDate | scripts/clean_data.py:107 | `sort_values('date')` returns a permutation of the rows, ascending by date, strictly ascending when the dates are distinct |
| Merging.AlignedPermutation | scripts/clean_data.py:107 | Sorting the rows keeps every cell aligned with its date |
| Merging.DateSetPermutation | scripts/clean_data.py:107 | Sorting the rows keeps their set of dates |
| Merging.Participating | scripts/clean_data.py:72-93 | The series that take part are exactly those of datasets whose file exists and whose cleaned frame is not empty; each has distinct dates and at least one row |
| Merging.ParticipatingInOrder | scripts/clean_data.py:74-89 | The names of the participating series are a subsequence of the dataset table's names: each dataset contributes at most once, in table order |
| Merging.CleanAndMerge | scripts/clean_data.py:72-117 | The first loop collects the participating series in dataset order; there is no merge exactly when none participates; otherwise the result meets the merge specification |
| Merging.MergeSeries | scripts/clean_data.py:96-107 | Starting from the first series, outer-joining each following one on `date` and sorting by date yields a table that meets the merge specification for those series |
| Merging.CleanAll | scripts/clean_data.py:63-117 | `main` over its four datasets: the series taking part are a subsequence of `cpi`, `fedfunds`, `gdp`, `unemployment`; there is no merge exactly when none takes part; otherwise the result meets the merge specification |
| MergingProperties.UnionDatesCard | scripts/clean_data.py:100-104 | The merged dates number at most the total length of the series |
| MergingProperties.MergedRowCount | scripts/clean_data.py:100-107 | The merged table has at least as many rows as the longest series and at most as many as all series together |
| MergingProperties.AscendingSameDates | scripts/clean_data.py:107 | Two strictly ascending tables with the same dates have the same date column |
| MergingProperties.MergeIsUnique | scripts/clean_data.py:96-107 | Two tables that both meet the merge specification for the same series are equal |
| MergingProperties.MergeExample | scripts/clean_data.py:100-107 | Series `a` on days 1 and 2 and `b` on days 2 and 3 merge into three rows, with `b` missing on day 1 and `a` missing on day 3 |
| Derivation.DayAxis | app.py:23-30 | The axis has `end - start + 1` days (none when end is before start), the i-th is `start + i`, it runs from start to end in steps of one day, and it holds exactly the days from start to end |
| Derivation.DayAxisLength | app.py:23-27 | The dashboard's axis from 2000-01-01 to 2025-09-20 has 9395 days |
| Derivation.Clip | app.py:44-45 | The clamped value lies in the interval, equals the input when the input is inside, and is the nearer bound otherwise |
| Derivation.FedFunds | app.py:44 | Every FEDFUNDS value lies in [0.1, 10], and a generated value already inside is unchanged |
| Derivation.Unrate | app.py:45 | Every UNRATE value lies in [3.2, 12], and a generated value already inside is unchanged |
| Derivation.PercentChange | app.py:51-52 | Row t is missing exactly when t < 365 (the lag), and otherwise is `(x[t] - x[t-lag]) / x[t-lag] * 100` |
| Derivation.FFill | app.py:53 | The forward fill keeps the column's length and leaves every present cell unchanged |
| Derivation.FillForward | app.py:53 | The left-to-right scan carrying the last value seen computes the forward fill |
| Derivation.FFillFromLatest | app.py:53 | A missing cell takes the most recent earlier present value of its column |
| Derivation.FFillLeading | app.py:53 | Missing cells before a column's first value stay missing |
| Derivation.FFillIdempotent | app.py:53 | Filling forward twice is filling forward once |
| Derivation.LastKnownOfFilled | app.py:53 | In a filled column, the last known value at each row is that row's cell |
| Derivation.FFillOfPercentChange | app.py:51-53 | The forward fill leaves a percent-change column as it was: its 365 missing rows lead the column |
| Derivation.NumericColumns | app.py:60 | The selection holds exactly the labels, other than `date`, of numeric columns, in column order |
| Derivation.NumericColumnsOfFrame | app.py:60 | For a frame whose first column is `date` and whose other columns are numeric, the selection is exactly the other columns in order |
| Derivation.EconomicFrame.constructor | app.py:41-48 | The frame holds the given date axis and named columns |
| Derivation.EconomicFrame.SetColumn | app.py:51-52 | Assigning `df[name]` replaces the column of that name in place, or appends a new column last; the dates do not change |
| Derivation.EconomicFrame.FillForwardAll | app.py:53 | Every column is replaced by its forward fill; dates and names are unchanged |
| Derivation.CreateEconomicData | app.py:18-55 | The new frame has the 9395-day axis, the seven indicators in order (FEDFUNDS and UNRATE clamped, GDP_Growth and Inflation the 365-day percent changes of GDP and CPIAUCSL), no cell changed by the forward fill, and `numeric_columns` equal to those seven names |
| Query.InRange | app.py:183 | Every filtered row is dated within the inclusive range, there are no more of them than rows, and a range whose start is after its end gives none |
| Query.InRangeKeeps | app.py:183 | The filter keeps the frame's order and invents no row (an in-order subsequence), and every row of the range is among the filtered rows |
| Query.InRangeConcat | app.py:183 | Filtering the rows of two tables one after the other is filtering them together |
| Query.Tail | app.py:198 | `tail(n)` is the suffix of length `min(n, len)` |
| Query.TableData | app.py:183-198 | The table shows at most ten rows, each within the range |
| Query.TableDataKeepsOrder | app.py:183-198 | The table's rows are rows of the frame, in the frame's order |
| Query.SubsequenceStrictlyAscending | app.py:183 | Filtering a frame whose dates ascend keeps them ascending |
| Query.TailIsLatest | app.py:198 | The last rows of a strictly ascending table are later than every row left out |
| Query.TableDataIsLatest | app.py:183-198 | For a frame ascending by date the table ascends and holds the latest rows of the range: every row of the range left out is older than every row shown |
| Query.InRangeOfBlock | app.py:183 | When the rows within the range are exactly those at positions lo to hi - 1, the filter returns that slice |
| Query.InRangeOfContiguous | app.py:183 | Over rows dated one day apart, the filter is one slice whose bounds are the range clamped to the frame |
| Query.DashboardTable | app.py:183-198 | On the dashboard's frame the table is the last `min(10, k)` rows of the `k`-row slice of the range |
| Query.InitialTable | app.py:152 | The table before any callback shows exactly the ten days ending 2025-09-20 |

## Left out

- Dash layout, styling, the dropdown and date-picker wiring and the server start: presentation only.
- The Plotly figures that `update_charts` builds, and the column choice `filtered_df[primary_ind]` that feeds them: chart rendering through a library outside this model.
- The random noise (`np.random.seed`, `np.random.normal`) and the trend and sine formulas: a pseudorandom generator and floating-point numerics. The unclamped values are inputs (`Derivation.Generated`).
- CSV reading and writing, directory creation and all printing: file I/O. The reader is a map of file results and `main`'s file output is not modelled.
- `pd.to_datetime` and `pd.to_numeric`: abstract parsers given as inputs. The start and end dates of the callback arrive already parsed.
- Derivation.PercentChange: requires every lagged value to be non-zero, because pandas' division by zero gives inf or NaN under IEEE arithmetic, which is not modelled.
- Merging.OuterJoin: pandas sorts the join keys of an outer merge; this is not modelled because the final `sort_values` on distinct dates fixes the order anyway.
- Merging.CleanAndMerge: requires distinct dataset names, as the literal dict in `main` has, and no series named `date`, as none in that dict is. With a series named `date` the two columns labelled `date` make `pd.merge(on='date')` (and `sort_values('date')`) raise because the label is not unique; `main` does not catch that and stops, which the model does not represent.
- `reset_index(drop=True)` after the sort: the model has no row index.
- `verify_dates.py` repeats the day enumeration of `app.py` and is not part of this model. `download_data.py` and `fred_data.py` fetch series from FRED over the network (`fred_data.py` also plots them), `inspect_data.py` and `debug_columns.py` print what is in the merged data file (`inspect_data.py` also whether `FRED_API_KEY` is set), and `visualize_data.py` plots the merged file; none of them is part of this model. `fetch_data.py` fetches nothing: it checks for `.env` files, a few environment variables and python-dotenv, and can write a sample `.env` after asking through `input()`; it is not part of this model. `debug_timezone.py` and `test_dates.py` print the first and last dates and the count of the month-start dates that `pd.date_range` builds up to the current wall-clock date (local and UTC in `debug_timezone.py`); they are not part of this model. `deadline_data.py` only runs `download_data.py` and then `clean_data.py` as subprocesses; that process orchestration is not part of this model.
