# Fama-French style-box loader, in Dafny

This project models the data-normalisation core of the dashboard script
`fama-french5andcarhart4-app.py`. The script reads three Kenneth French CSV
exports: the 25 size/value portfolios, the momentum factor and the five
factors. It finds each file's header line, keeps the monthly rows and turns
their `YYYYMM` keys into months. It scales percentages to fractions and
strips the column names. It then aligns the three tables on their common
months, picks four corner portfolios as the Small/Large × Value/Growth
styles, and adds Momentum and Market (`Mkt-RF + RF`). Finally it keeps the
months from January 1990 on.

Modules, in pipeline order:

- `Wrappers`: `Option`, which is the loader's `None`, and `Result`, which is an uncaught exception in the top-level script.
- `Text`: Python's substring test `k in s` and `str.strip()`. Whitespace is the full set of characters for which `str.isspace()` holds.
- `Periods`: months, the `%Y%m` parse and its inverse, the six-digit spelling.
- `Tables`: cells (a real, or NaN as `Missing`), rows, frames, and boolean-mask selection `Where`.
- `Loader`: `load_smart_csv_content`. The header scan is a method with a loop, proved against the function `HeaderRow`. The cleaning steps are functions. `Load` is the whole loader as a method, proved against `LoadSpec`.
- `Assembly`: lines 44 to 75. The index intersection, the column mapping, the momentum column choice, Market, the start-date filter, and `Run`, the script's top level as a method proved against `Dashboard`.

Points where the script's behaviour may surprise; the model follows the code:

- A six-character key that does not parse as `YYYYMM` makes the whole load `None`. The row is not dropped with a warning. `PaddedYearSinksLoad` shows this.
- The row filter tests only the length of the key, not that it is numeric.
- The momentum column is `"Mom"`, or else the first column. There is no alias list.
- A missing table, column or momentum header is an uncaught exception (`Failure`), not a typed error that other series survive.

Behaviour of pandas the model commits to:

- `pd.to_datetime(..., format="%Y%m")` takes exactly four digits for the year. It takes `01` to `12` for the month; a single month digit leaves unconverted data.
- The date must fit pandas' nanosecond timestamps (1677-09-21 to 2262-04-11). A key outside that range raises.
- `Index.intersection` yields each common month once, in the order of the left index.
- Assigning a `.loc` result whose month labels repeat raises. That is `RepeatedPeriod`.

## Model

| member | source | states |
|---|---|---|
| `Text.Contains` | fama-french5andcarhart4-app.py:20 | the empty keyword is in every line, and a keyword longer than the line is not in it |
| `Text.ContainsIff` | fama-french5andcarhart4-app.py:20 | the substring test `k in line` holds exactly when `k` occurs in the line at some offset |
| `Text.Strip` | fama-french5andcarhart4-app.py:38 | `c.strip()` has no whitespace at either end and is the name with only whitespace removed before and after it |
| `Text.StripIdempotent` | fama-french5andcarhart4-app.py:38 | stripping a stripped name changes nothing |
| `Periods.Parse` | fama-french5andcarhart4-app.py:34 | a key that parses gives a month 1..12 in pandas' timestamp range whose six-digit spelling is the key itself |
| `Periods.ParseFormat` | fama-french5andcarhart4-app.py:34 | every valid month is parsed back from its own `YYYYMM` spelling |
| `Periods.ParseIff` | fama-french5andcarhart4-app.py:34 | a key parses to month `p` if and only if `p` is valid and the key is its spelling |
| `Tables.Scale` | fama-french5andcarhart4-app.py:36 | dividing by 100 keeps NaN as NaN and numbers as numbers |
| `Tables.ScaleRoundTrip` | fama-french5andcarhart4-app.py:36 | the fraction times 100 is the percentage that was read |
| `Tables.Add` | fama-french5andcarhart4-app.py:71 | the sum of two cells is a number exactly when both are, and then it is their sum; NaN on either side gives NaN |
| `Tables.Where` | fama-french5andcarhart4-app.py:32 | mask selection keeps exactly the rows whose key passes the test |
| `Tables.WhereAppend` | fama-french5andcarhart4-app.py:32 | mask selection preserves the relative order of the rows it keeps |
| `Tables.WhereAll` | fama-french5andcarhart4-app.py:75 | a mask every row passes leaves the frame unchanged |
| `Loader.IsHeader` | fama-french5andcarhart4-app.py:20 | a line is a header exactly when some keyword occurs in it at some offset and a comma does too |
| `Loader.MentionsKeyword` | fama-french5andcarhart4-app.py:20 | `any(k in line for k in keywords)` holds exactly when some keyword occurs in the line at some offset |
| `Loader.HeaderRow` | fama-french5andcarhart4-app.py:17-25 | the header is a line with a keyword and a comma, no earlier line is one, and there is none exactly when no line qualifies |
| `Loader.FindHeader` | fama-french5andcarhart4-app.py:17-23 | the loop sets `found` and `start_row` to the first qualifying line, or leaves `False` and 0 when none qualifies, agreeing with `HeaderRow` |
| `Loader.KeepMonthly` | fama-french5andcarhart4-app.py:32 | every kept row has a six-character key and every six-character row is kept |
| `Loader.ParseKeys` | fama-french5andcarhart4-app.py:34 | the conversion fails exactly when some key does not parse; otherwise each row keeps its cells and gets its key's month |
| `Loader.MonthlyKeysFail` | fama-french5andcarhart4-app.py:32-34 | converting the kept keys fails exactly when some six-character key of the file does not parse |
| `Loader.ScaleRow` | fama-french5andcarhart4-app.py:36 | scaling keeps the key and the width, and each cell times 100 is the cell read |
| `Loader.StripAll` | fama-french5andcarhart4-app.py:38 | no cleaned column name has whitespace at either end, and each is its raw name trimmed |
| `Loader.StripAllIdempotent` | fama-french5andcarhart4-app.py:38 | cleaning the column names twice is cleaning them once |
| `Loader.Clean` | fama-french5andcarhart4-app.py:32-41 | the frame is `None` exactly when a six-character key fails to parse; otherwise its rows are the six-character rows in order, keyed by the months they spell, cells scaled, names stripped |
| `Loader.LoadSpec` | fama-french5andcarhart4-app.py:9-41 | the loader gives a frame exactly when a header line exists, `read_csv` succeeds from it and every six-character key parses; that frame has stripped column names and only valid months |
| `Loader.Load` | fama-french5andcarhart4-app.py:9-41 | the loader returns `None` when no line is a header and its column names are stripped, agreeing with `LoadSpec` |
| `Loader.MonthlyRowsLoaded` | fama-french5andcarhart4-app.py:32-34 | every six-character key of a successfully loaded file spells the month of some loaded row |
| `Loader.PaddedYearSinksLoad` | fama-french5andcarhart4-app.py:32-41 | a six-character key such as "  1990" passes the filter and makes the whole load `None` |
| `Assembly.Intersect` | fama-french5andcarhart4-app.py:50 | the intersection holds exactly the months in both indices, each once |
| `Assembly.Unique` | fama-french5andcarhart4-app.py:50 | the left index's `unique()` holds each of its months once |
| `Assembly.UniqueDistinct` | fama-french5andcarhart4-app.py:50 | an index without repeats is its own `unique()` |
| `Assembly.FilterIn` | fama-french5andcarhart4-app.py:50 | keeping the months of one index that occur in another gives exactly the months in both, no more than the first has |
| `Assembly.IntersectKeepsOrder` | fama-french5andcarhart4-app.py:50 | for every pair of indices, the intersection is the left index's `unique()` with the months the right lacks left out, so it keeps the left order |
| `Assembly.CommonIndex` | fama-french5andcarhart4-app.py:50-52 | a month is common exactly when it is in the 25-portfolio and five-factor tables, and in the momentum table when that loaded |
| `Assembly.MomentumColumn` | fama-french5andcarhart4-app.py:67 | `"Mom"` when present, otherwise the first column; always a column of the table, and none only for an empty header |
| `Assembly.At` | fama-french5andcarhart4-app.py:60-71 | the value `.loc` reads at a month and column is the cell of the one row carrying that month, in that column's position |
| `Assembly.Lookup` | fama-french5andcarhart4-app.py:60 | `.loc` fails exactly when the column or a month is absent, else gives the column's value at each month |
| `Assembly.Insert` | fama-french5andcarhart4-app.py:60 | a column can be assigned exactly when no month of the index has two rows |
| `Assembly.Column` | fama-french5andcarhart4-app.py:60-63 | a source column becomes a result column exactly when it exists, every month is present once, and then its values are the source's |
| `Assembly.StyleSeries` | fama-french5andcarhart4-app.py:60-63 | the four style columns are read from SMALL HiBM, BIG LoBM, SMALL LoBM and BIG HiBM, succeeding exactly when all four exist and months do not repeat |
| `Assembly.MomentumSeries` | fama-french5andcarhart4-app.py:66-68 | no momentum column without the momentum table, otherwise the chosen column's values, failing on an empty header |
| `Assembly.MarketSeries` | fama-french5andcarhart4-app.py:71 | Market at each month is Mkt-RF plus RF there, and needs both columns |
| `Assembly.Assemble` | fama-french5andcarhart4-app.py:50-71 | the merge succeeds exactly when both required tables loaded, their columns exist, the momentum header is not empty and no common month repeats; its index is the common index and each row holds the mapped values |
| `Assembly.MergedRows` | fama-french5andcarhart4-app.py:54-71 | each merged row carries the style values, the momentum value and Market for its month |
| `Assembly.NeverMissingPeriod` | fama-french5andcarhart4-app.py:50-71 | `.loc` never fails for a missing month, since every common month is in every contributing table |
| `Assembly.MomentumOnlyWhenLoaded` | fama-french5andcarhart4-app.py:51-68 | the Momentum column is present exactly when the momentum file loaded |
| `Assembly.SinceStart` | fama-french5andcarhart4-app.py:74-75 | exactly the rows dated 1990-01-01 or later remain, with the same columns |
| `Assembly.Since` | fama-french5andcarhart4-app.py:74-75 | the months an index keeps from 1990-01-01 on are exactly its months in the window, no more of them than the index has |
| `Assembly.KeysWhere` | fama-french5andcarhart4-app.py:74-75 | the filtered frame's index is its index filtered the same way, so months keep their order and multiplicity |
| `Assembly.SinceDistinct` | fama-french5andcarhart4-app.py:74-75 | filtering an index without repeated months gives one without repeated months |
| `Assembly.SinceStartKeepsWindow` | fama-french5andcarhart4-app.py:74-75 | a frame whose months all fall from 1990-01 on passes the filter unchanged |
| `Assembly.WindowIsYear` | fama-french5andcarhart4-app.py:74-75 | for a loadable month, being on or after 1990-01-01 is having year 1990 or later |
| `Assembly.FilteredMerge` | fama-french5andcarhart4-app.py:50-75 | the final index is the common index with the months before 1990-01 left out, each month once and in the common order; each final row holds the mapped style, momentum and Market values at its month |
| `Assembly.HeaderlessPortfoliosAbort` | fama-french5andcarhart4-app.py:25-50 | a 25-portfolio file with no header line stops the script at the merge |
| `Assembly.Dashboard` | fama-french5andcarhart4-app.py:44-75 | the final frame exists exactly when the three loaded tables can be merged; it then has the merged labels, an index that is the common index with the months before 1990-01 left out (each month once, in the common order), and in each row the mapped style, momentum and Market values |
| `Assembly.Run` | fama-french5andcarhart4-app.py:44-75 | the script succeeds exactly when the loaded tables can be merged, and then leaves the common index with the months before 1990-01 left out, each month once and in the common order, each row holding the mapped values; its result is `Dashboard`'s |

## Left out

- File reading (`open`, `readlines`): the loader takes the file's lines as a sequence.
- `pd.read_csv(..., skiprows=start_row, index_col=0)` is the parameter `readCsv`, applied to the lines from the header on; its `None` is an exception it raised. Its tokenising, quoting, padding and dtype inference are not part of this model. Each key is taken as the string `astype(str)` would give.
- `Loader.ScaleRow`: `pd.to_numeric(..., errors='coerce')` is assumed done by `readCsv`.
- `Tables.Scale`: division by 100 is exact real arithmetic, not floating point.
- `Tables.ScaleRoundTrip`: the round trip holds in real arithmetic only; with floating point, `x / 100 * 100` need not give back `x`.
- `Periods.Parse`: Python's `\d` also matches non-ASCII decimal digits; only ASCII digits are modelled.
- Repeated column names (possible after stripping) are not modelled; `.loc` is taken to read the first such column.
- A table that repeats a month outside the common index is allowed. The pandas fast paths that might keep a repeated month in the intersection of two sorted indices are not modelled.
- Cumulative wealth, CAGR, volatility, Sharpe ratio and maximum drawdown (lines 77-98): floating-point statistics. The script does not guard against zero periods or zero volatility.
- Plotting and printing (lines 100-114): presentation only.
- The exception types of the `except Exception` at line 40: any failure is `None`.
