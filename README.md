# Market breadth trend, modelled in Dafny

This project models the breadth aggregator of the S&P 500 market-trend
script: `StockMarketAnalyzer.analyze_trend`. The aggregator takes the daily
(close, volume) history of every stored ticker. For every trading day after
the first, it reports:

- the percentage of tickers whose close fell, and
- the percentage of the day's traded volume that went into those decliners.

The model follows the code step by step:

1. Empty series are dropped. With none left, the result is empty
   (`Align.NonEmpty`, `Breadth.AnalyzeTrend`).
2. The remaining series are joined on their dates with an inner join. Only
   dates that every remaining series has survive, and they are sorted
   ascending (`Align.CommonTo`, `Align.Sort`, `Align.AlignedDates`,
   `Align.Rows`).
3. For every pair of consecutive rows, every stored ticker is visited in
   storage order. A ticker counts when its previous close, current close and
   current volume are all present. It then adds 1 to `total` and its volume to
   `volume`. If its close fell strictly, it also adds 1 to `declining` and its
   volume to `volume_decline` (`DayCount`, `Breadth.CountDay`).
4. A record `(date, PctDeclining, PctVolumeDeclining)` is appended only when
   `total > 0` and `volume > 0` (`Breadth.AnalyzeTrend`).

`Breadth.AnalyzeTrend` is the imperative model: nested `while` loops with the
four counters and a growing `trend` sequence. It is proved equal to the
functional specification `Breadth.Trend`, and the module
`BreadthProperties` proves what the trend promises about that specification.
`Scenarios` works small concrete inputs through the specification.

Representation choices:

- A series is a sequence of `Sample(date, close, volume)`.
- Dates are abstract integers.
- Prices and volumes are `real`. A missing (NaN) cell is `None`.
- The percentages are exact real divisions.
- The analyzer's `stock_data` dictionary becomes the parameter `stockData`.
  It is a sequence of series in the dictionary's insertion order. An empty
  series has no columns in the joined table, so every lookup in it fails and
  it is skipped. This models the `KeyError` branch.
- Callers must pass series with a unique date index (`Market.WellFormed`).
  Daily download indexes have one date per row, so a repeated date is treated
  as a caller error.

Two details of the code shape the result:

- The join is an intersection (`join='inner'`, line 78). A date missing from
  any one non-empty series is dropped for every ticker.
- Only the previous close, the current close and the current volume are
  checked (line 94). The previous volume is never read
  (`DayCount.ValidComparison`, `Scenarios.MissingCells`).

## Model

| member | source | states |
|---|---|---|
| `Market.Lookup` | StockMarketAnalyzer.py:91-93 | a row is found at date `d` exactly when the series has date `d`; the row found carries date `d` and belongs to the series |
| `Market.LookupFinds` | StockMarketAnalyzer.py:91-93 | in a series with a unique date index, the row read at a sample's date is that very sample |
| `Align.NonEmpty` | StockMarketAnalyzer.py:73 | keeps exactly the series that are not empty |
| `Align.CommonTo` | StockMarketAnalyzer.py:78 | keeps exactly the candidate dates that every series has, and introduces no duplicate |
| `Align.Sort` | StockMarketAnalyzer.py:80 | the result is strictly ascending, has the same dates and the same length as the input |
| `Align.AlignedDates` | StockMarketAnalyzer.py:78-80 | the joined rows are strictly ascending, and a date is a row exactly when every non-empty series has it (inner join) |
| `Align.Rows` | StockMarketAnalyzer.py:73-80 | with no non-empty series there are no rows; otherwise the rows are exactly the dates common to all non-empty series, strictly ascending |
| `Align.RowsOrderIndependent` | StockMarketAnalyzer.py:78-80 | storing the same series in another order yields the same rows |
| `DayCount.ValidComparison` | StockMarketAnalyzer.py:91-94 | a ticker compares two dates exactly when its previous close, current close and current volume are present, and then with those values; the previous volume plays no part |
| `DayCount.TickerContribution` | StockMarketAnalyzer.py:89-101 | a ticker without a comparison leaves the day's counters as the other tickers make them; one with a comparison adds exactly 1 to `total`, its volume to `volume`, and 1 and its volume to `declining`/`volume_decline` only when its close fell strictly |
| `DayCount.DayTallyOrderIndependent` | StockMarketAnalyzer.py:87-101 | the day's four counters are the same for any order of visiting the same tickers |
| `DayCount.ContributionBounds` | StockMarketAnalyzer.py:94-99 | one ticker adds at most 1 to `total`, no more decliners than contributors, and with non-negative volumes a declining volume between 0 and its volume |
| `DayCount.TallyBounds` | StockMarketAnalyzer.py:95-99 | after `k` tickers, `declining <= total <= k`; with non-negative volumes `0 <= volume_decline <= volume` |
| `Breadth.CountDay` | StockMarketAnalyzer.py:87-101 | the inner loop leaves in its four counters exactly the day's tally over all stored tickers |
| `Breadth.AnalyzeTrend` | StockMarketAnalyzer.py:71-110 | the nested loops return exactly the specified trend, and the empty sequence when no series has data |
| `BreadthProperties.TrendUpToRecords` | StockMarketAnalyzer.py:84-108 | after visiting rows 1 .. n-1, the trend has at most `n - 1` records (none when `n <= 1`), each the record of one of those rows, with strictly ascending dates |
| `BreadthProperties.TrendShape` | StockMarketAnalyzer.py:84-108 | at most `len(rows) - 1` records; every record is dated by an aligned row after the first; no record for the first row; dates strictly ascending |
| `BreadthProperties.PointForDay` | StockMarketAnalyzer.py:103-108 | a record is emitted for aligned row `i >= 1` if and only if that day has `total > 0` and `volume > 0`, and it then holds `declining/total*100` and `volume_decline/volume*100` |
| `BreadthProperties.PercentagesInRange` | StockMarketAnalyzer.py:106-107 | every `PctDeclining` lies in [0, 100]; with non-negative volumes every `PctVolumeDeclining` does too |
| `BreadthProperties.TrendOrderIndependent` | StockMarketAnalyzer.py:78-101 | storing the same series in any other order yields the same trend |
| `Scenarios.TwoTickers` | StockMarketAnalyzer.py:84-108 | one ticker falling 100 to 90 on volume 10 and one rising 50 to 55 on volume 5 give the single record (day 1, 50, 200/3) |
| `Scenarios.MissingCells` | StockMarketAnalyzer.py:94-99 | with C (previous volume missing) and D (current volume missing) both falling, the day counts 1 ticker, 1 decliner and volume 10: D is left out although its close fell, and C still counts; the trend is the single record (day 1, 100, 100) |
| `Scenarios.SingleDate` | StockMarketAnalyzer.py:84 | a single aligned date yields no record |
| `Scenarios.InnerJoin` | StockMarketAnalyzer.py:78-80 | series with dates {0, 1, 2} and {2, 0} are aligned on the rows [0, 2] |

## Left out

- `_get_sp500_tickers` (StockMarketAnalyzer.py:50-55) is not modelled. It scrapes a web page; the ticker list is not part of the model.
- `fetch_data` (StockMarketAnalyzer.py:57-69) is not modelled. It downloads over the network, reads the wall clock and prints failures. Its result is the `stockData` parameter.
- `plot_trend` (StockMarketAnalyzer.py:112-131) and the script entry point (lines 134-138) are not modelled. They only render a chart.
- The analyzer's constructor (StockMarketAnalyzer.py:45-48) is not modelled. It stores the window length, the ticker list returned by `_get_sp500_tickers`, and an empty `stock_data` dictionary. An analyzer that never fetched corresponds to the empty `stockData`.
- The warning printed when there is no data (line 75) is not modelled. Only the empty result is.
- pandas is not modelled: the DataFrame result, the `{ticker}_Close` / `{ticker}_Volume` column naming, and the `to_datetime` conversion. Records are a sequence of `Point`, an empty DataFrame is the empty sequence, and dates are integers.
- Floating point and NaN are not modelled. Prices, volumes and percentages are exact reals, and a missing cell is `None`.
- Breadth.AnalyzeTrend: requires every series to have a unique date index, so it does not model an input with a repeated date. With two or more differing indexes, such an input makes the join on line 78 raise. With a single non-empty series, the code runs over the repeated rows unchanged. `Align.Rows` carries the same requirement.
