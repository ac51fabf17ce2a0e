# Stock data fetch and moving averages: a Dafny model

This project models the data core of a small stock-analysis tool. The tool
fetches daily bars for Shanghai/Shenzhen ("A") shares and Hong Kong shares
from a remote market-data provider (Tushare). It normalises them to the
columns `date, Open, High, Low, Close, Volume`, reads them back from CSV, and
adds 5- and 20-row moving averages of `Close`.

The modelled parts are these:

- **`identify_market`** (module `Market`). It classifies an identifier the
  way Python's `re.match` does with `^\d{6}\.(SH|SZ)$` and `^\d{5,6}\.HK$`.
  - `\d` is any Unicode decimal digit (category Nd), not only `0`-`9`.
  - `$` also matches before a single final newline.
  - The model proves that the result is 'A' exactly for six digits followed
    by `.SH`/`.SZ`, and 'HK' exactly for five or six digits followed by `.HK`.
  - Every other identifier raises.
- **`fetch_stock_data` in `src/data_fetch.py`** (module `Fetch`). The body runs
  in this order:
  1. Classify the identifier and route to the endpoint of its market.
  2. An empty answer gives `None`.
  3. Rename the columns.
  4. Parse the dates.
  5. Project onto the six canonical columns.
  6. Sort by date.
  7. Drop duplicate dates, keeping the last row of each.

  Every failure inside the body becomes `DataFetchError`. The retry decorator
  is modelled as at most three attempts, each answered by its own provider
  behaviour. Sorting follows pandas' unstable `sort_values`, so the
  deduplication result is proved for every sorted arrangement of the rows,
  not only for the one the model's sort produces.
- **`fetch_stock_data` in `data_fatch.py`** (module `LegacyFetch`). This is the
  older fetcher:
  - It sorts on the raw `trade_date` text, then parses it with `%Y%m%d`.
  - It renames and keeps the six columns, and drops no duplicates.
  - Any exception becomes `None`.

  Because Python's string order on `YYYYMMDD` text is chronological order
  (proved in `Dates`), the output is in date order.
- **`load_data`** and **`calculate_moving_averages`** in
  `src/data_visualization.py` (module `Visualization`).
  - `load_data` never raises. A missing file, a failed read, or a missing
    `date` or `Close` column gives an empty frame. Otherwise the rows whose
    date did not parse are dropped, and the rest keep their order.
  - `calculate_moving_averages` mutates the caller's frame, modelled as the
    class `PriceFrame`. It fills each average with a one-pass rolling-mean
    loop (`RollingMean`), in the same form as pandas' online
    algorithm. The loop is proved equal to the trailing-window mean
    `TrailingMean`: undefined for the first `w - 1` rows and for any window
    holding a NaN.

Shared pieces:

- `Wrappers`: `Option`/`Result`.
- `Dates`: calendar dates, the `YYYYMMDD` text form, and Python string order.
- `Sorting`: comparator sorting and mapping.
- `Schema`: cells, rows and frames.
- `Provider`: the provider's frames, the column renaming and the canonical bar.

## Model

| member | source | states |
|---|---|---|
| Market.IdentifyMarket | src/data_fetch.py:28-35 | a recognised identifier, less one final newline, is five or six digits, `.` and a two-letter suffix; 'A' needs six digits and `SH` or `SZ`, 'HK' needs `HK` |
| Market.DomesticExactly | src/data_fetch.py:30-31 | the result is 'A' if and only if the identifier is six Unicode decimal digits, `.`, `SH` or `SZ`, optionally followed by one newline |
| Market.HongKongExactly | src/data_fetch.py:32-33 | the result is 'HK' if and only if the identifier is five or six Unicode decimal digits, `.HK`, optionally followed by one newline |
| Market.HongKongSpelled | src/data_fetch.py:32-33 | a code that `re.match` accepts as Hong Kong is five or six digits, `.HK` and at most one newline |
| Market.HongKongRecognised | src/data_fetch.py:32-33 | every five- or six-digit `.HK` code, with or without one final newline, is classified 'HK' |
| Market.OtherwiseInvalid | src/data_fetch.py:28-35 | no identifier matches both patterns; the function raises exactly for identifiers matching neither |
| Market.Examples | src/data_fetch.py:28-35 | the sample identifiers are classified correctly; a doubled newline, four digits or lower-case `sz` raise; Arabic-Indic digits are accepted |
| Provider.Rename | src/data_fetch.py:63-71 | a canonical name is left alone; a name changes if and only if it is one of the six provider fields, and each field becomes its own canonical column |
| Provider.ProviderName | src/data_fetch.py:63-70 | each canonical column has a provider field that the renaming maps onto it |
| Provider.SourceOfIsRenamePreimage | src/data_fetch.py:71 | the column found for a canonical name is exactly the provider column the renaming turns into that name |
| Provider.Missing | src/data_fetch.py:76 | the names the projection cannot find are exactly the requested names no column renames to; none are missing if and only if all are found |
| Provider.Resolve | src/data_fetch.py:74-76 | the six-column projection succeeds if and only if no canonical column is missing, and each of the six comes from the column found for that canonical name |
| Provider.ParseDateCell | src/data_fetch.py:75 | a date cell parses if and only if it is text in the `YYYYMMDD` form of a representable date |
| Provider.Bars | src/data_fetch.py:76 | projection keeps the row count and maps every row to its canonical bar, in place |
| Provider.DateLeIsTotalPreorder | src/data_fetch.py:77 | ordering bars by date is a total preorder, so sorting by it is well defined |
| Sorting.SortBy | src/data_fetch.py:77 | the sorted rows are in comparator order and are a permutation of the input |
| Sorting.MapPermutation | data_fatch.py:25-35 | projecting each row commutes with reordering: permuted rows give permuted bars |
| Fetch.KeepLast | src/data_fetch.py:81-83 | `drop_duplicates('date', keep='last')` leaves distinct dates, the same set of dates, and only input rows |
| Fetch.Deduplicate | src/data_fetch.py:81-83 | the result never has more rows, has distinct dates and the same set of dates, and holds only input rows, whether or not a date repeated |
| Fetch.KeepLastSorted | src/data_fetch.py:81-83 | dropping duplicates from date-sorted rows leaves them sorted |
| Fetch.KeepLastKeepsLast | src/data_fetch.py:83 | the last row of each date is kept |
| Fetch.KeepLastOfDistinct | src/data_fetch.py:81 | rows with no duplicate date are left unchanged |
| Fetch.DistinctDatesCount | src/data_fetch.py:81-83 | with distinct dates there is one row per date |
| Fetch.DedupOfAnySort | src/data_fetch.py:77-83 | for any date-sorted permutation of the bars, deduplication gives strictly increasing dates, every input date once, only input rows, and the last row of each date |
| Fetch.Normalize | src/data_fetch.py:58-85 | the body raises only a missing-column or a bad-date error, the latter only when some date in the provider's date column does not parse; a table has the canonical columns and no more rows than the answer |
| Fetch.NormalizeOutcome | src/data_fetch.py:58-89 | an empty answer gives `None` and nothing else does; the body succeeds if and only if every canonical column is present and every date parses; a missing-column error names only missing canonical columns |
| Fetch.PipelineOutput | src/data_fetch.py:74-83 | projecting, sorting by date and dropping duplicates gives strictly increasing dates, one row per input date, each projected from an input row |
| Fetch.NormalizeOutput | src/data_fetch.py:62-85 | on success: canonical columns, dates strictly increasing, exactly one row per input date, every row the projection of an input row |
| Fetch.InvalidIdentifierFails | src/data_fetch.py:45-46 | an identifier matching neither pattern gives `DataFetchError`, whatever the provider would answer |
| Fetch.RoutesByMarket | src/data_fetch.py:51-54 | an A-share identifier is sent to the daily endpoint with its adjustment mode, a Hong Kong one to the Hong Kong endpoint, and the result depends on that call alone |
| Fetch.FetchOnce | src/data_fetch.py:45-89 | an attempt fails as an invalid identifier if and only if `identify_market` raises, and as a provider failure if and only if the market's endpoint raised |
| Fetch.FetchOnceOutcome | src/data_fetch.py:45-89 | one attempt succeeds if and only if the identifier is valid, the provider answers, and normalisation succeeds, and then its result is the normalised frame; every failure is `DataFetchError` |
| Fetch.RetryFrom | src/data_fetch.py:37-38 | at most three attempts are made; a returned table is the result of the last attempt made; giving up happens after the third attempt, with that attempt's failure |
| Fetch.FetchStockData | src/data_fetch.py:37-38 | one to three attempts; a returned table is what the body returned on the last attempt; giving up carries the third attempt's `DataFetchError` |
| Fetch.RetryOutcome | src/data_fetch.py:37 | at most three attempts; the result is the first successful attempt; the decorator gives up, with the last failure, if and only if all three attempts fail |
| Fetch.InvalidIdentifierExhaustsRetries | src/data_fetch.py:37-46 | a malformed identifier is retried like any failure and ends in giving up after three attempts |
| Dates.ParseYmd | data_fatch.py:26 | a parsed `%Y%m%d` date is a real calendar date inside the pandas Timestamp range |
| Dates.ParseFormat | data_fatch.py:26 | formatting a representable date as `%Y%m%d` and parsing it returns the date |
| Dates.FormatParse | data_fatch.py:26 | text that parses is exactly the formatting of its date |
| Dates.LexLessTrichotomy | data_fatch.py:25 | Python string order is total |
| Dates.LexLessTransitive | data_fatch.py:25 | Python string order is transitive |
| Dates.LexLessIsNumeric | data_fatch.py:25 | for equal-length digit strings, string order is numeric order |
| Dates.LexOrderIsChronological | data_fatch.py:25-26 | for `YYYYMMDD` text that parses, string order is chronological order and equal text is equal dates |
| LegacyFetch.Fails | data_fatch.py:17-38 | when nothing raises, the provider answered with a non-empty frame holding all six canonical columns and its dates come from `trade_date` |
| LegacyFetch.TradeDateLeIsTotalPreorder | data_fatch.py:25 | ordering rows by their `trade_date` text is a total preorder |
| LegacyFetch.SameRowsSameParse | data_fatch.py:25-26 | sorting does not change whether every date parses |
| LegacyFetch.TextOrderIsDateOrder | data_fatch.py:25-26 | rows sorted by `trade_date` text give bars sorted by date |
| LegacyFetch.FetchStockData | data_fatch.py:17-38 | returns `None` exactly when the call raised, the frame was empty, `trade_date` was missing, a date did not parse, or a canonical column was missing; otherwise the canonical columns, every row kept (no deduplication), in date order, and a permutation of the projected rows |
| Visualization.DropUndated | src/data_visualization.py:55-56 | `dropna` never adds rows |
| Visualization.DropUndatedSelects | src/data_visualization.py:55-56 | `dropna` keeps exactly the rows whose date parsed, in their original order |
| Visualization.LoadData | src/data_visualization.py:42-62 | every loaded row has a parsed date and comes from the file; a well-formed file gives a well-formed frame |
| Visualization.LoadDataOutcome | src/data_visualization.py:42-62 | a missing file, a failed read, or a missing `date` or `Close` column gives an empty frame; otherwise the columns are kept and the rows are the dated rows in order |
| Visualization.TrailingMean | src/data_visualization.py:66-67 | the mean is defined if and only if the row has `w - 1` predecessors and no close in its window is NaN, and then `w` times it is the window's sum |
| Visualization.PresentCountAll | src/data_visualization.py:66-67 | the count of non-NaN values reaches the window length if and only if the window has no NaN |
| Visualization.WindowAdvance | src/data_visualization.py:66-67 | one step of the rolling loop: the running sum and non-NaN count lose the row leaving the window and gain the row entering it |
| Visualization.WindowResult | src/data_visualization.py:66-67 | the running sum over the running count, taken once the count reaches the window size, is the trailing mean |
| Visualization.RollingMean | src/data_visualization.py:66-67 | the one-pass add/remove loop gives, at every row, the trailing `w`-row mean: undefined before row `w - 1` or when the window holds a NaN |
| Visualization.SlidingUpdate | src/data_visualization.py:66-67 | consecutive trailing means differ by the entering close minus the leaving close, over `w` |
| Visualization.MeanWithinWindow | src/data_visualization.py:66-67 | a trailing mean lies between the smallest and the largest close in its window |
| Visualization.TrailingMeanExamples | src/data_visualization.py:66-67 | closes 10, 20, 30, 40, 50 give MA5 = 30 at the fifth row, no MA5 before it, and no MA20 at all |
| Visualization.ClosePrices | src/data_visualization.py:66 | the closes are read if and only if every row's `Close` is a number or NaN, and then, row by row, the number or NaN |
| Visualization.CloseColumn | src/data_visualization.py:66 | the `Close` prices exist if and only if the column exists and every cell is a number or NaN, and then they are, row by row, that number or NaN |
| Visualization.AddAverages | src/data_visualization.py:66-67 | writing `MA5` and `MA20` keeps the row count, adds exactly those two keys to each row, stores the given values and leaves every other cell unchanged |
| Visualization.WithMovingAverages | src/data_visualization.py:64-68 | every row gets its trailing 5-row mean in `MA5` and its trailing 20-row mean in `MA20` |
| Visualization.AveragesShape | src/data_visualization.py:66-67 | writing `MA5` and `MA20` keeps the frame well formed, the row count and every existing column in its position, and adds exactly those two columns |
| Visualization.MovingAveragesKeepFrame | src/data_visualization.py:64-68 | adding the averages keeps the frame well formed, the row count, every existing column in place with its cells, adds exactly `MA5` and `MA20`, and puts the trailing 5- and 20-row means in `MA5` and `MA20` |
| Visualization.PriceFrame.constructor | src/data_visualization.py:64 | the frame holds the caller's columns and rows |
| Visualization.PriceFrame.CalculateMovingAverages | src/data_visualization.py:64-68 | in place: when `Close` is usable the frame becomes the input with `MA5` and `MA20` added, otherwise it is unchanged and the call reports failure |

## Left out

- Credentials, the provider client and the network are not modelled. A provider call is a function parameter: `Endpoint -> Answer`, or one such function per retry attempt.
- `time.sleep`, logging, `print` and the `__main__` blocks have no effect on results and are not modelled.
- `plot_kline` and the root `data_visualization.py` are plotting and are not modelled.
- CSV reading and writing are not modelled. `load_data` receives what `read_csv` produced, as `CsvSource`: no file, a read that raised, or the frame. Date cells are already coerced, with a `Stamp` for each parsed date. `read_csv` raising on a missing `date` column with `parse_dates` is covered by `Unreadable`, because it also yields the empty frame.
- The `start_date`/`end_date` conversion (src/data_fetch.py:47-48) is not modelled. The dates only go to the provider, and a bad one raises inside the body, which gives the same `DataFetchError` as any other failure there.
- Provider.ParseDateCell: `pd.to_datetime` without a format also accepts other date spellings. The model accepts only `YYYYMMDD` text, the form the provider sends. A numeric or null date cell counts as a parse failure.
- Provider.ProviderFrame: frames in which two provider columns rename to the same name are excluded by the type, since the provider never sends them.
- Fetch.RetryOutcome: tenacity's exponential waits (4-10 s) are not modelled; only the attempt limit and the give-up result are.
- The `else: raise DataFetchError` branch at src/data_fetch.py:55-56 cannot be reached, because `identify_market` returns only 'A' or 'HK'. The model's match on the market has no such case.
- Prices are `real`, not IEEE doubles, so rounding in the rolling sum is not modelled. NaN is `None`.
- Visualization.CloseColumn: any text or timestamp cell in `Close` counts as non-numeric, and the call fails before writing anything. pandas would convert numeric-looking text in an object column.
- The pandas index (`reset_index`, the original row labels kept by `drop_duplicates` and `dropna`) is not modelled. Rows are modelled as a sequence.
- Sorting.SortBy is a stable insertion sort, so it gives one of the orders pandas' unstable `sort_values` may produce. The properties the fetchers rely on are proved for every sorted permutation (`Fetch.DedupOfAnySort`).
- The default `adj='qfq'` of `fetch_stock_data` (src/data_fetch.py:42) is not modelled. `adj` is an explicit parameter of `Fetch.FetchOnce` and `Fetch.FetchStockData`.
