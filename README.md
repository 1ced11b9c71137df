# Historical-simulation Value-at-Risk and the stock routes of stock-app

This project is a Dafny model of two parts of the stock-app backend:

- **Value-at-Risk core.** This is the historical-simulation pipeline in `backend/app/tests/routes/test_stock_data.py`.
  - `calculate_returns` turns a close-price series into gross ratio returns `p[i+1] / p[i]`.
  - `historical_simulation_var` takes the first `historical_days` returns, sorts them, and reads the return at position `int((1 - confidence_level) * N)`. It then computes `(portfolio_value - worst * portfolio_value) * np.sqrt(horizon_days)`.
  - `calculate_value_at_risk` chains the two over the `"close"` column.
  - The fixtures of `test_calculate_returns` and `test_historical_simulation_var` are restated as lemmas.
- **Stock routes.** These are two handlers in `backend/app/routes/stock_data.py`.
  - The POST handler checks the interval whitelist and picks the Alpha Vantage fetcher for the interval. The daily branch projects the table to five columns. The handler maps a fetch `ValueError` to HTTP 400, then relabels the columns in place, adds a `TradeDate` and a `time` column, and loops over the requested statistics.
  - The GET `/search` handler answers HTTP 400 when the reply has no `bestMatches`. It renames the nine numbered keys of every match record in place; a missing key raises an uncaught `KeyError`. An empty match list gets the "company not found" message.

Modules:

- `PySemantics` (`py_semantics.dfy`) holds the Python, pandas and numpy behaviour the code relies on:
  - exceptions as a `Result`, and NaN floats;
  - `int()` truncating toward zero;
  - `s[:n]` slicing with a negative `n`;
  - numpy's wrap-around indexing, where an index outside the array is an `IndexError`;
  - the sign facts of `np.sqrt`.
- `Sorting` (`sorting.dfy`) models `np.sort` as insertion sort. It defines order statistics by counting the entries strictly below and at most a value.
- `ValueAtRisk` (`value_at_risk.dfy`) models the three functions and their fixtures.
- `StockRoutes` (`stock_routes.dfy`) models the POST handler.
  - The fetched table is a `DataFrame` class whose fields `SetColumns` and `Assign` update in place.
  - The statistic loop is a method with a loop invariant.
  - The handler itself is a method. It is proved equal to the specification function `Response`, and lemmas state what `Response` promises.
- `SymbolSearch` (`symbol_search.dfy`) models the `/search` handler. The match records live in an `array` that `RenameMatches` rewrites in place.

Inputs that come from outside the program are parameters:

- `np.sqrt(horizon_days)` is the parameter `sqrtHorizon`.
  - The computation only needs `NumpySqrtShape`: NaN for a negative horizon, otherwise a non-negative number that is zero only for zero.
  - The `316227` fixture also needs the exact root, `IsNumpySqrt`.
- The time-series client is a function `fetch` from the call made to its outcome.
- The decoded symbol-search reply is a parameter.

Returns are sometimes described as `price[i] / price[i+1]`, a forward shift over a most-recent-first series. The code divides by `data.shift(1)`, so return `i` is `price[i+1] / price[i]` in series order. The model follows the code.

## Model

| member | source | states |
|---|---|---|
| PySemantics.TruncToInt | backend/app/tests/routes/test_stock_data.py:56 | `int(x)` truncates toward zero: `n <= x < n + 1` for `x >= 0`, `n - 1 < x <= n` for negative `x` |
| PySemantics.PrefixSlice | backend/app/tests/routes/test_stock_data.py:53 | `returns[:historical_days]` is a prefix of the series of length `min(n, len)` for `n >= 0`, and `len + n` (or empty) for negative `n` |
| PySemantics.NumpyIndex | backend/app/tests/routes/test_stock_data.py:57 | `sorted_returns[index]` exists exactly when `-N <= index < N`, and is then the entry at the wrapped position |
| Sorting.Sort | backend/app/tests/routes/test_stock_data.py:54 | `np.sort` returns an ascending permutation (same multiset, same length) of its input |
| Sorting.CountBelowPermutation | backend/app/tests/routes/test_stock_data.py:54 | how many entries lie below a value depends only on the multiset, so sorting keeps it |
| Sorting.SortedPicksOrderStatistic | backend/app/tests/routes/test_stock_data.py:54-57 | position `k` of the sorted window is the `k`-th order statistic of the window: it occurs in it, at most `k` entries are strictly smaller and more than `k` are at most it |
| Sorting.OrderStatisticUnique | backend/app/tests/routes/test_stock_data.py:54-57 | the `k`-th order statistic is unique |
| Sorting.OrderStatisticZeroIsMinimum | backend/app/tests/routes/test_stock_data.py:54-57 | the 0-th order statistic is at most every entry |
| ValueAtRisk.ShiftThenDropNa | backend/app/tests/routes/test_stock_data.py:40-41 | `shift(1)` followed by `dropna()` leaves every price but the last, in order |
| ValueAtRisk.DivideAlignedInverse | backend/app/tests/routes/test_stock_data.py:40 | a quotient is present exactly when its divisor is, and the quotient times the divisor is the dividend |
| ValueAtRisk.DropNa | backend/app/tests/routes/test_stock_data.py:41 | `dropna()` never lengthens a series |
| ValueAtRisk.DropNaMembers | backend/app/tests/routes/test_stock_data.py:41 | a value survives `dropna()` exactly when it is present |
| ValueAtRisk.DropNaNoNaN | backend/app/tests/routes/test_stock_data.py:41 | `dropna()` on a series without NaN keeps every value in order |
| ValueAtRisk.CalculateReturns | backend/app/tests/routes/test_stock_data.py:38-42 | the returns have `len(prices) - 1` entries (none for an empty series) and entry `i` is `prices[i+1] / prices[i]` |
| ValueAtRisk.ReturnsTail | backend/app/tests/routes/test_stock_data.py:38-42 | dropping the first price drops exactly the first return |
| ValueAtRisk.ReturnsRoundTrip | backend/app/tests/routes/test_stock_data.py:38-42 | compounding the returns from the first price gives the price series back |
| ValueAtRisk.TestCalculateReturns | backend/app/tests/routes/test_stock_data.py:62-70 | prices 10, 20, 30, 90, 45 give returns 2.0, 1.5, 3.0, 0.5 |
| ValueAtRisk.ScaledIsProduct | backend/app/tests/routes/test_stock_data.py:56 | the `N`-fold sum used for `(1 - c) * N` equals the product |
| ValueAtRisk.SelectionIndex | backend/app/tests/routes/test_stock_data.py:55-56 | `int((1 - c) * N)` is a valid position when `0 < c <= 1` and `N > 0`, and lies past the end when `c <= 0` |
| ValueAtRisk.SelectionIndexZero | backend/app/tests/routes/test_stock_data.py:55-56 | when `(1 - c) * N` lies strictly between -1 and 1 the index is 0 |
| ValueAtRisk.WorstReturn | backend/app/tests/routes/test_stock_data.py:53-57 | the chosen return exists exactly when numpy accepts the index, and it is then the order statistic of the window at the position numpy reads |
| ValueAtRisk.HistoricalSimulationVar | backend/app/tests/routes/test_stock_data.py:45-59 | an IndexError exactly when there is no chosen return; otherwise `(v - worst * v) * np.sqrt(h)` |
| ValueAtRisk.HistoricalVarNaN | backend/app/tests/routes/test_stock_data.py:57-58 | an estimate is NaN exactly when the horizon is negative |
| ValueAtRisk.HistoricalVarAmount | backend/app/tests/routes/test_stock_data.py:57-58 | once the chosen return is known, the estimate is `v * (1 - worst) * np.sqrt(h)` |
| ValueAtRisk.HistoricalVarDefined | backend/app/tests/routes/test_stock_data.py:53-57 | with `0 < c <= 1` and a non-empty window the index is in range, a return is chosen (the order statistic at that index) and the estimate exists |
| ValueAtRisk.HistoricalVarEmptyWindow | backend/app/tests/routes/test_stock_data.py:53-57 | an empty window (no returns, `historical_days == 0`, or a very negative `historical_days`) fails with an IndexError |
| ValueAtRisk.OversizedWindowIsWholeSeries | backend/app/tests/routes/test_stock_data.py:53 | a `historical_days` of at least the series length uses the whole series |
| ValueAtRisk.WorstReturnIsMinimum | backend/app/tests/routes/test_stock_data.py:54-57 | for `c <= 1` and a non-empty window, when `(1 - c) * N < 1` the chosen return is the window minimum |
| ValueAtRisk.HistoricalVarLinear | backend/app/tests/routes/test_stock_data.py:57-58 | scaling the portfolio value scales the estimate by the same factor, and success does not depend on it |
| ValueAtRisk.HistoricalVarZeroAtUnitReturn | backend/app/tests/routes/test_stock_data.py:57-58 | a chosen return of exactly 1 gives a VaR of 0 for any non-negative horizon |
| ValueAtRisk.HistoricalVarNonNegativeIff | backend/app/tests/routes/test_stock_data.py:57-58 | for a positive value and horizon the VaR is non-negative exactly when the chosen return is at most 1 |
| ValueAtRisk.TestWorstReturn | backend/app/tests/routes/test_stock_data.py:73-81 | returns 1.1, 1.2, 1.1, 0.9 at confidence 0.99 over 200 days choose 0.9 |
| ValueAtRisk.TestHistoricalSimulationVar | backend/app/tests/routes/test_stock_data.py:73-87 | those returns with value 1,000,000 and horizon 10 give `int(var) == 316227` |
| ValueAtRisk.CalculateValueAtRisk | backend/app/tests/routes/test_stock_data.py:8-35 | a KeyError without a `close` column; for `"historical"` exactly `historical_simulation_var(calculate_returns(close), ...)`; any other kind fails with an unbound `var` |
| ValueAtRisk.CloseWindow | backend/app/tests/routes/test_stock_data.py:17-18 | the window over the closes holds the first `min(historical_days, len(close) - 1)` close-to-close ratios |
| ValueAtRisk.CalculateValueAtRiskHistorical | backend/app/tests/routes/test_stock_data.py:17-22 | with at least two closes, `0 < c <= 1` and `historical_days >= 1` the VaR exists and its worst return is the `int((1 - c) * N)`-th order statistic of the close-ratio window |
| StockRoutes.Dispatch | backend/app/routes/stock_data.py:66-74 | monthly, weekly and daily (adjusted, full output) go to their own fetchers; every other interval goes, unchanged, to the intraday fetcher with full output; the symbol is passed through |
| StockRoutes.DispatchRoundTrip | backend/app/routes/stock_data.py:66-74 | the fetch determines the symbol and interval it was made for, so no two requests share a fetch |
| StockRoutes.DispatchIntradayIntervals | backend/app/routes/stock_data.py:18 | among the accepted intervals, exactly the five minute intervals use the intraday fetcher |
| StockRoutes.SelectColumns | backend/app/routes/stock_data.py:72 | `data[names]` succeeds exactly when every name is a column; it then has those columns in that order with their values and the same rows; otherwise it is a KeyError naming a missing column |
| StockRoutes.Projected | backend/app/routes/stock_data.py:70-74 | the daily branch selects the five daily columns, every other interval keeps the fetched table |
| StockRoutes.SelectOwnColumns | backend/app/routes/stock_data.py:72 | selecting a table's own distinct columns gives the table back |
| StockRoutes.DailyProjection | backend/app/routes/stock_data.py:72 | the daily branch keeps exactly `1. open, 2. high, 3. low, 4. close, 6. volume`, or fails with a KeyError on one of them |
| StockRoutes.DataFrame.SetColumns | backend/app/routes/stock_data.py:81 | `data.columns = names` relabels every column when the count matches; otherwise it is a ValueError and nothing changes |
| StockRoutes.DataFrame.Assign | backend/app/routes/stock_data.py:82-83 | `data[name] = values` overwrites the first column of that name, or appends a new last column |
| StockRoutes.RenameAndStamp | backend/app/routes/stock_data.py:80-83 | a five-column table ends with columns `open, high, low, close, volume, TradeDate, time` and the same rows and values, plus each row's date and time; any other width is a ValueError that leaves the table unchanged |
| StockRoutes.RoutinesForName | backend/app/routes/stock_data.py:85-88 | `var` starts the VaR routine, `hurst` the Hurst routine, anything else nothing, and at most one routine per name |
| StockRoutes.StatisticCalls | backend/app/routes/stock_data.py:84-88 | the routines in request order, at most one per requested name |
| StockRoutes.RunStatistics | backend/app/routes/stock_data.py:84-88 | the loop starts, in request order, the routines the names ask for |
| StockRoutes.StatisticCallsConcat | backend/app/routes/stock_data.py:84-88 | the routines for two lists of names, one after the other, are the routines of each list in order |
| StockRoutes.StatisticCallsSingle | backend/app/routes/stock_data.py:84-88 | one name starts what that name asks for |
| StockRoutes.StatisticCallsMembership | backend/app/routes/stock_data.py:84-88 | the VaR (Hurst) routine is started exactly when `var` (`hurst`) is requested |
| StockRoutes.StatisticCallsUnknown | backend/app/routes/stock_data.py:84-88 | no routine starts when no name is `var` or `hurst` |
| StockRoutes.Response | backend/app/routes/stock_data.py:61-88 | every HTTP error is a 400; the only uncaught failures are a KeyError and the width ValueError; a plotted table has the five relabelled columns plus `TradeDate` and `time`, and the routines the request names |
| StockRoutes.GetStockData | backend/app/routes/stock_data.py:58-88 | no fetch for a rejected interval, otherwise exactly the one Dispatch picks; the response is `Response` of the request and that fetch's outcome |
| StockRoutes.RejectedInterval | backend/app/routes/stock_data.py:61-64 | the answer is the 400 "incorrect interval value." exactly when the interval is not one of the eight |
| StockRoutes.SymbolError | backend/app/routes/stock_data.py:75-78 | on an accepted interval a 400 comes exactly from a fetch ValueError, and carries "incorrect symbol value. " followed by its message |
| StockRoutes.PlottedTable | backend/app/routes/stock_data.py:80-83 | the handler reaches the plot exactly when the fetch succeeds and the table has five columns; the table then has the seven named columns, the fetched rows and values, each row's date and time, the metadata, and the requested routines |
| StockRoutes.HandlerFailures | backend/app/routes/stock_data.py:72-81 | the uncaught failures are a KeyError for a daily table lacking a kept column and a ValueError for a table not five columns wide |
| SymbolSearch.MatchKeysArePairs | backend/app/routes/stock_data.py:114-122 | the nine numbered keys are distinct, the nine plain keys are distinct, and no key is both |
| SymbolSearch.RenameKeys | backend/app/routes/stock_data.py:114-122 | a pop that raises names a numbered key, and that key is absent from the record as left at that point |
| SymbolSearch.RenameKeysSucceeds | backend/app/routes/stock_data.py:114-122 | the renaming completes exactly when every numbered key is present |
| SymbolSearch.RenameKeysFirstMissing | backend/app/routes/stock_data.py:114-122 | a failing renaming names the first numbered key, in pop order, that the record lacks |
| SymbolSearch.RenameKeysResult | backend/app/routes/stock_data.py:114-122 | after a complete renaming the keys are the old keys minus the numbered ones plus the plain ones; each plain key holds its numbered key's value; every other key keeps its value |
| SymbolSearch.RenameKeysCorrect | backend/app/routes/stock_data.py:114-122 | both of the above for any well-formed list of key pairs |
| SymbolSearch.RenameMatchKeys | backend/app/routes/stock_data.py:114-122 | the same facts for the nine match keys |
| SymbolSearch.FirstIncomplete | backend/app/routes/stock_data.py:113 | the first record lacking a numbered key: every earlier record renames completely, and that one does not |
| SymbolSearch.RenameMatches | backend/app/routes/stock_data.py:113-122 | the loop rewrites records in order, in place; it stops at the first incomplete record, which is left partly renamed, leaves the later ones untouched and returns the missing key |
| SymbolSearch.SearchSymbol | backend/app/routes/stock_data.py:104-125 | no `bestMatches` gives 400 "incorrect symbol value."; an empty list gives 200 with "For phrase '<symbol>' company not found"; otherwise it is 200 with every record renamed, in the same number and order, or an uncaught KeyError for the first incomplete record's missing key |

## Left out

- `plot_data` (rendering with matplotlib and base64 encoding) is not modelled. The POST handler's result is the table, metadata and routines that it would plot, so the PNG payload and the `meta['2. Symbol']` lookup are outside the model.
- The Alpha Vantage calls, `requests.get` and `r.json()` are network and decoding I/O. They are the parameters `fetch` and `reply`. A non-JSON reply is not modelled.
- The print stubs `calculate_value_at_risk` and `calculate_hurst_exponent` in the route file only print, so the model records which routine is started.
- The print statements of the handlers are output only.
- Linear-model and Monte Carlo estimators and Hurst R/S analysis do not exist in the code; their traces are commented out.
- `test_calculate_value_at_risk` reads a `data.csv` fixture that is not part of this model, so its expected value 195764 is not restated.
- Prices, returns and the VaR are real numbers. Float rounding is not modelled; for the fixtures the exact real values give the asserted results. One consequence: for `0 < confidence_level <= 2^-54` the double `1 - confidence_level` rounds to 1.0, so the program's index is `N` and it raises an IndexError, while ValueAtRisk.SelectionIndex gives a position inside the window.
- `np.sqrt` is an input. Apart from the `316227` fixture the model uses only its sign facts.
- ValueAtRisk.CalculateReturns: requires every price but the last to be non-zero, because pandas would produce `inf` or NaN there and the model has no infinities.
- ValueAtRisk.CalculateValueAtRisk: requires the close prices but the last to be non-zero, inherited from ValueAtRisk.CalculateReturns for the same reason.
- ValueAtRisk.CloseWindow: requires the close prices but the last to be non-zero, inherited from ValueAtRisk.CalculateReturns for the same reason.
- ValueAtRisk.CalculateValueAtRiskHistorical: requires the close prices but the last to be non-zero, inherited from ValueAtRisk.CalculateReturns for the same reason.
- ValueAtRisk.HistoricalSimulationVar: its contract states the source's form `(v - worst * v) * np.sqrt(h)`; the factored form is stated by HistoricalVarAmount and the NaN case by HistoricalVarNaN.
- StockRoutes.DataFrame.SetColumns: the ValueError message is shortened to "Length mismatch". pandas also names both lengths.
- StockRoutes.SelectColumns: a KeyError names the first missing column. pandas lists all missing ones.
- Duplicate column names are not modelled: a name selects the first column of that name.
- The row index is a sequence of stamps (date, time of day). Time zones and the datetime type are not modelled.
- Dictionary key order is not modelled. Records are maps, so the order of keys in the renamed JSON objects is not captured.
- The HTTP layer is reduced to the status and the body. Framework serialisation, and the 500 status the framework turns uncaught exceptions into, are left out.
- User CRUD, authentication, schemas, settings, the database, serializers and the frontend are plumbing around databases, crypto and UI libraries.
