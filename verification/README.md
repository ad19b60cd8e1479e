# CaféIndex core, modelled in Dafny

CaféIndex publishes a synthetic coffee price for every new block of the
Westend test network. The model covers these parts of the system:

- **Listener** (`cafeindex-ai/index.js`). On each new block header it draws
  a price in [3.00, 5.00] and rounds it to the cent. It then appends one JSON
  line `{timestamp, block, price}` to the observation log.
- **Price API** (`cafeindex-ai/server.js`). `GET /api/prices` and
  `GET /api/predict` each read the whole log and trim it. They split it into
  lines and `JSON.parse` every line. They answer with one of:
  - the last ten records, prices printed with `toFixed(2)`;
  - three prices forecast from the last thirty records.
- **Trend predictor** (`cafeindex-ai/predict.js`). It fits a least-squares
  line to the prices, placed at x = 0..n-1, and extends the line `count`
  steps forward.
- **Two charts**:
  - The web front end's `PriceChart` (`frontend/src/components/PriceChart.tsx`)
    draws history and predictions on one label axis. Each dataset is padded
    with nulls where the other one has points.
  - The `CoffeeDashboard` of the chain UI
    (`cafeindex-ui/src/components/CoffeeDashboard.tsx`) plots the two API
    replies. Its button registers the latest price as an on-chain remark.
- **Price oracle** (`price_oracle/oracle.py`). `PriceOracle` keeps a node
  handle, a signer and a connection flag. `submit_price` refuses to send
  without all three. `submit_prices_batch` validates every row, sends the
  valid ones and returns one success flag per row id.

The modules follow the source files:

- `Common`: shared value types and helpers. `Tail` is `slice(-k)`. `MapAll`
  is `map` with a function that can fail.
- `JsText`: the JavaScript string and number functions the core relies on:
  - `trim`;
  - `split` on one character;
  - `Number.prototype.toString` on whole numbers;
  - `toFixed(2)`;
  - `parseFloat`.
- `CoffeeRecord`: the logged record, `JSON.stringify` of it, `JSON.parse`
  of one line, and the round trip between them.
- `Predict`: `linearRegression` and `predictNext`.
- `Ingest`: the listener. The log file is a class `CoffeeLog` whose text
  only grows.
- `Server`: the two handlers, as functions of the log text.
- `PriceChart` and `Dashboard`: the two components.
- `Oracle`: the oracle. `PriceOracle` is a class whose three fields the
  methods update in place.

The model follows the code as written, including three behaviours a reader
of the endpoint descriptions might not expect:

- Any line that fails to parse makes a handler answer status 500. The line
  is not skipped.
- An empty log gives status 500 on both endpoints, not an empty list.
  `''.split('\n')` is `['']`, and `JSON.parse('')` throws.
- With fewer than two prices, `predictNext` has a zero denominator and
  returns NaN values. `/api/predict` then answers status 200 with
  `["NaN","NaN","NaN"]`, not an insufficient-data error.

Numbers are exact reals. `Forecast` returns `None` where the source computes
NaN. `toFixed(2)` rounds the exact value half up.

## Model

| member | source | states |
|---|---|---|
| Common.Tail | cafeindex-ai/server.js:21 | `slice(-k)` keeps the last min(k, N) elements in their original order, and keeps all of them when N <= k |
| Common.MapAll | cafeindex-ai/server.js:20 | `lines.map(l => JSON.parse(l))` with a throwing parse: succeeds exactly when every element parses, and then gives each element's result in order |
| JsText.Trim | cafeindex-ai/server.js:19 | `trim()` removes only white space, only at the two ends; the result neither starts nor ends with white space |
| JsText.TrimLine | cafeindex-ai/server.js:19 | trimming text that starts with a non-space character and ends with one newline after a non-space character gives back the text without that newline |
| JsText.Split | cafeindex-ai/server.js:19 | `split('\n')` yields at least one piece, no piece holds the separator, and joining the pieces with it gives back the input |
| JsText.SplitJoin | cafeindex-ai/server.js:19 | splitting pieces joined by the separator gives back the pieces, when none holds the separator |
| JsText.NatText | cafeindex-ai/index.js:12 | `header.number.toString()` is at least one decimal digit, with a leading zero only for 0; NatTextValue proves it reads back as the number |
| JsText.NatTextValue | cafeindex-ai/index.js:12 | the decimal text of a block number reads back as that number |
| JsText.Hundredths | cafeindex-ai/index.js:16 | rounding to the cent moves a value by at most half a cent |
| JsText.ToFixed2 | cafeindex-ai/server.js:23 | `toFixed(2)`: a minus sign for a negative value, then the magnitude rounded half up to the cent with two decimals; its shape, exactness and read-back are ToFixed2Shape, CentsToFixed2 and ParseToFixed2 |
| JsText.ToFixed2Shape | cafeindex-ai/server.js:23 | `toFixed(2)` writes optional '-', digits, '.', and two digits; the minus sign appears exactly for negative values |
| JsText.CentsToFixed2 | cafeindex-ai/server.js:23 | a whole number of cents is printed exactly by `toFixed(2)` |
| JsText.ParseFloat | cafeindex-ui/src/components/CoffeeDashboard.tsx:62-63 | `parseFloat`: leading white space skipped, an optional sign, then the longest decimal prefix, `None` (NaN) when there is none; ParseToFixed2 proves it reads `toFixed(2)` text back |
| JsText.ParseToFixed2 | cafeindex-ui/src/components/CoffeeDashboard.tsx:62 | `parseFloat(x.toFixed(2))` is x rounded to the cent, for every x |
| Predict.LinearRegression | cafeindex-ai/predict.js:4-14 | the fit is non-finite (NaN or ±Infinity) exactly when the denominator n·Σx² − (Σx)² is zero |
| Predict.RegressionSolvesNormalEquations | cafeindex-ai/predict.js:11-12 | the fitted slope and intercept satisfy both normal equations of least squares |
| Predict.RegressionIsOnlySolution | cafeindex-ai/predict.js:11-12 | when the denominator is non-zero, any line satisfying the normal equations is the line the formulas compute |
| Predict.RegressionMinimisesSquaredError | cafeindex-ai/predict.js:4-14 | no line has a smaller sum of squared residuals than the fitted one |
| Predict.ExactFit | cafeindex-ai/predict.js:4-14 | points that lie exactly on a line, with a non-zero denominator, are fitted by that line |
| Predict.DenominatorOfIndices | cafeindex-ai/predict.js:18 | for x = 0..n-1 the denominator is n²(n²−1)/12, which is zero exactly when n <= 1 |
| Predict.Forecast | cafeindex-ai/predict.js:16-28 | the forecast is non-finite (NaN) exactly when count > 0 and fewer than two prices are given; otherwise it has max(count, 0) values |
| Predict.ForecastOnFittedLine | cafeindex-ai/predict.js:23-26 | the k-th prediction is the fitted line at x = n − 1 + k |
| Predict.ForecastStep | cafeindex-ai/predict.js:23-26 | consecutive predictions differ by exactly the fitted slope |
| Predict.ForecastOfLinearPrices | cafeindex-ai/predict.js:16-28 | two or more prices lying on a line are extrapolated along that same line |
| Predict.ForecastExtendsLine | cafeindex-ai/predict.js:16-28 | two or more prices lying on a line are forecast as exactly that line's next `count` points |
| Predict.ForecastExample | cafeindex-ai/predict.js:16-28 | `predictNext([1, 2, 3, 4], 3)` is `[5, 6, 7]` |
| Predict.PushLine | cafeindex-ai/predict.js:22-27 | the loop pushes exactly the fitted line's values at x = n .. n + count − 1, and nothing for count <= 0 |
| Predict.PredictNext | cafeindex-ai/predict.js:16-28 | `predictNext` returns exactly the forecast above: non-finite when count > 0 and fewer than two prices are given, otherwise the extended fitted line |
| CoffeeRecord.Serialize | cafeindex-ai/index.js:25 | a stored record is written as one `{...}` object holding no newline, so it occupies exactly one log line |
| CoffeeRecord.Parse | cafeindex-ai/server.js:20 | `JSON.parse` of one log line, for the layout `JSON.stringify` writes; ParseSerialize proves it inverts Serialize on every stored record |
| CoffeeRecord.ParseSerialize | cafeindex-ai/index.js:25 | `JSON.parse(JSON.stringify(r))` gives back r for every record the listener writes |
| Ingest.SampleCents | cafeindex-ai/index.js:16 | the simulated price rounded to the cent lies between 300 and 500 cents |
| Ingest.SamplePrice | cafeindex-ai/index.js:16 | the drawn price rounded by `toFixed(2)` is a whole number of cents in [3, 5], and `Number` of the text reads it back |
| Ingest.SampledPrice | cafeindex-ai/index.js:16-23 | the logged price is `Number(price.toFixed(2))`: its cents lie in [300, 500] and it is a whole number of cents |
| Ingest.MakeRecord | cafeindex-ai/index.js:20-24 | the record holds the given timestamp, the block number as its decimal text (which reads back as that number), and a price in [3, 5] that is `Number(price.toFixed(2))`; it is storable when the timestamp needs no escapes |
| Ingest.LogText | cafeindex-ai/index.js:25 | the file text after appending each line with a newline; a non-empty log ends with a newline; LogTextAppend and LogTextJoined state its shape |
| Ingest.LogTextAppend | cafeindex-ai/index.js:25 | appending is concatenation: the log of two batches of lines is the first batch's text followed by the second's |
| Ingest.LogOfSnoc | cafeindex-ai/index.js:25 | appending one record's line to the log of some records gives the log of those records followed by that one |
| Ingest.LogTextJoined | cafeindex-ai/index.js:25 | a non-empty log is its lines joined by newlines plus a final newline |
| Ingest.CoffeeLog.Append | cafeindex-ai/index.js:25 | the file text grows by exactly the record's line and a newline, and stays the serialisation of all records appended so far |
| Ingest.CoffeeLog.OnHeader | cafeindex-ai/index.js:11-26 | each header adds exactly one line, the record built from the block number, the timestamp and the random draw |
| Server.ParseAll | cafeindex-ai/server.js:20 | parsing all lines succeeds exactly when every line parses, and then gives each line's record in order |
| Server.ReadRecords | cafeindex-ai/server.js:18-20 | a log that can be read yields at least one record |
| Server.LatestPrices | cafeindex-ai/server.js:21-24 | the `/api/prices` body holds the last min(10, N) records, oldest first, each as its block and `price.toFixed(2)` |
| Server.PredictInput | cafeindex-ai/server.js:38 | the forecast is fitted to the prices of the last min(30, N) records, oldest first |
| Server.GetPrices | cafeindex-ai/server.js:15-30 | status 500 exactly when some line fails to parse, otherwise the latest prices |
| Server.GetPredict | cafeindex-ai/server.js:32-45 | status 500 exactly when some line fails to parse, otherwise the three formatted predictions |
| Server.FormatForecast | cafeindex-ai/server.js:39 | `preds.map(p => p.toFixed(2))`: always three texts, `"NaN"` each for a non-finite forecast |
| Server.Predictions | cafeindex-ai/server.js:38-40 | the `/api/predict` body is three texts; PredictionsNaN and PredictionsOnFittedLine state their values |
| Server.LatestPricesTwoDecimals | cafeindex-ai/server.js:21-24 | every price `/api/prices` returns has exactly two decimals |
| Server.PredictionsNaN | cafeindex-ai/server.js:38-40 | over a readable log the forecast is `["NaN","NaN","NaN"]` exactly when the log holds a single record |
| Server.PredictionsOnFittedLine | cafeindex-ai/server.js:38-39 | with two or more records, the k-th forecast text is `toFixed(2)` of the fitted line at x = n − 1 + k |
| Server.PredictionsOfLinearPrices | cafeindex-ai/server.js:38-39 | when two or more windowed prices lie on a line, `/api/predict` continues that line |
| Server.EmptyLogFails | cafeindex-ai/server.js:18-20 | a log that is empty after trimming cannot be read, and both endpoints answer 500 |
| Server.ReadAfterWrite | cafeindex-ai/server.js:18-20 | reading the log the listener wrote gives back exactly the appended records in order; reading it before any append fails |
| Server.PricesOfLog | cafeindex-ai/server.js:15-25 | `/api/prices` over the listener's log answers 200 with the latest records |
| Server.LatestStoredPrices | cafeindex-ai/server.js:21-24 | for logged records, each reported price text is the record's exact cents |
| PriceChart.Labels | frontend/src/components/PriceChart.tsx:112-115 | the x-axis holds the historical dates, then the prediction dates |
| PriceChart.HistoricalSeries | frontend/src/components/PriceChart.tsx:122-125 | the historical dataset holds the historical prices, then one null per prediction |
| PriceChart.PredictionSeries | frontend/src/components/PriceChart.tsx:136-139 | the prediction dataset holds one null per historical price, then the predicted prices |
| PriceChart.ShowsEmptyState | frontend/src/components/PriceChart.tsx:154-162 | the placeholder is shown exactly when both inputs are empty |
| PriceChart.SeriesPartitionLabels | frontend/src/components/PriceChart.tsx:117-150 | at every label exactly one of the two datasets has a point |
| PriceChart.HistoricalPlotsHistory | frontend/src/components/PriceChart.tsx:122-125 | the non-null values of the historical dataset are exactly the historical prices, in order |
| PriceChart.PredictionPlotsPredictions | frontend/src/components/PriceChart.tsx:136-139 | the non-null values of the prediction dataset are exactly the predicted prices, in order |
| Dashboard.PredictionLabel | cafeindex-ui/src/components/CoffeeDashboard.tsx:63 | the k-th prediction label is '+' followed by the decimal text of k + 1, with no leading zero |
| Dashboard.PredictionLabelsDistinct | cafeindex-ui/src/components/CoffeeDashboard.tsx:63 | two different predictions never share a label |
| Dashboard.ChartData | cafeindex-ui/src/components/CoffeeDashboard.tsx:61-64 | the chart holds the price records under their block labels, then the predictions under `+1..+k`, each value `parseFloat` of its text |
| Dashboard.ChartOfLatestPrices | cafeindex-ui/src/components/CoffeeDashboard.tsx:61-62 | charting the `/api/prices` reply plots each record's price rounded to the cent |
| Dashboard.LatestPrice | cafeindex-ui/src/components/CoffeeDashboard.tsx:41 | the latest price is undefined exactly for an empty list, else the last item's price |
| Dashboard.RegisterRemark | cafeindex-ui/src/components/CoffeeDashboard.tsx:39-45 | a remark is sent exactly when the API and an account are ready and the latest price is non-empty; it is `Price:` followed by that price |
| Dashboard.ShowsRegisterButton | cafeindex-ui/src/components/CoffeeDashboard.tsx:101-102 | the render guard `!error && api && account`; RegisterButtonGuard relates it to `registerPrice` |
| Dashboard.RegisterButtonGuard | cafeindex-ui/src/components/CoffeeDashboard.tsx:39-104 | when the button is shown, clicking it sends a remark exactly when the latest price is non-empty; with no error, a hidden button is one whose click would send nothing; an error hides the button even with the API and an account ready |
| Dashboard.RemarkCarriesLatest | cafeindex-ui/src/components/CoffeeDashboard.tsx:45 | the latest price can be read back from the remark after its six-character prefix |
| Dashboard.RegistersLatestLogged | cafeindex-ui/src/components/CoffeeDashboard.tsx:39-45 | over the listener's log, the remark carries the most recently logged price, to the cent |
| Oracle.ConnectState | price_oracle/oracle.py:40-79 | after `connect` the oracle is connected exactly when every step succeeded, or it already was and only the seed is missing; a connection always comes with a node and a signer |
| Oracle.PriceOracle.constructor | price_oracle/oracle.py:33-38 | a new oracle starts with no handles, unconnected, and makes one connection attempt |
| Oracle.PriceOracle.Connect | price_oracle/oracle.py:40-79 | returns True exactly when the node answers, a seed is set and valid, and the account query succeeds; the fields change as ConnectState says |
| Oracle.PriceOracle.SubmitPrice | price_oracle/oracle.py:81-138 | a price is accepted only when connected with a node and a signer, and then exactly when the chain accepts it |
| Oracle.PriceOracle.SubmitPricesBatch | price_oracle/oracle.py:140-173 | disconnected: an empty map and nothing sent; connected: one entry per row id, and the valid rows are sent in order |
| Oracle.BatchResults | price_oracle/oracle.py:155-168 | the reference definition of the result map, row by row, a later row overwriting an earlier one with the same id; BatchKeys and BatchLastRowWins state its meaning |
| Oracle.Submitted | price_oracle/oracle.py:160-167 | the reference definition of the rows sent, in table order; SubmittedAreValid, SubmittedCount and SubmittedInOrder state its meaning |
| Oracle.BatchKeys | price_oracle/oracle.py:155-168 | the result keys are exactly the ids of the rows |
| Oracle.BatchLastRowWins | price_oracle/oracle.py:155-168 | an id's entry is decided by the last row carrying it: False if that row is invalid, otherwise the chain's answer |
| Oracle.SubmittedAreValid | price_oracle/oracle.py:160-167 | no row with an empty id, a missing timestamp or a non-positive price is sent |
| Oracle.ValidIndicesSnoc | price_oracle/oracle.py:160-167 | adding a row adds its position to the valid positions exactly when the row is valid |
| Oracle.SubmittedCount | price_oracle/oracle.py:160-167 | as many rows are sent as there are valid rows |
| Oracle.SubmittedPrefix | price_oracle/oracle.py:155-168 | the rows sent while processing a prefix of the table are a prefix of the rows sent for the whole table |
| Oracle.SubmittedInOrder | price_oracle/oracle.py:155-168 | every valid row is sent, at the position given by the number of rows sent before it, so the valid rows are sent in their original order; with SubmittedAreValid and SubmittedCount, the rows sent are exactly the valid rows in order |

## Left out

- Floating point is not modelled. All arithmetic is over exact reals, so IEEE rounding and overflow are absent. `toFixed(2)` rounds the exact value half up, while JavaScript rounds the binary double, which differs at decimal ties such as 1.005.
- JsText.ToFixed2: values of magnitude 1e21 or more, which `toFixed` writes in exponent notation, are not modelled. No value in the core comes near them.
- JsText.ParseFloat: exponent parts and `Infinity` are not read. `toFixed(2)` never writes them, so the texts the core parses do not hold them.
- CoffeeRecord.Parse: accepts only the layout `JSON.stringify` writes: keys `timestamp`, `block`, `price` in that order, no white space, no escape sequences, no exponent. `JSON.parse` also accepts other layouts, so the model answers 500 on some lines the source would read.
- Server.GetPrices / Server.GetPredict: a missing log file, where `readFileSync` throws, gives 500 like an empty file; it is not a separate case. The handlers are functions of the file text, and the error message text is not modelled.
- Reading and appending to the log at the same moment is not modelled. Each handler reads a snapshot, and the async callbacks run one at a time.
- Ingest: the WebSocket connection, the header subscription and console logging are not modelled. `new Date().toISOString()` is the parameter `timestamp`. `Math.random()` is the parameter `u` in [0, 1).
- Ingest.MakeRecord: requires a timestamp without `"`, `\` or control characters, as ISO timestamps are, for the record to be storable. Escaped strings are not modelled.
- Predict.PredictNext: the NaN array the source returns with fewer than two prices is the value `None`. Whether a non-finite value would be NaN or ±Infinity is not distinguished.
- Dashboard: `fetch`, the loading flags, the recharts rendering, `web3FromAddress`, `stringToHex`, `signAndSend` and its alerts are not modelled. The model stops at the remark string that would be signed.
- PriceChart: Chart.js options and colours are not modelled.
- Oracle: logging, `SubstrateInterface`, `Keypair` and the balance query are replaced by the `Network` flags. Each exception becomes a false flag. The zero-balance warning only logs.
- Oracle.PriceOracle.SubmitPrice: the ISO timestamp conversion, `int(round(price * 100))`, `compose_call`, the signed extrinsic and the receipt are folded into one parameter `accepted`, the chain's answer. An exception in any of them is `accepted = false`.
- Oracle.PriceOracle.SubmitPricesBatch: the pandas DataFrame is a sequence of rows whose `str()`/`float()` conversions are already done. A `float()` that raises is not modelled. `time.sleep(2)` is left out.
- Oracle.PriceOracle.SubmitPricesBatch: empty table cells, which `pd.read_csv` reads as NaN or NaT, are not modelled. In the source such a row passes the validation at price_oracle/oracle.py:161: `float('nan') <= 0` is false, NaN and NaT are truthy, and a NaN id becomes the text `"nan"`. The row is then sent and fails only inside `submit_price`, after the conversions at lines 98-101. A `Row` holds only present values, so the model has no such row.
- Oracle.SubmittedAreValid: holds of rows with present values only. On a table with NaN or NaT cells the source sends rows whose price or timestamp is not a value, which this lemma does not cover.
- Oracle.PriceOracle.SubmitPricesBatch: requires `Coherent`, the object invariant "connected implies a node and a signer". The constructor establishes it and `Connect` keeps it (see ConnectState).
