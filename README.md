# Court-diversion Q&A: metrics, pricing, usage records and ingestion

This project models the parts of the court-diversion retrieval Q&A tool that
compute something, and proves properties of them:

- **The local metrics store** (`src/metrics.py`). `log_metrics` appends one
  JSON line per chat turn to a log file. `read_metrics` reads the records back,
  skipping blank lines. `p95` is a nearest-rank 95th percentile. `aggregate`
  reports the record count, the queries per minute over the last fifteen
  minutes, the P95 latency and the mean cost.
- **The cost estimate** (`src/pricing.py`). It is a per-1k-token linear price
  rounded to six decimal places. The two prices are parameters; their defaults
  (`src/config.py:15-16`) are constants.
- **The metrics executor** (`run_with_metrics` in `src/chains.py`). It invokes
  the chain once, times the call, and builds the five-field usage record. It
  takes the provider's cost when one is reported and the local estimate
  otherwise. The chat page adds a timestamp and the session id before logging
  (`app.py:79-83`).
- **The ingester's document step** (`src/ingest.py`). It checks that the table
  has the required columns. Then it turns each row into one document with one
  `column: value` line per column and the row's ID as metadata.

Modules, one file each:

| file | module | contents |
|---|---|---|
| `wrappers.dfy` | `Wrappers` | `Option` and `Result` |
| `rounding.dfy` | `Rounding` | Python's `round(x)` and `round(x, d)` on exact reals (ties to even) |
| `text.dfy` | `Text` | `str.strip()`, iterating over a file's lines, `sep.join` |
| `pricing.dfy` | `Pricing` | `estimate_cost` |
| `metrics.dfy` | `Metrics` | the log as a class `MetricsFile` (`LogMetrics`, `ReadMetrics`), their specification `ParseLog`, `P95`, `AggregateRows`/`Aggregate` |
| `chains.dfy` | `Chains` | `RunWithMetrics`, the usage record, the cost fallback, the logged turn record |
| `ingest.dfy` | `Ingest` | `BuildDocuments` and the per-row `DocumentOf` |

External effects are parameters:

- JSON encoding and decoding are the functions `dumps` and `loads`. The
  round-trip lemmas assume only that each record actually logged round-trips
  (`RoundTrips`, and `AllRoundTrip` for a sequence of them): it serialises to
  one non-blank line without surrounding whitespace, and `loads` maps that
  line back to the record. Nothing is assumed of other records.
- The wall clock (`time.time()`, `perf_counter()`) is a reading passed in:
  `now` for the aggregate, `start` and `stop` for the executor.
- The chain together with its usage callback is the function `invoke`. It
  returns the output and the counters gathered during the call.
- The log file is an object with two fields: whether the file exists, and its
  text.

## Model

| member | source | states |
|---|---|---|
| `Metrics.MetricsFile.LogMetrics` | src/metrics.py:7-10 | After the call the log exists. Its text is the old text followed by the serialised record and one newline, so the old contents stay an unchanged prefix. |
| `Metrics.MetricsFile.ReadMetrics` | src/metrics.py:12-22 | The loop returns exactly `ParseLog` of the file: `Ok([])` for a missing file; otherwise the stripped non-blank lines parsed in order, stopping with `JsonDecodeError` at the first line that does not parse. |
| `Metrics.ParseLinesSpec` | src/metrics.py:15-22 | Reading succeeds iff every stripped non-blank line parses. On success it gives one record per such line, in file order. On failure the error names the first line that does not parse, and all earlier lines parse. |
| `Metrics.BlankLineSkipped` | src/metrics.py:18-20 | Inserting a whitespace-only line anywhere in the file does not change what is read. |
| `Metrics.ParseLines` | src/metrics.py:17-21 | A successful read gives at most one record per line of the file. A failure is always a `JsonDecodeError` carrying a non-empty (stripped, non-blank) line. |
| `Metrics.ParseLog` | src/metrics.py:12-22 | A missing file reads as `Ok([])`; the only way reading fails is a `JsonDecodeError`. |
| `Metrics.LogThenRead` | src/metrics.py:7-22 | When the record `m` round-trips through the codec, reading after appending record `m` to a newline-terminated (or missing) log gives the previous records followed by `m`, or the same error as before. The file stays newline-terminated. |
| `Metrics.LogAllThenRead` | src/metrics.py:7-22 | Logging records `ms`, each of which round-trips, one by one into a missing log and reading it back gives exactly `ms`. |
| `Metrics.NonBlank` | src/metrics.py:17-20 | The kept lines are never empty and are no more numerous than the file's lines. |
| `Metrics.NonBlankOne` | src/metrics.py:18-20 | A single line is kept, stripped, exactly when it is not all whitespace; otherwise nothing is kept. |
| `Metrics.NonBlankAppend` | src/metrics.py:17-20 | The kept lines of two consecutive pieces of a file are those of the first piece followed by those of the second, so together with `NonBlankOne` the kept lines are the stripped non-blank lines in file order. |
| `Metrics.SortAscending` | src/metrics.py:27 | The result is sorted and a permutation (same multiset) of the input. |
| `Metrics.SortedUnique` | src/metrics.py:27 | Two sorted sequences with the same elements are equal, so sorting has exactly one possible result. |
| `Metrics.P95Index` | src/metrics.py:28 | The rank `round(0.95 * (n - 1))` is a valid index into a list of `n >= 1` values. |
| `Metrics.P95` | src/metrics.py:24-29 | An empty list gives `0.0`; a non-empty list gives one of its own elements. |
| `Metrics.P95Bounds` | src/metrics.py:24-29 | For a non-empty list the result lies between its minimum and maximum. |
| `Metrics.P95OrderIndependent` | src/metrics.py:27-29 | Lists with the same elements in any order have the same percentile. |
| `Metrics.P95OfSorted` | src/metrics.py:27-29 | For input already in ascending order the result is the element at the rank. |
| `Metrics.P95OfOneToTen` | src/metrics.py:28-29 | `p95([1..10])` is `10`, because the rank `round(8.55)` is 9, the last index. |
| `Metrics.MeanBetween` | src/metrics.py:50 | `sum(costs) / len(costs)` lies between the smallest and the largest cost. |
| `Metrics.Recent` | src/metrics.py:44 | Every kept record has `ts >= cutoff`, with a missing `ts` read as 0. Each record occurs in the result exactly as many times as in the rows when it meets the cutoff, and not at all otherwise. |
| `Metrics.RecentWindowEdge` | src/metrics.py:43-44 | The window is inclusive: a record exactly 900 s old counts toward throughput, one 901 s old does not. |
| `Metrics.AggregateRows` | src/metrics.py:33-51 | No records aggregate to count 0 and `0.0` for throughput, P95 latency and average cost. Aggregation fails, always with `TypeError`, iff there are records and some `ts`, `latency_seconds` or `cost_est_usd` is non-numeric. Otherwise `count` is the number of records. |
| `Metrics.Aggregate` | src/metrics.py:31-51 | A missing log aggregates to the all-zero snapshot. A read error is passed on unchanged. A successful aggregate comes from a successful read and counts its records. |
| `Metrics.Throughput` | src/metrics.py:43-48 | Throughput is non-negative and never exceeds `count / 15` rounded to three places. |
| `Metrics.P95LatencyIsLogged` | src/metrics.py:40-49 | The reported P95 latency is some record's latency (0.0 when missing), rounded to three places. |
| `Metrics.AvgCostBetween` | src/metrics.py:41-50 | The reported average cost lies between the smallest and the largest record cost, each rounded to six places. |
| `Metrics.AggregateOneRecent` | src/metrics.py:40-51 | A single numeric record inside the window aggregates to count 1, throughput `round(1/15, 3)`, and its own latency and cost rounded to 3 and 6 places. |
| `Metrics.CountAfterAppends` | src/metrics.py:7-51 | After logging `N` records into a missing log, `aggregate` reports count `N`, unless one of them has a non-numeric field. |
| `Pricing.RawCost` | src/pricing.py:7-8 | With non-negative token counts and prices the unrounded cost is non-negative; no tokens cost nothing. |
| `Pricing.EstimateCost` | src/pricing.py:3-9 | The result is a multiple of 10^-6 within half a millionth of `in/1000*p_in + out/1000*p_out`. |
| `Pricing.EstimateCostOfNothing` | src/pricing.py:7-9 | No tokens cost `0.0`. |
| `Pricing.EstimateCostMonotoneInInput` | src/pricing.py:7-9 | With a non-negative input price, more input tokens never cost less. |
| `Pricing.EstimateCostMonotoneInOutput` | src/pricing.py:7-9 | With a non-negative output price, more output tokens never cost less. |
| `Pricing.EstimateCostNonNegative` | src/pricing.py:7-9 | Non-negative prices and token counts give a non-negative cost. |
| `Pricing.EstimateCostStable` | src/pricing.py:9 | Rounding the estimate again to six places leaves it unchanged. |
| `Pricing.EstimateCostDefaultPricesExact` | src/config.py:15-16 | At the default prices ($0.01 and $0.03 per 1k tokens) the estimate is exactly `in * 0.00001 + out * 0.00003`: rounding loses nothing. |
| `Rounding.RoundHalfEven` | src/metrics.py:28 | `round(x)` is within 0.5 of `x`; on a tie it is even. |
| `Rounding.RoundHalfEvenUnique` | src/metrics.py:28 | Those two properties determine `round(x)`: no other integer has both. |
| `Rounding.RoundTo` | src/pricing.py:9 | `round(x, d)` is a multiple of 10^-d within half a unit of the last place of `x`. On a tie (exactly half a unit away) the chosen multiple is even, as Python's round-half-to-even does. |
| `Rounding.TieGoesToEven` | src/pricing.py:9 | When `x` lies exactly halfway between two multiples of 10^-d, the integer `round(x * 10^d)` is even. |
| `Rounding.RoundToMonotone` | src/metrics.py:48-50 | Rounding to `d` places preserves order. |
| `Rounding.RoundToOnGrid` | src/pricing.py:9 | A value that is already a multiple of 10^-d is left unchanged. |
| `Rounding.RoundToIdempotent` | src/pricing.py:9 | Rounding twice to the same number of places is rounding once. |
| `Text.Strip` | src/metrics.py:18 | `line.strip()` is empty iff the line is all whitespace; otherwise it neither starts nor ends with whitespace. |
| `Text.StripIsTrim` | src/metrics.py:18 | `line.strip()` is a contiguous slice of the line with only whitespace before and after it. |
| `Text.Lines` | src/metrics.py:17 | No line handed out by iterating over the file contains a newline. |
| `Text.Join` | src/ingest.py:31 | Joining one part gives that part; joining several ends with the last part. |
| `Text.AppendLine` | src/metrics.py:10 | Appending a newline-free record and `"\n"` to a newline-terminated text adds exactly one line. |
| `Text.LinesOfJoin` | src/ingest.py:31 | Splitting `"\n".join(parts)` into lines gives back `parts` when no part has a newline and the last part is not empty. |
| `Chains.RunWithMetrics` | src/chains.py:60-75 | The output is the chain's output on `config`, or on `{}` when no config is given. The usage record has exactly the five usage keys. The three token counters are copied from the callback. Latency is `stop - start`. The cost is the provider's figure when it is reported and non-zero, and `estimate_cost(prompt, completion)` otherwise. |
| `Chains.CostOf` | src/chains.py:72 | The recorded cost is either the provider's figure or the local estimate. With non-negative prices and no negative provider figure, it is non-negative. |
| `Chains.UsageRecord` | src/chains.py:68-74 | The usage record has exactly five keys, all numeric, and neither `ts` nor `session_id`. |
| `Chains.UsageRecordCounters` | src/chains.py:69-71 | `prompt_tokens`, `completion_tokens` and `total_tokens` equal the callback's counters. |
| `Chains.CostFromProvider` | src/chains.py:72 | A reported non-zero provider cost is recorded as reported. |
| `Chains.CostFallback` | src/chains.py:72 | A missing or zero provider cost is replaced by the local estimate. |
| `Chains.LatencyNonNegative` | src/chains.py:63-66 | A clock that does not run backwards gives a non-negative latency. |
| `Chains.TurnRecord` | app.py:79-83 | The logged record has the usage keys plus `ts` and `session_id`. Every usage field keeps its value. `ts` and `session_id` hold the timestamp and session id unless the usage already has such a key, which then wins, as in a dict display with `**usage` last. |
| `Chains.TurnRecordReadsBack` | app.py:79-83 | The fields `aggregate` reads from a logged turn (`ts`, `latency_seconds`, `cost_est_usd`) are numeric and hold the turn's timestamp, latency and recorded cost. |
| `Chains.TurnRecordFields` | app.py:79-83 | The logged turn has the five usage keys plus `ts` and `session_id`, and every usage field keeps its value. |
| `Chains.SingleTurnSnapshot` | app.py:79-83 | When its record round-trips through the codec, one turn logged into a missing log and aggregated at its own timestamp gives count 1, throughput `round(1/15, 3)`, and the turn's latency and cost rounded. |
| `Ingest.BuildDocuments` | src/ingest.py:19-35 | A missing `ID` gives `ValueError("ID")`. A present `ID` with a missing `RECEIVED DATE` gives `ValueError("RECEIVED DATE")`. Otherwise there is exactly one document per row, in row order (rows with the same ID are not merged), and document `i` is `DocumentOf` row `i`. |
| `Ingest.ColumnIndex` | src/ingest.py:34 | The position found is the first column with that name, or the column count when there is none. |
| `Ingest.EntryParts` | src/ingest.py:30 | `f"{col}: {val}"` is the column name, then `": "`, then the value, and has exactly their combined length. |
| `Ingest.EntrySingleLine` | src/ingest.py:30 | An entry contains a newline iff its column name or its value does. |
| `Ingest.DocumentOf` | src/ingest.py:28-35 | The metadata has the single key `ID`, holding the row's cell in the first `ID` column. |
| `Ingest.DocumentLines` | src/ingest.py:28-31 | When no name or cell holds a newline, the document's lines are exactly the `col: val` entries of every column, in column order, including columns beyond the required two. |
| `Ingest.NoTrailingNewline` | src/ingest.py:31 | The document text is non-empty and does not end in a newline when the last cell does not. |

## Left out

- IEEE-754 floating point: all arithmetic is on exact reals. `round` is taken on the exact value, ties to even. Binary representation error is not modelled. For example, Python computes `0.95 * (n - 1)` and `x / 1000.0 * price` in floats, so its result can differ from the exact one in the last bit and round the other way on a near-tie.
- `Metrics.MetricsFile.LogMetrics`: the directory creation (`mkdir`) and the opening of the file are not modelled. Appending always succeeds.
- `Metrics.MetricsFile.ReadMetrics`: lines are split on `"\n"` only. Python's universal-newline translation of `"\r"` and `"\r\n"` when reading in text mode is not modelled.
- `Metrics.LogThenRead`: the round trip needs the existing log to end in a newline (or to be missing). If the file's last line is unterminated, the appended record joins it on the same line. The model states this as a precondition; it does not describe the resulting line.
- JSON is abstract: `json.dumps` and `json.loads` are the parameters `dumps` and `loads`. The one property needed of them is a precondition on the records actually logged (`RoundTrips`); records Python's codec does not round-trip exactly (such as NaN, or floats whose text form is rounded) fall outside the round-trip lemmas. A line that decodes to something other than an object, which would make `r.get` raise `AttributeError`, is not modelled: `loads` yields records or fails.
- Field values are either numbers or non-numbers (`Value.Str`). JSON `true`/`false`, which Python compares and sums as 1 and 0, and `null` are not distinguished. Every non-numeric value in `ts`, `latency_seconds` or `cost_est_usd` is treated as raising `TypeError`.
- `Metrics.Aggregate`: the wall-clock read `time.time()` is the parameter `now`.
- `Chains.RunWithMetrics`: `perf_counter()` is read as the two parameters `start` and `stop`. The chain, the OpenAI callback context and the session-history lookup inside `invoke` are external, and are folded into the parameter `invoke`. The callback's `total_cost` attribute is an `Option`, `None` when the attribute is absent.
- `Chains.RunWithMetrics`: `invoke` is total. In the source an exception raised by `runnable.invoke` propagates out of `run_with_metrics`, and no usage record is built or logged for that call; the model has no such path.
- `build_chain` and `with_memory` (src/chains.py) are pipe composition and a constant prompt template, with no logic to model.
- `src/ingest.py`: `pd.read_csv`, embedding, `Chroma.from_documents`, `persist`, the print statement and the command line are not modelled. The table is given as column names plus each cell's `str()` text. Pandas' own formatting of values (such as `nan` or float renderings) is not modelled.
- `Ingest.BuildDocuments` requires a rectangular table (one cell per column in every row), which a data frame always is. The metadata reads the first `ID` column; data frames read from CSV have distinct column names.
- The Streamlit page (`app.py`), configuration loading from the environment (`src/config.py`), `src/vectorstore.py` and `src/memory.py` are not part of this model. Only the shape of the record the page logs (`app.py:79-83`) is modelled, as `Chains.TurnRecord`.
