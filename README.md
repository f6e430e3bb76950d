# indexs_chart: paginated stock-index records, modelled in Dafny

The system serves a remote CSV of daily stock-index records as a paginated
JSON API, and a dashboard browses it page by page.

- **Backend** (`backend/node.js`). At startup it fetches the CSV once and
  parses it. The parsed rows go into a process-wide array, `fullData`.
  `GET /get-csv-data?page=&limit=` normalises both parameters with
  `parseInt(...) || default` and answers with
  `fullData.slice((page-1)*limit, page*limit)`.
- **Dashboard** (`frontend/task_frontend/src/App.jsx`). It keeps `page`,
  `companies`, `loading` and `selectedCompany`. Each time `page` changes it
  fetches `page=<page>&limit=15`. Previous and Next buttons move the page, and
  a click on a list entry selects it.

The model has five modules:

- `Common` (`common.dfy`): `Option`, `Record` (`map<string, string>`, the
  string cells the CSV parser returns), `Min` and `Max`.
- `JsNumbers` (`js_numbers.dfy`): the global `parseInt` of ECMA-262 (section
  19.2.5) with no radix. It covers white-space trimming, the optional sign,
  the `0x`/`0X` prefix and the longest digit prefix; `None` stands for NaN.
  It also models Number::toString of a non-negative integer, which the
  dashboard uses to write `page` into its URL.
- `JsArraySlice` (`js_array_slice.dfy`): `Array.prototype.slice` for integer
  arguments (ECMA-262, section 23.1.3). Relative indices count from the end
  when negative and are clamped to `[0, N]`.
- `Backend` (`backend.dfy`): the route as the pure function `GetCsvData`,
  built from `EffectivePage`/`EffectiveLimit`, `StartIndex`/`EndIndex` and
  `Page`. The class `DatasetStore` holds `fullData`: `Load` applies the
  startup outcome and `HandleGetCsvData` serves a request. The lemmas cover
  the properties of pagination.
- `Dashboard` (`dashboard.dfy`): the class `StockDashboard`, with one method
  per event, plus the lemma and client methods that connect the dashboard's
  requests to the backend's answers.

`page` and `limit` keep their sign: `parseInt("-2") || 1` is `-2`, and
`Array.prototype.slice` then counts from the end (see
`Backend.NegativeLimitDropsTail`). There is no readiness state: an
unpopulated store answers `[]`.

## Model

| member | source | states |
|---|---|---|
| JsNumbers.TrimStart | backend/node.js:29-30 | parseInt's first step removes leading white space and line terminators: the result is a suffix of the input and does not start with white space |
| JsNumbers.TrimStartRemovesOnlyWhiteSpace | backend/node.js:29-30 | every character that step removes is white space or a line terminator, so together with the row above it removes exactly the leading run |
| JsNumbers.DigitPrefixLength | backend/node.js:29-30 | the length of the longest leading run of radix digits: every character before it is a digit, and the character at it (if any) is not |
| JsNumbers.ParseInt | backend/node.js:29-30 | `parseInt` with no radix: white space trimmed, one optional sign, `0x`/`0X` for radix 16, the longest digit prefix, NaN when it is empty. It has no contract of its own; the ParseInt… lemmas below state its behaviour for every shape of input |
| JsNumbers.ParseIntMissing | backend/node.js:29-30 | a missing query value (`undefined`) parses to NaN |
| JsNumbers.ParseIntLetter | backend/node.js:29-30 | text that starts with a letter parses to NaN |
| JsNumbers.ParseIntNonNumeric | backend/node.js:29-30 | text with no decimal digit after its white space and optional sign parses to NaN |
| JsNumbers.ParseIntSkipsWhiteSpace | backend/node.js:29-30 | leading white space never changes the result of parseInt |
| JsNumbers.ParseIntLongestDecimalPrefix | backend/node.js:29-30 | white space, a sign, a decimal numeral, then anything but a digit parses to the numeral's value with the sign kept (negative values survive); "0x" instead switches to hexadecimal |
| JsNumbers.ParseIntHexPrefix | backend/node.js:29-30 | a `0x`/`0X` prefix after the optional sign makes parseInt read the following hexadecimal digits, sign kept |
| JsNumbers.ParseIntHexNoDigit | backend/node.js:29-30 | `0x` or `0X` with no hexadecimal digit after it (`"0x"`, `"-0xg"`) parses to NaN |
| JsNumbers.DecimalString | frontend/task_frontend/src/App.jsx:16 | `${page}` writes a non-empty run of decimal digits with no leading zero |
| JsNumbers.DecimalStringValue | frontend/task_frontend/src/App.jsx:16 | the digits written for n have numeral value n |
| JsNumbers.ParseIntDecimalString | backend/node.js:29-30 | parseInt reads back exactly the integer the dashboard wrote into the URL (round trip) |
| JsArraySlice.ResolveIndex | backend/node.js:33 | a slice index is clamped to [0, N]: kept within range, counted from the end when negative, saturated to N above and to 0 below |
| JsArraySlice.Slice | backend/node.js:33 | `slice` yields max(0, end' - start') elements, the i-th of which is element start' + i of the source (contiguous, in order), for the resolved indices start' and end' |
| JsArraySlice.SliceFromNonNegative | backend/node.js:33 | with a start of 0 or more, the slice is the sub-sequence between the start clamped to N and the resolved end, or empty when the end is before the start |
| Backend.Truthy | backend/node.js:29-30 | the `||` coercion of a parsed number: NaN and ±0 are falsy. No contract of its own; `EffectivePage` and `EffectiveLimit` state both of its cases |
| Backend.EffectivePage | backend/node.js:29 | the page is 1 when parseInt gives NaN or 0, and otherwise the parsed integer with its sign; it is never 0 |
| Backend.EffectiveLimit | backend/node.js:30 | the limit is 10 when parseInt gives NaN or 0, and otherwise the parsed integer with its sign; it is never 0 |
| Backend.StartIndex | backend/node.js:31 | `(page - 1) * limit`. No contract of its own; `EndIndex`, `PageIsWindow` and `PageBeyondDataIsEmpty` state what follows from it |
| Backend.EndIndex | backend/node.js:31-32 | endIndex is startIndex + limit: the requested window is exactly `limit` wide |
| Backend.Page | backend/node.js:33 | `fullData.slice(startIndex, endIndex)`. No contract of its own; `PageIsWindow`, `PageBeyondDataIsEmpty`, `NegativeLimitDropsTail`, `PagesPartitionDataset` and `PageCountIsExact` state its contents |
| Backend.GetCsvData | backend/node.js:28-36 | the route's answer for a query. No contract of its own; `NonNumericQueryIsDefault`, `DecimalQueryIsExact`, `EmptyDatasetServesEmpty` and `TwoRowExample` state its answers |
| Backend.NonNumericQueryIsDefault | backend/node.js:29-30 | missing or non-numeric `page` and `limit` behave exactly like page 1 with limit 10 |
| Backend.DecimalQueryIsExact | backend/node.js:29-33 | positive parameters written as decimal numerals select exactly that page and limit |
| Backend.PageIsWindow | backend/node.js:31-33 | for page ≥ 1 and limit ≥ 1 the answer is `fullData[min(start, N) .. min(start + limit, N))` in source order, and its length is min(limit, max(0, N - start)) |
| Backend.PageBeyondDataIsEmpty | backend/node.js:33-35 | when (page-1)*limit ≥ N the answer is the empty array, for any page and limit |
| Backend.NegativeLimitDropsTail | backend/node.js:33 | page 1 with limit -k answers all records but the last k (relative-index clamping) |
| Backend.EmptyDatasetServesEmpty | backend/node.js:13 | while `fullData` is still `[]`, every request is answered with `[]` |
| Backend.PageCount | backend/node.js:31-33 | ceil(N / limit) is the fewest pages that cover N records: count·limit ≥ N and (count-1)·limit < N |
| Backend.PageExtendsPrefix | backend/node.js:31-33 | the records before page p, followed by page p, are the records before page p + 1: consecutive pages are adjacent |
| Backend.PagesThroughIsPrefix | backend/node.js:31-33 | pages 1..k concatenated are exactly the first min(k·limit, N) records |
| Backend.PagesPartitionDataset | backend/node.js:31-33 | for any limit ≥ 1, pages 1..ceil(N/limit) concatenated give back `fullData`: each record once, in order |
| Backend.PageCountIsExact | backend/node.js:31-33 | every page after ceil(N/limit) is empty, and every page up to it holds at least one record |
| Backend.SingleRecordPage | backend/node.js:31-33 | with limit 1, page p is exactly the p-th record, or empty past the data |
| Backend.TwoRowExample | backend/node.js:29-35 | two rows, `?page=1&limit=1` gives the first, `page=2` the second and `page=3` gives `[]` |
| Backend.DatasetStore.constructor | backend/node.js:13 | the dataset starts empty |
| Backend.DatasetStore.Load | backend/node.js:14-26 | a successful parse replaces the dataset wholesale with the parser's output; a fetch error or a parse error leaves it unchanged |
| Backend.DatasetStore.HandleGetCsvData | backend/node.js:28-36 | the handler answers `GetCsvData(fullData, query)` and never changes `fullData` (no modifies clause); before population it answers `[]` |
| Dashboard.RequestFor | frontend/task_frontend/src/App.jsx:16 | the query of `?page=${page}&limit=15`. No contract of its own; `RequestedPageContents` states what the backend answers to it |
| Dashboard.PreviousPage | frontend/task_frontend/src/App.jsx:97 | `Math.max(1, p-1)` is at least 1; from page p ≥ 1 it stays put exactly when p = 1, and otherwise it is p - 1 |
| Dashboard.StockDashboard.Valid | frontend/task_frontend/src/App.jsx:10-16 | the invariant every event keeps: `page ≥ 1`, page 1 until the first request, and the latest request is for the page on display. Each method's `ensures Valid()` states that it is kept |
| Dashboard.StockDashboard.PreviousDisabled | frontend/task_frontend/src/App.jsx:98 | `disabled={page === 1}`. No contract of its own; `Previous` states that a click while it is true changes nothing |
| Dashboard.StockDashboard.constructor | frontend/task_frontend/src/App.jsx:8-11 | the initial state: page 1, no companies, no selection, not loading, no request yet |
| Dashboard.StockDashboard.FetchData | frontend/task_frontend/src/App.jsx:14-16 | sets loading and sends the request for `page=<page>&limit=15`; nothing else changes |
| Dashboard.StockDashboard.Mount | frontend/task_frontend/src/App.jsx:13-29 | the effect's first run, with no request sent before, is at page 1 and sends the request for page 1 |
| Dashboard.StockDashboard.Previous | frontend/task_frontend/src/App.jsx:97-98 | page becomes max(1, page-1). When disabled (page 1) nothing changes and no request is sent; otherwise the page drops by one, loading is set and the new page is requested. Companies and selection are kept, and `page ≥ 1` is preserved |
| Dashboard.StockDashboard.Next | frontend/task_frontend/src/App.jsx:108 | page grows by one with no upper bound, loading is set and the new page is requested; companies and selection are kept |
| Dashboard.StockDashboard.ReceivePage | frontend/task_frontend/src/App.jsx:17-21 | a successful response replaces companies with the returned array and clears loading |
| Dashboard.StockDashboard.FailFetch | frontend/task_frontend/src/App.jsx:22-25 | a failed request clears loading and keeps the previous companies |
| Dashboard.StockDashboard.Select | frontend/task_frontend/src/App.jsx:72 | a click on an entry selects that record; page, companies, loading and requests are unchanged |
| Dashboard.RequestedPageContents | frontend/task_frontend/src/App.jsx:16 | the backend answers the dashboard's request for page p with `fullData[min((p-1)·15, N) .. min(p·15, N))` |
| Dashboard.ServePage | backend/node.js:28-36 | the store's answer to the dashboard's request for page p is records (p-1)·15 up to p·15 of `fullData`, cut at its end |
| Dashboard.DeliverLatest | frontend/task_frontend/src/App.jsx:16-21 | when the backend answers the latest request, the dashboard shows records (page-1)·15 up to page·15 of the dataset, cut at its end |
| Dashboard.BrowseSecondPage | frontend/task_frontend/src/App.jsx:13-29 | startup, mount, the first answer, Next and the second answer leave records 15..29 on screen, or nothing when the CSV failed to load |

## Left out

- The HTTP fetch (`axios.get`, backend/node.js:14) is network I/O. Its result, together with the parse, reaches the model only as the outcome given to `Backend.DatasetStore.Load`.
- CSV parsing by `csv-parse` (backend/node.js:16) is a foreign library whose source is not part of this model. Its output is an opaque `seq<Record>` or `ParseError`.
- The `console.error` logging on the two error paths (backend/node.js:18, 25; App.jsx:23) is I/O.
- Express setup, CORS, `listen` and JSON serialisation (backend/node.js:6-9, 35, 38-40) are framework plumbing. The route's answer is the sequence itself.
- Concurrency: the race between startup population and early requests, and responses arriving out of order at the dashboard. Both are modelled as discrete events applied one at a time. `Dashboard.DeliverLatest` serves only the latest request.
- React's scheduling: a state update, its re-render and the effect it triggers are folded into one method call. The bail-out, where a `setPage` to the same value causes no effect, is modelled.
- `formatNumber` and `prepareChartData` (App.jsx:31-49) use floating point (`parseFloat`) and locale formatting (`toLocaleString`). They are left out, as are all JSX rendering, styles and charts.
- backend/tempCodeRunnerFile.js is an editor scratch copy of an older dashboard. It is not part of this model.
- JavaScript numbers are doubles; the model's integers are unbounded. IEEE-754 rounding of numerals above 2^53 in `parseInt` is not modelled, and neither is rounding of the products `(page-1)*limit` and `page*limit` beyond 2^53.
- `parseInt` never returns -0 in the model: -0 and +0 are both falsy, so `|| default` treats them alike.
- Query values that arrive as arrays (repeated keys) are not modelled: each parameter is absent or one string. Strings are sequences of code points, not UTF-16 code units; this matters for none of the white-space characters.
- No `Record` fields are inspected: no part of the core reads them except for rendering.
