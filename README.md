# Stock price and revenue scraper — verified model of its core logic

The script `extract_visual_stock_data.py` fetches the price history of a ticker,
scrapes a revenue table from a web page and plots both series. This project
models in Dafny the three pieces of logic in it that do not depend on the
outside world:

- **`retrieve_html`** (module `Retrieval`, `retrieval.dfy`). It makes one GET
  request. If that request fails, it retries up to five times, sleeping before
  each retry and stopping at the first status 200. It returns the document only
  if the last status it saw is 200, and raises `HTMLRetrievalError` otherwise.
  The HTTP layer is a function from the request number to the response
  (status and body) that request receives. The sleep is a counter. The loop is
  a `for` loop with an early `break`, as in the script. Its postconditions tie
  the request count to the recursive specification `RequestsFrom` and the
  outcome to "some status among the first six is 200".
- **Revenue table extraction and cleanup** (module `Revenue`, `revenue.dfy`).
  The parsed page is a sequence of `tbody` elements. Each is a sequence of rows,
  and each row is the text of its `td` cells. `ExtractRevenue` is the row loop
  of `main`: it appends `(cell 0, cell 1)` per row of the second `tbody`, and it
  fails with the index error the script would raise. `CleanRevenue` models the
  two `str.replace` calls. Single-character patterns are literal there, so `$`
  is a character, not an end-of-line regex. `CleanRevenueTable` models the
  column replace followed by the mask `Revenue != ""`.
- **The cutoff filter of `make_graph`** (modules `Chart` and `Dates`). Both
  series are cut with one cutoff string, keeping records with `Date <= cutoff`
  in order. This keeps records older than the cutoff, as the code does.
  For the revenue series, whose Date column holds text, `Date <= cutoff` is
  Python string comparison (`Dates.LexLeq`). The price series has a datetime
  column, which pandas compares with the cutoff after parsing it as a
  timestamp; the model writes those dates as `YYYY-MM-DD` strings too.
  `Dates.IsoDateOrder` proves that on `YYYY-MM-DD` strings, the format
  `strftime('%Y-%m-%d')` writes, this comparison is chronological.

Module `Sequences` holds the order-preserving `Filter` that models pandas
boolean-mask selection; it is used by both the cleanup and the cutoff.
Module `Report` composes the pieces the way `main` does. Module `Outcomes`
holds the error variants.

The code does not drop revenue text that is not a number, and it does not check
that the revenue is non-negative: it only strips `,` and `$` and drops empty
strings. The model follows the code and claims nothing about the form of the
cleaned text beyond that.

## Model

| member | source | states |
|---|---|---|
| Retrieval.RequestsFrom | extract_visual_stock_data.py:22-27 | From request k on, the number of requests made is between k+1 and 6, every request before the last one failed, and when fewer than 6 were made the last one got 200 |
| Retrieval.RequestCount | extract_visual_stock_data.py:21-27 | One to six requests are made, every one before the last failed, and fewer than six means the last got 200 |
| Retrieval.LastBody | extract_visual_stock_data.py:28-29 | The returned document is the body of the first response with status 200, and the first response's body when that one succeeds |
| Retrieval.RequestCountIsFirstSuccess | extract_visual_stock_data.py:22-27 | When request i (i < 6) is the first to get 200, exactly i+1 requests are made |
| Retrieval.SucceedsIffLastOk | extract_visual_stock_data.py:28-31 | The last status seen is 200 exactly when some status among the first six is 200 |
| Retrieval.FourFailuresThenOk | extract_visual_stock_data.py:20-31 | Four failures followed by a 200 give success after five requests |
| Retrieval.SixFailures | extract_visual_stock_data.py:20-31 | Six failures give the error after six requests |
| Retrieval.RetrieveHtml | extract_visual_stock_data.py:20-31 | The request count is RequestCount, between 1 and 6; sleeps are requests minus one; all requests but the last failed; the result is the body of the last response exactly when one of the first six statuses is 200, and HtmlRetrievalError after six requests otherwise; a first 200 means one request, no sleep, and that body |
| Revenue.TableRecords | extract_visual_stock_data.py:86-91 | One record per row, in order, Date the first cell and Revenue the second |
| Revenue.ExtractRevenue | extract_visual_stock_data.py:84-91 | Fails with MissingTableBody when there is no second tbody, and otherwise with ShortRow of the first row that has fewer than two cells; succeeds exactly when every row has two cells, with record i equal to (cell 0, cell 1) of row i |
| Revenue.RemoveChar | extract_visual_stock_data.py:96 | `s.replace(c, "")` leaves no `c`, introduces no character and does not lengthen the text |
| Revenue.RemoveCharCounts | extract_visual_stock_data.py:96 | Every character other than `c` keeps its number of occurrences |
| Revenue.RemoveCharConcat | extract_visual_stock_data.py:96 | Removal distributes over concatenation, so the order of the kept characters is kept |
| Revenue.CleanRevenue | extract_visual_stock_data.py:96 | The cleaned revenue holds no `,` and no `$` and is no longer than the input |
| Revenue.CleanRevenueCounts | extract_visual_stock_data.py:96 | Cleanup removes every `,` and `$` and keeps every other character as often as it occurs |
| Revenue.CleanRevenueConcat | extract_visual_stock_data.py:96 | Cleanup distributes over concatenation (order kept) |
| Revenue.CleanRevenueKeepsPlainText | extract_visual_stock_data.py:96 | Text without `,` or `$` is unchanged |
| Revenue.CleanRevenueIdempotent | extract_visual_stock_data.py:96 | Cleaning twice is cleaning once |
| Revenue.CleanRevenueCons | extract_visual_stock_data.py:96 | A leading `,` or `$` is dropped and any other leading character is kept |
| Revenue.CleanRevenueDollarAmount | extract_visual_stock_data.py:96 | `"$" + thousands + "," + units` cleans to `thousands + units`, as `"$45,678"` to `"45678"` |
| Revenue.CleanRow | extract_visual_stock_data.py:96 | The Date of a record is untouched and its Revenue holds no `,` or `$` |
| Revenue.StripRevenueColumn | extract_visual_stock_data.py:96 | The column replace keeps the number of records and cleans record i in place |
| Revenue.StripRevenueColumnConcat | extract_visual_stock_data.py:96 | The column replace works record by record |
| Revenue.HasRevenue | extract_visual_stock_data.py:99 | The mask holds exactly when the record's Revenue text is not empty |
| Revenue.CleanRevenueTable | extract_visual_stock_data.py:96-99 | No record of the result has an empty revenue or a `,` or `$` in it, and none is added |
| Revenue.CleanRevenueTableMembers | extract_visual_stock_data.py:96-99 | A record is in the result exactly when it is the cleaned form of an input record and its revenue is non-empty |
| Revenue.CleanRevenueTableConcat | extract_visual_stock_data.py:96-99 | Cleanup keeps the kept records in their original relative order |
| Revenue.CleanRevenueTableKeepsNonEmpty | extract_visual_stock_data.py:98-99 | When no cleaned revenue is empty, every record is kept, in place |
| Revenue.CleanRevenueOfSymbols | extract_visual_stock_data.py:96-99 | Text made only of `,` and `$` cleans to the empty string |
| Revenue.CleanRevenueTableSingle | extract_visual_stock_data.py:96-99 | One record is kept in cleaned form or dropped when its cleaned revenue is empty |
| Revenue.CleanRevenueTableExample | extract_visual_stock_data.py:96-99 | `("2020-12-31", "$45,678")`-shaped rows become `(date, "45678")`, and a row of only separators is dropped |
| Sequences.Filter | extract_visual_stock_data.py:99 | The mask keeps exactly the elements that pass and is no longer than its input |
| Sequences.FilterCounts | extract_visual_stock_data.py:99 | Each passing element is kept as often as it occurs, and every other one is dropped |
| Sequences.FilterConcat | extract_visual_stock_data.py:99 | The mask distributes over concatenation, so it keeps relative order |
| Sequences.FilterKeepsAll | extract_visual_stock_data.py:99 | A mask every element passes returns the sequence unchanged |
| Sequences.FilterNarrow | extract_visual_stock_data.py:44-45 | Masking with a wider then a narrower mask is masking with the narrower one |
| Sequences.FilterKeepsNone | extract_visual_stock_data.py:44-45 | A mask no element passes leaves nothing |
| Dates.LexLeq | extract_visual_stock_data.py:44-45 | Python's `a <= b` on str: a prefix of `b` is `<=` `b`, and no string is `<=` one of its proper prefixes |
| Dates.LexLeqFirstDifference | extract_visual_stock_data.py:44-45 | When neither string is a prefix of the other, the first differing code point decides |
| Dates.LexLeqReflexive | extract_visual_stock_data.py:44-45 | Every date is on or before itself |
| Dates.LexLeqAntisymmetric | extract_visual_stock_data.py:44-45 | Two strings each `<=` the other are equal |
| Dates.LexLeqTransitive | extract_visual_stock_data.py:44-45 | String `<=` is transitive |
| Dates.LexLeqTotal | extract_visual_stock_data.py:44-45 | Any two strings are comparable |
| Dates.LexLeqConcat | extract_visual_stock_data.py:44-45 | For concatenations with equal-length first parts, the first parts decide unless they are equal |
| Dates.DigitsValue | extract_visual_stock_data.py:43 | A string of n decimal digits denotes a number below 10^n |
| Dates.DigitsOrder | extract_visual_stock_data.py:43-45 | On digit strings of one length, string order is numeric order and equal strings are equal numbers |
| Dates.Year | extract_visual_stock_data.py:43 | The four-digit year field is below 10000 |
| Dates.Month | extract_visual_stock_data.py:43 | The two-digit month field is below 100 |
| Dates.Day | extract_visual_stock_data.py:43 | The two-digit day field is below 100 |
| Dates.IsoDateOrder | extract_visual_stock_data.py:43-45 | On `YYYY-MM-DD` strings `a <= b` holds exactly when (year, month, day) of a is not after that of b |
| Dates.IsoDateOrderAll | extract_visual_stock_data.py:43-45 | The same, for every pair of `YYYY-MM-DD` strings at once |
| Chart.OnOrBefore | extract_visual_stock_data.py:44-45 | The mask passes a record exactly when its date string is at most the cutoff, which on `YYYY-MM-DD` dates means its day is not after the cutoff day |
| Chart.KeepOnOrBefore | extract_visual_stock_data.py:44-45 | The cut keeps exactly the records with `Date <= cutoff` |
| Chart.KeepOnOrBeforeCounts | extract_visual_stock_data.py:44-45 | Each record dated on or before the cutoff is kept as often as it occurs, and no other |
| Chart.KeepOnOrBeforeConcat | extract_visual_stock_data.py:44-45 | The cut keeps relative order |
| Chart.KeepOnOrBeforeCons | extract_visual_stock_data.py:44-45 | The cut of a series is its first record if that passes, followed by the cut of the rest |
| Chart.EarlierCutoffNarrows | extract_visual_stock_data.py:44-45 | Cutting at a later date and then at an earlier one is cutting at the earlier one |
| Chart.AscendingAfterCutoff | extract_visual_stock_data.py:44-45 | In an ascending series whose first date is after the cutoff, nothing is kept |
| Chart.SortedKeepsPrefix | extract_visual_stock_data.py:44-45 | On a series in ascending date order, the cut is a prefix: the oldest records |
| Chart.KeepOnOrBeforeChronological | extract_visual_stock_data.py:43-45 | With `YYYY-MM-DD` dates, a record is kept exactly when its day is not after the cutoff day |
| Chart.MakeGraph | extract_visual_stock_data.py:34-58 | Both panels are cut with the same cutoff, each keeping exactly its records dated on or before it; the title is the stock name |
| Report.StockReport | extract_visual_stock_data.py:65-103 | Retrieval failure aborts with HtmlRetrievalError; otherwise it fails with MissingTableBody when the parsed page has no second tbody, with ShortRow of the first row with fewer than two cells when there is one, and succeeds exactly when the second tbody is complete, the figure being MakeGraph of the prices and the cleaned extracted table |

## Left out

- The market-data fetch (`yf.Ticker(...).history`, `reset_index`): the price history is an input sequence of (Date, Close) records.
- The HTTP GET, the URL formatting and the random choice of User-Agent: the responses are the `server` function, so the User-Agent and URL have no effect in the model. A GET that raises (connection failure) is not modelled; every request gets a response.
- `time.sleep(5)`: counted, not timed.
- BeautifulSoup parsing: the page structure is a `parse` parameter of `Report.StockReport`; `RetrieveHtml` returns the body text of the successful response.
- `datetime.now()`, `relativedelta(months=6)` and `strftime`: the cutoff string is a parameter; `Dates.IsIsoDate` describes the format it has.
- Chart.KeepOnOrBefore: price dates are a pandas datetime column, which pandas compares with the cutoff after parsing it as a timestamp. The model writes them as `YYYY-MM-DD` strings compared as strings (chronological by `Dates.IsoDateOrder`), so time of day and time zone are not modelled.
- `pd.to_datetime`, `.astype("float")` and the whole plotly figure (axes, titles, height, range slider, `show`): `Chart.Graph` keeps only the title and the two plotted series. A revenue text that is not a number would make `astype("float")` fail; that failure is not modelled.
- `dropna` on the revenue table is the identity on cell text and is not modelled separately.
- `print` output and the warning filter.
