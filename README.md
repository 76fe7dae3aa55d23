# product_scraper price pipeline, in Dafny

product_scraper keeps a table of saved searches (`queries`). For every search it opens the
Lazada and Amazon (Singapore) result pages and reads the listed prices. It then records four
summary figures per storefront: lowest, highest, median rounded to cents, and mean. Every
record becomes one row of the `prices` table, and all rows are written in a single batch.

This project models that pipeline and proves properties of it:

- **Search URL.** `get_full_query_url` builds the URL from a base URL, a delimiter and the
  query terms. It accumulates term plus delimiter in a loop, then slices off the last delimiter.
- **Exclusion filter.** It keeps the elements that equal no exclude term.
- **Price parsers.**
  - Lazada: every `$` line of a listing's text is a price.
  - Amazon: the text after the first `S` is cut into dollars and cents.
- **Empty checks.**
  - No element at all gives `None`.
  - Elements that give no price reach `min([])` and raise.
- **Summary record.** `PriceStats` holds the query id, the storefront name and the four figures.
- **Saved searches.** Rows of `queries` become `QueryContext`s. There are two loaders:
  - `query_context.py`, whose contexts carry the row id;
  - the older `context.py`, whose contexts do not.
- **Rows.** `price_stats_to_prices_row_entry` turns a record into a row.
- **Runs.**
  - The current run (`run` in `src/main.py`) drops `None` results, and its bare `except` turns
    any exception into a run that writes nothing.
  - The older run (`main.py`) keeps every result.
  - The older draft of the scrapers (`scraper.py`) has its own `__main__` loop.

Modelling choices:

- **Python exceptions** are values: `Result<T> = Ok(value) | Raised(error)`. The first
  exception ends the computation, as in Python.
- **The browser** is a function from a URL to a `Page`. A page records how the wait for the
  "results loaded" marker ended, and the visible text of each element the listing selector finds.
- **Imperative code is modelled as methods.**
  - The loops of the source (URL building, price collection, context loading, the run loops)
    are `method`s with `while`/`for` loops.
  - Each method is proved equal to a recursive specification function.
  - The properties are proved about those functions.
- **Prices** are exact reals.
- **The clock** of `price_stats_to_prices_row_entry` is a parameter: `clock(k)` is the time at
  which the `k`-th row is built.

The source is followed where it differs from the intent one might read into it:

- **A bad line or a missing price raises and aborts the run.** An empty line, a `$` line that
  is not a number, or an Amazon segment without a newline raises. So does a page whose elements
  give no price (`min([])`). In the current run any such exception aborts the whole run, which
  then writes nothing. None of these cases skips the element or returns `None`.
- **The `return` inside `finally` discards exceptions.** In `src/scraper.py` it discards
  whatever the navigation or the wait raised, timeout or not.
- **An Amazon element is cut at its first `S`.** The price is read between the first and the
  second `S`, so an `S` before `S$`, as in `Save`, makes the element raise or read the wrong
  text.
- **The draft re-raises some driver failures.** It returns only when elements were found, so a
  failure other than a timeout still propagates when the page is empty.

## Model

| member | source | states |
|---|---|---|
| Results.ReadAll | query_context.py:15-19 | reading rows one by one gives one value per row, each the value read from that row; when it raises, the exception is that of the first row that fails, every earlier row having read |
| Results.ReadAllFails | query_context.py:15-19 | reading all rows raises exactly when reading one of them raises |
| PyStr.Split | query_context.py:17 | `split(' ')` gives at least one field; exactly one when the separator does not occur; no field contains the separator |
| PyStr.JoinSplit | query_context.py:17 | joining the split fields with the separator gives the text back |
| PyStr.SplitJoin | query_context.py:17 | splitting a join of separator-free fields gives the fields back |
| PyStr.DoubledSeparatorGivesEmptyField | query_context.py:17 | two consecutive spaces put an empty term between their neighbours |
| PyStr.SplitMax | src/scraper.py:94 | `split('\n', 2)` gives one to three fields, and exactly `[s]` when there is no newline |
| PyStr.Join | src/scraper.py:19-22 | a join begins with its first part |
| PyStr.SplitMaxFirstFields | src/scraper.py:94 | `split('\n', 2)` has two fields or more exactly when there is a newline; its first two fields are those of the unbounded split |
| PyStr.DropLast | src/scraper.py:22 | for `0 < k <= len(s)`, `s[:-k]` followed by the last `k` characters is `s` |
| PyStr.ParseInt | src/scraper.py:95 | `int` succeeds exactly on a non-empty run of digits, and its value has no more digits than the text |
| PyStr.ParseFloat | src/scraper.py:52 | `float('')` is a ValueError; a run of digits parses to its integer value; every parsed value is non-negative |
| PyStr.ParseFloatAccepts | src/scraper.py:52 | `float` succeeds exactly on text made of digits and at most one `.`, with at least one digit; anything else (a comma, a sign, a space, a second point) is a ValueError |
| PyStr.ThousandsSeparatorRejected | src/scraper.py:52 | `float('1,299.00')` is a ValueError |
| PyStr.ParseFloatOfDecimal | src/scraper.py:52 | for digit runs `whole` and `fraction`, not both empty, `float` of `whole.fraction` is the decimal `whole + fraction / 10^len(fraction)` |
| PriceStatistics.Min | src/scraper.py:58 | `min` is one of the prices and no price is lower |
| PriceStatistics.Max | src/scraper.py:59 | `max` is one of the prices and no price is higher |
| PriceStatistics.Insert | src/scraper.py:60 | inserting into an ascending list keeps it ascending and adds exactly that price |
| PriceStatistics.Sort | src/scraper.py:60 | the sorted prices are ascending and a permutation of the prices |
| PriceStatistics.SortedUnique | src/scraper.py:60 | two ascending permutations of the same prices are equal |
| PriceStatistics.MeanBounds | src/scraper.py:61 | lowest <= mean <= highest |
| PriceStatistics.MedianBounds | src/scraper.py:60 | lowest <= unrounded median <= highest |
| PriceStatistics.Round2Error | src/scraper.py:60 | `round(x, 2)` is within half a cent of `x` |
| PriceStatistics.Round2Monotone | src/scraper.py:60 | rounding keeps the order of two values |
| PriceStatistics.Round2WholeCents | src/scraper.py:60 | rounding leaves a whole number of cents unchanged |
| PriceStatistics.RoundedMedianBounds | src/scraper.py:60 | when lowest and highest are whole cents, the rounded median also lies between them |
| PriceStatistics.SingletonStats | src/scraper.py:58-61 | a single price is its own min, max, mean and median |
| PriceStatistics.StatsOrderIndependent | src/scraper.py:58-61 | min, max, median and mean depend only on the multiset of prices |
| PriceStatsRows.ToRowEntry | price_stats.py:22-31 | the row has exactly the seven `prices` columns, and `query_dt` is the instant given |
| PriceStatsRows.RowEntryRoundTrip | price_stats.py:23-31 | every field lands in the column of the same name: reading the row back gives the record |
| QueryContexts.SplitField | query_context.py:17-18 | an absent column splits as `''` into `['']`; a NULL column raises; otherwise at least one term |
| QueryContexts.ContextOf | query_context.py:16-19 | the context carries the row id; its terms contain no space and join back to `query_string`, and likewise for `exclude_string`; it has at least one exclude term; it raises exactly when a column is NULL |
| QueryContexts.TermsAreTheSplit | query_context.py:17-18 | the query and exclude terms are exactly `split(' ')` of their columns |
| QueryContexts.GetQueryContextList | query_context.py:9-20 | no rows give `None`; otherwise the list of the contexts of the rows, in order, or the first exception |
| Contexts.ContextOf | context.py:15-17 | the terms contain no space and join back to `query_string`; exclude terms are always `['']`, because `exclude_string` is never selected |
| Contexts.TermsAreTheSplit | context.py:15 | the query terms are exactly `split(' ')` of `query_string` |
| Contexts.GetQueryContextList | context.py:8-18 | no rows give `None`; otherwise the contexts of the rows in order, or the first exception |
| Scraper.TerminatedIsJoinThenDelimiter | src/scraper.py:19-21 | the accumulated text is the join of the terms followed by one delimiter |
| Scraper.GetFullQueryUrl | src/scraper.py:18-23 | with a non-empty delimiter, the base URL followed by the terms joined with the delimiter, with no trailing delimiter (no terms: the base URL); with an empty delimiter, the base URL alone |
| Scraper.Exclude | src/scraper.py:46 | keeps an element exactly when it equals no exclude term, and never adds one |
| Scraper.ExcludeAppend | src/scraper.py:46 | the filter distributes over concatenation, so it keeps the order of what it keeps |
| Scraper.ExcludeNothing | src/scraper.py:46 | with no exclude terms every element is kept |
| Scraper.Filtered | src/scraper.py:45-46 | the elements left after the guarded filter are among the elements, and an element is left exactly when it equals no exclude term |
| Scraper.FilteredIsExclude | src/scraper.py:45-46 | skipping the filter for an empty term list gives the same elements as filtering |
| Scraper.ExcludeCount | src/scraper.py:46 | an excluded text is removed every time it occurs; any other text is kept as often as it occurs |
| Scraper.FilteredPermutation | src/scraper.py:45-46 | reordering the elements reorders what the filter keeps, and nothing else |
| Scraper.ExcludeAsWritten | src/scraper.py:46 | the filter as written compares each WebElement with the exclude strings: it keeps a text exactly when it is among the elements and its WebElement is not among the exclude strings |
| Scraper.ExcludeAsWrittenKeepsAll | src/scraper.py:46 | a WebElement never equals a string, so the filter as written keeps every element, in order |
| Scraper.EmptyTextFilterDivergence | src/scraper.py:45-53 | with exclude terms `['']` and listings `''` and `$5.00`, comparing texts drops the empty listing and reads the price 5; the filter as written keeps it and raises IndexError on `item[0]` |
| Scraper.LazadaLinePrices | src/scraper.py:49-53 | an empty line raises IndexError; a line reads exactly when it is non-empty and, if it starts with `$`, the rest parses as a float; a `$` line gives one price, the `float` of the text after the `$`, and any other line gives none |
| Scraper.ThousandsSeparatorRaises | src/scraper.py:52 | a listing line `$1,299.00` raises ValueError on `float('1,299.00')` |
| Scraper.LazadaLinesReadable | src/scraper.py:49-53 | a listing gives prices exactly when every line is non-empty and every `$` line parses |
| Scraper.LazadaLinesDollarPrices | src/scraper.py:49-53 | one price per `$` line, in order, duplicates kept, each the value of the text after the `$` |
| Scraper.LazadaListingPrice | src/scraper.py:47-53 | a listing whose text is `$<whole>.<fraction>` gives exactly that decimal |
| Scraper.LazadaLineStep | src/scraper.py:49-53 | one line of a listing: an empty line or a `$` line that does not parse ends the listing with its exception, a `$` line appends its price, any other line appends nothing |
| Scraper.CollectListingPrices | src/scraper.py:48-53 | the inner loop computes the prices of one listing |
| Scraper.CollectLazadaPrices | src/scraper.py:44-53 | the loops compute the prices of all kept listings in order, or the first exception |
| Scraper.AmazonElementPrices | src/scraper.py:90-96 | text with no `S` gives no price; an element gives at most one price |
| Scraper.AmazonSegmentPrices | src/scraper.py:93-96 | a segment with no newline fails to unpack; otherwise it gives exactly one non-negative price or raises |
| Scraper.AmazonSegmentWithoutNewline | src/scraper.py:93-94 | a segment after the `S` with no newline fails to unpack |
| Scraper.AmazonRenderedPrice | src/scraper.py:90-95 | with no `S` before it, `S$<dollars>` then a line starting with two cent digits reads as dollars + cents / 100, whatever text follows |
| Scraper.AmazonEarlierS | src/scraper.py:90-93 | only the text between the first and the second `S` is read, so an earlier `S` takes the place of the one in `S$` |
| Scraper.AmazonSaveRaises | src/scraper.py:90-94 | `Save S$12` then `34` fails to unpack instead of reading 12.34 |
| Scraper.AmazonElementPriceRange | src/scraper.py:90-95 | text that splits on `S` into fewer than two pieces gives no price; otherwise the element's prices are those of the piece after the first `S`; at most one price, a non-negative whole number of cents |
| Scraper.AmazonSegmentPriceRange | src/scraper.py:93-95 | a segment that reads has at least two fields, dollars `d` and cents `c` both parse, `c < 100`, and its one price is `(100 d + c) / 100`, so it lies in `[d, d + 0.99]` |
| Scraper.AmazonPricesWholeCents | src/scraper.py:89-96 | every Amazon price is a whole number of cents |
| Scraper.CollectAmazonPrices | src/scraper.py:86-96 | the loop computes one price per element with an `S`, in order, or the first exception |
| Scraper.Summarize | src/scraper.py:55-61 | raises `min([])` exactly on an empty pool; otherwise the record carries the id and storefront name, lowest and highest are prices bounding all, the mean is the sum over the count and lies between them, the stored median is the true median rounded to cents and within half a cent of it |
| Scraper.GatherPool | src/scraper.py:47-53 | the prices the loops collect are, as a multiset, the pooled prices of the elements |
| Scraper.PoolPermutation | src/scraper.py:47-53 | the pooled prices depend only on the multiset of elements |
| Scraper.GatherPermutation | src/scraper.py:47-53 | reordering the elements neither changes whether the loops raise nor the multiset of prices collected |
| Scraper.SummarizeOrderIndependent | src/scraper.py:98-104 | the record depends only on the multiset of prices |
| Scraper.LazadaOutcome | src/scraper.py:40-65 | `None` exactly for zero elements; a record carries the context id and `'lazada'` |
| Scraper.AmazonOutcome | src/scraper.py:82-108 | `None` exactly for zero elements; a record carries the context id and `'amazon'` |
| Scraper.LazadaElementOrderIndependent | src/scraper.py:44-61 | reordering the elements the page lists changes neither whether the scraper raises nor the record it returns |
| Scraper.AmazonElementOrderIndependent | src/scraper.py:86-104 | the same for Amazon |
| Scraper.ScrapeLazada | src/scraper.py:26-65 | the result depends only on the elements found, whatever the wait did; no elements give `None` |
| Scraper.ScrapeAmazon | src/scraper.py:68-108 | the same for Amazon |
| Scraper.LazadaNoneOnlyWithoutElements | src/scraper.py:40-58 | `None` exactly for zero elements; elements giving no price raise `min([])` |
| Scraper.AmazonNoneOnlyWithoutElements | src/scraper.py:82-101 | the same for Amazon |
| Scraper.LazadaRecord | src/scraper.py:55-61 | a Lazada record carries the context id and `'lazada'`; mean and unrounded median lie between lowest and highest |
| Scraper.AmazonRecord | src/scraper.py:98-104 | an Amazon record carries the context id and `'amazon'`; even the rounded median lies between lowest and highest |
| ScraperDraft.Summarize | scraper.py:82-87 | reads `context.id` first, so a context without an id raises; otherwise as the current record without the storefront name |
| ScraperDraft.SummarizeAgreesWithCurrent | scraper.py:82-87 | given an id, the draft record is the current one minus its name, with the same exception |
| ScraperDraft.LazadaOutcome | scraper.py:57-92 | `None` exactly for no elements and no non-timeout failure; a record exists only for a context with an id and carries it |
| ScraperDraft.AmazonOutcome | scraper.py:97-133 | the same for Amazon |
| ScraperDraft.ScrapeLazada | scraper.py:55-92 | the draft Lazada scraper computes the draft outcome of the page at its search URL |
| ScraperDraft.ScrapeAmazon | scraper.py:95-133 | the draft Amazon scraper computes the draft outcome of the page at its search URL |
| ScraperDraft.NoneOnlyWithoutElements | scraper.py:66-69 | `None` exactly for no elements and no non-timeout failure; such a failure propagates; kept Lazada listings or Amazon elements that give no price raise `min([])` |
| ScraperDraft.WaitIrrelevantWithElements | scraper.py:57-70 | once elements are found, how the wait ended makes no difference |
| ScraperDraft.LazadaAgreesWithCurrent | scraper.py:70-92 | on a non-empty page, the draft Lazada scraper equals the current one, filter included |
| ScraperDraft.AmazonAgreesWithUnfilteredCurrent | scraper.py:110-133 | the draft Amazon scraper equals the current one with no exclude terms: the draft never filters |
| ScraperDraft.MainResults | scraper.py:141-143 | the loop's results, when it does not raise, are two per context |
| ScraperDraft.MainResultsShape | scraper.py:141-143 | exactly two results per context, Lazada then Amazon, `None`s included |
| ScraperDraft.ScrapeAll | scraper.py:138-143 | a missing context list is not iterable; otherwise the loop computes the results of every context |
| ScraperDraft.IdlessContextNeverRecords | scraper.py:82-83 | with the id-less contexts of `context.py`, no scraper ever returns a record |
| ScraperDraft.IdlessLazadaCounterexample | scraper.py:82-83 | one listing `$5.00` for the query `phone` raises on `context.id` |
| ScraperDraft.QueryContextLazadaRecord | scraper.py:82-87 | the same listing under a context with an id gives the record `(id, 5, 5, 5, 5)` |
| ScraperDraft.MainResultsCarryIds | scraper.py:141-143 | every record in the loop's results has the id of the context at half its position |
| ScraperDraft.ContextsWithIdsRecord | scraper.py:141-143 | with `query_context.py` contexts, every record in the results carries its own context's row id |
| Runner.ScrapersTag | src/scraper.py:55-61 | every record the two scrapers return carries the context id and its storefront name |
| Runner.Rows | src/main.py:61 | one row per record, in order, the `k`-th built at `clock(k)`; each row reads back as its record, has exactly the seven columns of `prices` and the `k`-th `query_dt` is `clock(k)` |
| Runner.Collected | src/main.py:53-59 | at most two records per context |
| Runner.CollectedExtends | src/main.py:53-59 | one more context appends its kept Lazada record, then its kept Amazon record |
| Runner.CollectedStops | src/main.py:53-59 | a scrape that raises ends the whole loop with that exception |
| Runner.CollectStats | src/main.py:51-59 | the loop computes the records collected context by context |
| Runner.Outcome | src/main.py:46-67 | no rows is a failure; a written batch means every context loaded and holds at most two rows per query |
| Runner.Run | src/main.py:46-67 | the run's outcome: a failure for no rows or any exception; otherwise one batch with the rows of the records |
| Runner.CollectedBound | src/main.py:53-59 | at most two records per context; each has the id of one of the contexts and one of the two storefront names |
| Runner.CollectedAllFound | src/main.py:53-59 | when every scrape finds a record, exactly two per context, context-major, Lazada first |
| Runner.NothingFoundCollectsNothing | src/main.py:53-59 | scrapers that never find a listing collect nothing |
| Runner.WriteOnlyWithoutException | src/main.py:61-67 | a batch is written exactly when loading and every scrape succeed, and it holds the rows of the collected records |
| Runner.EmptyPagesWriteEmptyBatch | src/main.py:53-63 | when no search finds a listing, the run writes an empty batch |
| RunnerDraft.AllResults | main.py:40-42 | the loop's results, when it does not raise, are two per context |
| RunnerDraft.ToRows | main.py:44 | one row per result, or AttributeError on `query_id` |
| RunnerDraft.Outcome | main.py:35-45 | no rows is a failure; a written batch means every context loaded and holds exactly two rows per query |
| RunnerDraft.AllResultsStop | main.py:40-42 | a scrape that raises ends the whole loop with that exception |
| RunnerDraft.CollectAll | main.py:38-42 | the loop computes both results of every context, `None`s included |
| RunnerDraft.Run | main.py:35-45 | the older run's outcome: a failure for no rows, any exception or any `None`; otherwise one batch |
| RunnerDraft.AllResultsShape | main.py:40-42 | exactly two results per context, Lazada then Amazon |
| RunnerDraft.ToRowsSpec | main.py:44 | converting raises on `query_id` exactly when some result is `None`; otherwise one row per result, in order, each reading back as its record |
| RunnerDraft.ToRowsOfRecords | main.py:44 | without `None`s, the rows are those the current run builds from the same records |
| RunnerDraft.CollectedIsSomes | main.py:40-42 | the current loop keeps exactly the records among the older loop's results |
| RunnerDraft.NoneAbortsRun | main.py:44 | a single `None` result makes the older run fail on `query_id` before writing |
| RunnerDraft.EmptyPagesAbort | main.py:44-45 | when no search finds a listing, the older run fails and writes nothing, while the current run writes its empty batch |
| RunnerDraft.WritesAgreeWithCurrent | main.py:44-45 | whenever the older run writes, it writes the same batch as the current run |

## Left out

- Selenium is not modelled: `init_driver`, `driver.get`, `WebDriverWait`, `find_elements` and `driver.quit`. The browser is a function from a URL to the elements found and how the wait ended. The unbound `driver` in the `finally` of `run`, when a failure comes before `init_driver`, is resource clean-up and not modelled either.
- Supabase is not modelled: `db.py`, `src/db.py` and the `client.table(...).execute()` calls. The fetched rows are an input sequence and the batch insert is the run's outcome.
- `datetime.now` is a parameter (`clock`), read once per row in row order.
- Environment variables, `print`, `traceback` and `__repr__` are output only and are left out. Because of that, `int(os.environ.get(...))` in `run` is not modelled as a source of exceptions.
- IEEE doubles are not modelled. `float()`, `/ 100`, `statistics.mean` and `round(..., 2)` act on exact reals, and `round` is half-to-even on the exact value.
- `int()` and `float()` accept only ASCII digits, with at most one decimal point for `float`. Signs, whitespace, exponents, underscores and `inf`/`nan` all count as errors.
- Scraper.Exclude: compares each element's visible text with the exclude terms, while `src/scraper.py:46` compares the WebElement object itself with strings, which never match, so the source keeps every element. The two agree except when an element's text equals an exclude term: with exclude terms `['']` an empty listing is dropped by the model but kept by the source, which then raises IndexError on `item[0]`. `Scraper.ExcludeAsWritten` models the comparison as written, `Scraper.ExcludeAsWrittenKeepsAll` proves it keeps everything and `Scraper.EmptyTextFilterDivergence` exhibits the difference; the scrapers use the text comparison.
- QueryContexts.QueryRow: `id` is always present. `query.get('id')` on a row without one, which would give `None`, is not modelled.
- RunnerDraft: `main.py` calls `scrape_lazada(driver, ctx, TIMEOUT_SECONDS)`, the signature of `src/scraper.py`, so the model runs those scrapers. Run from the repository root, the import would reach the draft `scraper.py`, whose records have no `ecommerce_name` for `price_stats_to_prices_row_entry` to read. That pairing is not modelled.
- Some loops are split into their own methods, each proved against its specification function: the inner loop of the Lazada scraper is `Scraper.CollectListingPrices`, and the run loops are `Runner.CollectStats` and `RunnerDraft.CollectAll`.

## Findings

| source | as written | input that shows it | evidently intended | confidence | as-written member | corrected member |
|---|---|---|---|---|---|---|
| scraper.py:82-83 | the draft builds its record with `id=context.id`, but the contexts it loads come from `context.py`, which have no `id` | one Lazada listing reading `$5.00`, for the saved query `phone` | contexts that carry the row id, as `query_context.py` builds them, so each record has its query's id | not executed | ScraperDraft.IdlessLazadaCounterexample | ScraperDraft.ContextsWithIdsRecord |
| main.py:44 | every result, `None` included, goes to `price_stats_to_prices_row_entry`, which reads `query_id` of `None` | a saved query whose Lazada search finds no listing | drop `None` results before building rows, as `src/main.py:55-59` does | not executed | RunnerDraft.EmptyPagesAbort | Runner.EmptyPagesWriteEmptyBatch |
