# Sales analytics core, modelled in Dafny

This project models the analytics pipeline of a small sales-analysis
program: the parsing, validation and aggregation of pipe-delimited sales
records, and their enrichment with product data from an external catalogue.

* **Record parsing and validation** (`utils/file_handler.py`).
  - `parse_transactions` splits each line on `|`. It keeps only lines with
    exactly eight fields whose quantity and price convert to numbers, and
    strips commas from the product name and from both numbers.
  - `validate_and_filter` drops invalid records: a non-positive quantity or
    price, or an id that lacks its `T`, `P` or `C` prefix. It then applies
    the optional region and amount filters and counts every dropped record
    under its reason.
* **Aggregation** (`utils/data_processor.py`). There are seven reports:
  - total revenue;
  - per-region totals with their share of revenue;
  - the top-N products by quantity;
  - per-customer profiles;
  - the per-date trend in date order;
  - the peak day;
  - the products sold fewer times than a threshold.

  Each report is a single pass into a keyed accumulator, followed by a sort
  or a filter.
* **Enrichment** (`utils/api_handler.py`). `create_product_mapping` builds an
  id-to-product table from the catalogue. `enrich_sales_data` annotates a
  copy of every record with the table entry of its numeric product id,
  and hands the result to the file-writing step.

## Model

* **Dicts.** A Python dict is a sequence of key/value pairs with distinct
  keys (`OrderedDict.Dict`). Iterating a dict visits its insertion order;
  `d[k] = v` overwrites in place or appends (`OrderedDict.Put`).
* **Amounts** are integers. A price is held in hundredths and an amount is
  `quantity * unitPrice`, so every sum and comparison is exact.
* **Percentages and averages** are exact `real` quotients.
* **Accumulation.** The four keyed accumulations share one loop,
  `Grouping.GroupBy`. It is proved to build `Grouping.GroupsOf`, which
  states per key the totals over exactly that key's records, and the
  distinct values of a tracked field in first-seen order.
* **Sorting.** Python's `list.sort` and `sorted` are stable. They are
  modelled by the stable insertion sort `Sorting.SortDesc`: an ascending
  sort uses a negated rank. Sorting dict keys uses `Sorting.SortByKey` under
  code-point order (`Sorting.LexLess`).
* **Methods and specifications.** Each loop of the source is a method. The
  method is proved to compute a specification function, and the lemmas
  state what that function promises.
* **Saving.** The file written by `save_enriched_data` is the `rows` field of
  an `EnrichedDataStore` object, which each save replaces.

**Behaviour at the edges, as the code has it.**
- **Empty input is not guarded.**
  - `validate_and_filter` computes `min` of the amounts before its loop, so
    it raises on an empty list. This is the `EmptyAmounts` error.
  - `region_wise_sales` divides by the grand total, so it raises when there
    are records but the revenue is zero. This is the `DivisionByZero` error.
- **Product ids.** The numeric key removes every `P` in the id
  (`replace("P", "")`), not only a leading one.

| member | source | states |
|---|---|---|
| FileHandler.ParseLine | utils/file_handler.py:77-105 | a line yields a record exactly when it has eight pipe-separated fields and both numbers (commas removed) convert; a wrong width always yields nothing; the product name of a record holds no comma |
| Text.JoinSplit | utils/file_handler.py:77 | splitting a line on the separator loses no character: joining the pieces back with the separator gives the line |
| FileHandler.ParseTransactions | utils/file_handler.py:74-107 | the loop with its `continue` skips returns exactly the records of the lines that parse, in line order |
| FileHandler.ParseAllNoCommas | utils/file_handler.py:86 | no parsed product name contains a comma |
| FileHandler.ParseFormatLine | utils/file_handler.py:94-103 | parsing the line a record is written as (fields joined by pipes, price with two decimals) gives back the same record, so every field is copied unchanged |
| Seqs.FilterMapLength | utils/file_handler.py:74-107 | at most one record per line, so no more records than lines |
| Seqs.FilterMapSound | utils/file_handler.py:74-107 | every output record is the record of some input line |
| Seqs.FilterMapComplete | utils/file_handler.py:74-107 | every line that parses contributes its record |
| Seqs.FilterMapConcat | utils/file_handler.py:74-107 | parsing distributes over concatenation of the line list, so output order is input order |
| FileHandler.ValidateAndFilter | utils/file_handler.py:110-204 | empty input raises (`min` of no amounts); otherwise the kept records, the invalid count and every summary counter equal their specifications, and `final_count` is the length of the kept list |
| FileHandler.CountsConserved | utils/file_handler.py:152-199 | `total_input` = `invalid` + `filtered_by_region` + `filtered_by_amount` + `final_count` |
| FileHandler.KeptExactly | utils/file_handler.py:168-196 | a record is kept exactly when it is in the input, passes validation, has the requested region, and its amount lies within every active bound |
| FileHandler.KeptConcat | utils/file_handler.py:168-196 | the kept records form an order-preserving subsequence of the input |
| FileHandler.InvalidIgnoresFilters | utils/file_handler.py:170-178 | how many records are invalid does not depend on the filters |
| FileHandler.NoFiltersKeepValid | utils/file_handler.py:183-194 | when no filter is active (`None`, `""` or 0), every valid record is kept |
| Grouping.GroupBy | utils/data_processor.py:41-52 | the accumulation loop builds, in first-seen key order, one entry per key holding that key's totals, count and tracked values |
| Grouping.AddRecord | utils/data_processor.py:45-52 | one step: create a zeroed entry for an unseen key, then add the record to its entry |
| Grouping.GroupsOf | utils/data_processor.py:41-52 | the keys are the distinct keys of the records, in first-seen order |
| Grouping.GroupsOfTotals | utils/data_processor.py:41-52 | no key is stored twice, and the entries' amounts, quantities and counts sum to those of the whole input |
| Grouping.GroupsOfCountPositive | utils/data_processor.py:141-149 | every entry counts at least one record |
| Seqs.Dedup | utils/data_processor.py:151-152 | the "append if not in list" result has no duplicates |
| Seqs.DedupHas | utils/data_processor.py:151-152 | it holds exactly the values seen |
| Seqs.DedupFirstSeen | utils/data_processor.py:151-152 | values seen earlier are listed earlier |
| OrderedDict.Put | utils/api_handler.py:61-66 | `d[k] = v` keeps the keys of `d` and appends `k` only when it is new; it keeps keys distinct |
| OrderedDict.GetPut | utils/api_handler.py:61-66 | after `d[k] = v`, looking up `k` gives `v` and every other key is unchanged |
| OrderedDict.PermutationValid | utils/data_processor.py:59-63 | rebuilding a dict from its reordered items keeps keys distinct |
| Sorting.SortDesc | utils/data_processor.py:59-63 | the sort returns a permutation of its input |
| Sorting.SortDescNonIncreasing | utils/data_processor.py:59-63 | the sorted result is non-increasing in the sort key |
| Sorting.SortDescStable | utils/data_processor.py:59-63 | entries with equal sort keys keep their relative order |
| Sorting.SortByKey | utils/data_processor.py:212 | `sorted` of the dates returns a permutation of the entries |
| Sorting.SortByKeyAscending | utils/data_processor.py:212 | the sorted dates strictly ascend |
| Seqs.Take | utils/data_processor.py:107 | `result[:n]` is a prefix of the list, no longer than it |
| DataProcessor.CalculateTotalRevenue | utils/data_processor.py:10-13 | the total is the sum of quantity × price over all records (0 for none) |
| DataProcessor.RegionWiseSales | utils/data_processor.py:38-65 | the method computes the region report or its division error |
| DataProcessor.RegionWiseFails | utils/data_processor.py:54-57 | the report raises exactly when there are records but zero revenue |
| DataProcessor.RegionWiseKeys | utils/data_processor.py:41-52 | each region of the input appears exactly once, and no other |
| DataProcessor.RegionWiseStats | utils/data_processor.py:41-57 | each entry holds its region's total sales and record count, and its share of the total revenue |
| DataProcessor.PercentageOfTotal | utils/data_processor.py:54-57 | a share times the grand total is a hundred times the part |
| DataProcessor.RegionWisePercentages | utils/data_processor.py:54-57 | the percentages of a report over some records add up to exactly 100 |
| DataProcessor.RegionWiseSorted | utils/data_processor.py:59-63 | entries are ordered by total sales, non-increasing |
| DataProcessor.RegionWiseStable | utils/data_processor.py:59-63 | regions with equal totals keep first-seen order |
| DataProcessor.RegionWiseSums | utils/data_processor.py:38-52 | region totals sum to the total revenue and counts to the number of records |
| DataProcessor.ProductTotalsFacts | utils/data_processor.py:89-103 | the per-product rows list each product once, in first-seen order, with its summed quantity and revenue |
| DataProcessor.TopSellingProducts | utils/data_processor.py:67-107 | the method computes the first `n` rows (five when `n` is not given) of the rows sorted by quantity |
| DataProcessor.ByQuantityFacts | utils/data_processor.py:105 | the sorted rows hold every product once, with its totals |
| DataProcessor.TopSellingLength | utils/data_processor.py:107 | `min(n, products)` rows for `n` ≥ 0 (so at most `n`); for negative `n`, all but the last `-n`, as Python slices |
| DataProcessor.TopSellingTotals | utils/data_processor.py:89-103 | each row is a product of the input with the sums of its quantities and revenues; no product is listed twice |
| DataProcessor.TopSellingSorted | utils/data_processor.py:105-107 | rows are ordered by quantity, non-increasing |
| DataProcessor.TopSellingStable | utils/data_processor.py:105 | products with equal quantities keep first-seen order |
| DataProcessor.TopSellingIsTop | utils/data_processor.py:105-107 | a product left out sold no more than any listed product |
| DataProcessor.BelowHas | utils/data_processor.py:277-281 | a row passes the filter exactly when it is below the threshold |
| DataProcessor.BelowKeepsOrder | utils/data_processor.py:276-281 | filtering keeps keys distinct and keeps first-seen order |
| DataProcessor.LowPerformingProducts | utils/data_processor.py:263-285 | the method computes the below-threshold rows sorted by quantity, ascending |
| DataProcessor.LowPerformingTotals | utils/data_processor.py:276-281 | every row is a product of the input with its totals, below the threshold, listed once |
| DataProcessor.LowPerformingComplete | utils/data_processor.py:277-281 | every product of the input that sold fewer than the threshold is listed |
| DataProcessor.LowPerformingSorted | utils/data_processor.py:283 | rows are ordered by quantity, non-decreasing |
| DataProcessor.LowPerformingStable | utils/data_processor.py:283 | products with equal quantities keep first-seen order |
| DataProcessor.Average | utils/data_processor.py:157 | the average times the purchase count is the amount spent |
| DataProcessor.CustomerAnalysis | utils/data_processor.py:134-165 | the method computes the customer profiles, highest spender first |
| DataProcessor.FillAverages | utils/data_processor.py:154-157 | the second loop gives every entry the average of its purchases, keeping the dictionary order |
| DataProcessor.CustomersKeys | utils/data_processor.py:136-152 | each customer of the input appears exactly once, and no other |
| DataProcessor.CustomersStats | utils/data_processor.py:136-157 | each profile holds the amount spent, the number of purchases (at least one, so the average never divides by zero), their average and the distinct products |
| DataProcessor.CustomerProducts | utils/data_processor.py:151-152 | `products_bought` holds exactly the customer's products, without duplicates, first bought first |
| DataProcessor.CustomersSorted | utils/data_processor.py:159-163 | profiles are ordered by amount spent, non-increasing |
| DataProcessor.CustomersStable | utils/data_processor.py:159-163 | customers who spent the same keep first-seen order |
| DataProcessor.CustomersSums | utils/data_processor.py:136-152 | amounts spent sum to the total revenue and purchase counts to the number of records |
| DataProcessor.DailySalesTrend | utils/data_processor.py:191-219 | the method computes the per-date report in date order |
| DataProcessor.DayRowsOf | utils/data_processor.py:211-217 | the second loop builds one report entry per date, in the given order, with the number of distinct customers |
| DataProcessor.DailyTrendAscending | utils/data_processor.py:211-217 | dates strictly ascend, so none is listed twice |
| DataProcessor.DailyTrendKeys | utils/data_processor.py:193-217 | each date of the input appears, and no other |
| DataProcessor.DailyTrendStats | utils/data_processor.py:193-217 | each day holds its revenue, its record count and its number of distinct customers, which lies between 1 and the record count |
| DataProcessor.DailyTrendSums | utils/data_processor.py:193-209 | daily revenues sum to the total revenue and daily counts to the number of records |
| DataProcessor.FindPeakSalesDay | utils/data_processor.py:230-242 | the method computes the strict-greater scan over the daily report |
| DataProcessor.PeakIsMax | utils/data_processor.py:232-242 | the scan returns the maximum revenue (at least 0); a positive maximum comes from the first day reaching it, otherwise `("", 0, 0)` |
| DataProcessor.PeakDay | utils/data_processor.py:230-242 | the peak revenue is at least every date's revenue; a positive peak is a date of the input with its revenue and count, and every earlier date has strictly less; otherwise the result is `("", 0, 0)` (as for empty input) |
| ApiHandler.CreateProductMapping | utils/api_handler.py:58-68 | the loop builds the table of storing every product in turn |
| ApiHandler.ProductMappingKeys | utils/api_handler.py:60-66 | the table's keys are exactly the catalogue ids, each once, first seen first |
| ApiHandler.ProductMappingLastWins | utils/api_handler.py:60-66 | on duplicate ids the last product listed wins |
| ApiHandler.ProductMappingHas | utils/api_handler.py:60-66 | an id is found exactly when some product carries it |
| ApiHandler.NumericIdOf | utils/api_handler.py:83 | an id written as `P` and a number yields that number |
| ApiHandler.EnrichFields | utils/api_handler.py:87-98 | the copy keeps the record; `API_Match` holds exactly when the numeric id parses and is a key of the table, and then the three fields are the table's; otherwise all three are absent |
| ApiHandler.AnnotateRecord | utils/api_handler.py:82-100 | the loop body builds the annotated copy of one record |
| ApiHandler.EnrichFromCatalog | utils/api_handler.py:89-93 | a record whose numeric id is a catalogue id is matched with the last such product's category, brand and rating |
| ApiHandler.EnrichWithoutCatalog | utils/api_handler.py:94-98 | a record whose id does not parse, or names no catalogue product, is unmatched with no annotations (so all are unmatched for an empty catalogue) |
| ApiHandler.EnrichEach | utils/api_handler.py:78-101 | the loop yields one annotated copy per record, in input order |
| ApiHandler.EnrichSalesData | utils/api_handler.py:78-103 | one annotated copy per record, in input order; the saved rows are exactly the returned list |
| ApiHandler.EnrichedDataStore.Save | utils/api_handler.py:102 | after saving, the store holds exactly the enriched records |

## Left out

- `read_sales_file` and its encoding retries: file I/O, not part of this model.
- The module-level script lines of `utils/file_handler.py` (207-214) and `utils/api_handler.py` (142-144): they run I/O at import time.
- `fetch_all_products`: it is a network call. Its result is the catalogue parameter; a failed fetch returns an empty list, which `ApiHandler.EnrichWithoutCatalog` covers.
- `save_enriched_data`'s rendering of each field with `str()`: the file is modelled as the list of records it holds.
- Every `print`, including the amount-range display of `validate_and_filter`. Its one observable effect, the `ValueError` of `min` on an empty list, is modelled as `EmptyAmounts`.
- `report_generator.py` and `main.py`: text layout, clock reads and interactive prompts are not part of this model.
- Floating point: amounts are exact integers in hundredths, while the source multiplies and adds floats. Filter bounds (`min_amount`, `max_amount`) are also in hundredths.
- DataProcessor.RegionWiseStats: the percentage is the exact quotient; the source rounds it to two decimals.
- DataProcessor.RegionWisePercentages: the sum is exactly 100 before rounding; after rounding, the source's sum is only close to 100.
- DataProcessor.CustomersStats: the average order value is the exact quotient; the source rounds it to two decimals.
- FileHandler.ParseLine: `int()` accepts only an optional sign and decimal digits, and `float()` additionally a point with at most two decimals. Python also accepts surrounding whitespace, underscores, exponents, `inf`/`nan`, a missing integer part and more decimals; such lines are dropped here.
- ApiHandler.NumericId: it has the same restricted `int()` as above.
- Sorting in place: `list.sort` and `sorted` are modelled as functions on sequences (`Sorting.SortDesc`, `Sorting.SortByKey`), not as in-place updates.
- `daily_sales_trend`: the model sorts the entries by date, while the source sorts the keys and looks each one up. Both produce the same rows.
- Dict lookups (`k in d`, `d[k]`) are functions over the pair list (`OrderedDict.Find`), not hash tables.
- Aliasing: records are values. The copy `t.copy()` and the fact that inputs are never mutated hold by construction.
