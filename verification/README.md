# Retail sales analysis: a verified model of the report pipeline

Three batch reports read extracts of e-commerce sales transactions. They filter
and aggregate the rows and write spreadsheet or CSV output:

- `revenue_by_sku.py` reports the ten best-selling SKUs of the allow-listed
  vendors over the trailing 7, 30, 60 and 90 days.
- `revenue_by_vendors.py` compares two months for each vendor in
  `vendor_list`:
  - the ten overlapped SKUs with the most negative change in sales, and the
    ten with the most positive change;
  - each month's ten best-selling SKUs;
  - a summary line with sales, SKU counts, overlapped and new SKUs, and the
    churn, growth and overall rates.
- `revenue_monthly_comparison_by_vendors.py` builds one wide table: per
  vendor, the Total Sales, order count and value per order of three periods,
  followed by a `Total` row of column sums.

The model covers the data transformations between reading and writing. A
transaction (`Table.Txn`) keeps the four columns the reports read: Sku, the
fulfillment channel name (the vendor), the order date and Total Sales.

The pipeline is built from a few modules:

- `Table`: the row masks (`Where` with a `Criterion`).
- `Aggregate`: `groupby(key)['Total Sales'].agg(['sum', 'count'])`, as
  `GroupBy`.
- `Ranking`: `sort_values`, the first or last N rows, and 1-based numbering.
  The model sorts by insertion, and its contract promises only what the
  reports rely on: the result is sorted and is a permutation of the input.
- `TopSales`: the "top 10 sales" table that two reports share.

Each script is one module on top of these:

- `RevenueBySku`: a pure pipeline.
- `RevenueByVendors`: the per-vendor body is pure. The loop over
  `vendor_list` that appends to `info_list` is a method with a loop
  invariant.
- `MonthlyComparison`: a pure pipeline.

Money is `real`, so sums are exact. Rates and values per order are `real`
quotients. A missing cell (NaN) is `None`. Order dates are integer seconds,
and the current instant `now` is a parameter.

The monthly comparison appends its `Total` row of column sums after the
`Value per order` columns exist. So that row's value per order is the sum of
the vendors' values per order. A row labelled `Total` in a column headed
`Value per order` evidently means the total sales divided by the total number
of orders. `MonthlyComparison.Rollup` models the code as written;
`MonthlyComparison.CorrectedRollup` models the evidently intended row (see
Findings).

## Model

| member | source | states |
|---|---|---|
| Table.Where | revenue_by_vendors.py:48-49 | a boolean mask keeps every row that satisfies it, as often as it occurs, and nothing else; the result is no longer than the input |
| Table.VendorRows | revenue_by_vendors.py:48-49 | the vendor's month data holds exactly the rows whose Fulfillment Channel Name equals `v`, with their multiplicities |
| Table.AllowedRows | revenue_by_sku.py:43 | the filtered data holds exactly the rows whose vendor is in `vendor_list`, with their multiplicities |
| Table.InWindow | revenue_by_sku.py:47-50 | a window holds exactly the rows ordered strictly after `now` minus `k` days |
| Table.WhereConcat | revenue_by_vendors.py:48-49 | a mask over two stretches of rows keeps the first stretch's rows and then the second's, so the kept rows stay in input order |
| Table.WindowsNest | revenue_by_sku.py:47-50 | a shorter window's rows are among a longer window's rows, and filtering the longer window by the shorter cutoff gives the shorter window |
| Aggregate.GroupBy | revenue_by_vendors.py:56-57 | one group per distinct key (no key twice, keys = the rows' keys); each key's sum and count are its Total Sales and row count; every count is at least 1; the sums add up to the rows' Total Sales and the counts to the number of rows |
| Aggregate.GroupRow | revenue_monthly_comparison_by_vendors.py:54-59 | every aggregate row carries a key that occurs in the rows, with that key's Total Sales as `sum` and its row count, at least 1, as `count` |
| Aggregate.GroupCount | revenue_by_vendors.py:107-108 | the number of aggregate rows is the number of distinct keys |
| Aggregate.LookupGroupBy | revenue_monthly_comparison_by_vendors.py:62 | looking a key up in an aggregate finds a row exactly when some row carries the key, and that row holds the key's sum and count |
| Aggregate.LeftOutGroup | revenue_by_sku.py:53-55 | a key that a selection of the groups leaves out has its group among the rows not selected |
| Ranking.Sort | revenue_by_sku.py:54 | `sort_values` returns a permutation of its input, sorted in the requested direction |
| Ranking.TopSelects | revenue_by_sku.py:55 | `[:n]` after sorting: `min(n, N)` rows, sorted, drawn from the input, each no later in the order than any row left out |
| Ranking.BottomSelects | revenue_by_vendors.py:81 | `[-n:]` after sorting: `min(n, N)` rows, sorted, drawn from the input, each no earlier in the order than any row left out |
| Ranking.SortDistinct | revenue_by_sku.py:54 | sorting rows with distinct keys keeps the keys distinct |
| Ranking.Numbered | revenue_by_sku.py:56-57 | the display index runs 1..N and the rows stay as they were |
| TopSales.TopSkusRows | revenue_by_sku.py:53-57 | the top-sales table has `min(10, distinct SKUs)` rows ranked 1..N, each a SKU of the rows with its Total Sales and row count |
| TopSales.TopSkusOrdered | revenue_by_sku.py:54-55 | Sales do not increase down the table |
| TopSales.TopSkusDistinct | revenue_by_sku.py:53-55 | no SKU appears twice in the table |
| TopSales.TopSkusDominate | revenue_by_sku.py:53-55 | every listed SKU sold at least as much as every SKU left out |
| RevenueBySku.WindowRows | revenue_by_sku.py:43-50 | a window holds exactly the rows of allow-listed vendors ordered strictly after `now` minus `days` days |
| RevenueBySku.ReportWindowsNest | revenue_by_sku.py:47-50 | with one `now`, the 7-day rows are among the 30-day rows, those among the 60-day rows and those among the 90-day rows; each shorter window is the longer one cut to its length |
| RevenueBySku.WindowAggregation | revenue_by_sku.py:53 | a window's aggregate has one row per distinct SKU, no SKU twice; its sums add up to the window's Total Sales and its counts to the window's row count |
| RevenueBySku.Report | revenue_by_sku.py:52-78 | each of the four result tables has at most ten rows |
| RevenueByVendors.InnerJoin | revenue_by_vendors.py:64-71 | the inner merge holds exactly the SKUs present in both months, never more rows than December's aggregate; each row pairs December's and November's aggregate row of its SKU, and `diff = sales_dec - sales_nov` |
| RevenueByVendors.JoinDistinct | revenue_by_vendors.py:64-65 | merging an aggregate whose SKUs are distinct gives an overlap with distinct SKUs |
| RevenueByVendors.JoinBound | revenue_by_vendors.py:64 | the overlap has no more rows than November's aggregate |
| RevenueByVendors.OverlapRows | revenue_by_vendors.py:64-71 | for vendor `v`, the overlap lists each SKU sold in both months once, with December's and November's Total Sales and row counts of the SKU, and their difference |
| RevenueByVendors.DiffTotal | revenue_by_vendors.py:103 | the total difference of the overlapped items is their December sales minus their November sales |
| RevenueByVendors.DecemberSplit | revenue_by_vendors.py:97-99 | December's total splits into the overlapped items' December sales and the sales of SKUs November does not have |
| RevenueByVendors.ComputeRates | revenue_by_vendors.py:114-121 | with no previous SKUs all three rates are exactly 0; otherwise churn, growth and overall are the stated quotients, overall = growth - churn, churn lies in [0, 1] when the overlap is at most the previous count, and growth is not negative when the overlap is at most the current count |
| RevenueByVendors.AnalyzeVendor | revenue_by_vendors.py:48-121 | the summary line carries the vendor it was computed for |
| RevenueByVendors.MonthTotals | revenue_by_vendors.py:96-108 | `nov_sales` and `dec_sales` are the vendor's Total Sales of each month; the SKU counts are the numbers of distinct SKUs the vendor sold in each month |
| RevenueByVendors.CountsAndSales | revenue_by_vendors.py:96-110 | 0 <= overlapped SKUs <= min(previous, current); new SKUs = current - overlapped >= 0; new-item sales = December sales - overlapped-item sales = the December sales of SKUs absent from November; the total difference is the overlapped items' December minus November sales |
| RevenueByVendors.VendorRates | revenue_by_vendors.py:114-121 | with no previous SKUs the three rates are 0; otherwise churn is in [0, 1], growth is at least 0, and overall = growth - churn |
| RevenueByVendors.NegativeMoversSelect | revenue_by_vendors.py:74-78 | `top10_negative` has `min(10, overlap)` rows ranked 1..N, all from the overlap, in ascending `diff` order, each `diff` at most that of every overlapped SKU left out; the rows are a sub-multiset of the overlap, and distinct SKUs stay distinct |
| RevenueByVendors.PositiveMoversSelect | revenue_by_vendors.py:81-83 | `top10_positive` has `min(10, overlap)` rows ranked 1..N, all from the overlap, in descending `diff` order, each `diff` at least that of every overlapped SKU left out; the rows are a sub-multiset of the overlap, and distinct SKUs stay distinct |
| RevenueByVendors.FewOverlapsShared | revenue_by_vendors.py:77-81 | with at most ten overlapped SKUs, the negative and the positive lists both hold the whole overlap, so they share every SKU |
| RevenueByVendors.Summaries | revenue_by_vendors.py:136-137 | one summary line per vendor |
| RevenueByVendors.PerVendor | revenue_by_vendors.py:38-137 | the i-th summary line and worksheet are those computed for the i-th vendor of the list, and the line names that vendor |
| RevenueByVendors.AnalyzeAllVendors | revenue_by_vendors.py:37-137 | the loop produces exactly one worksheet and one `info_list` line per vendor, in `vendor_list` order (invariant: after i vendors, those of the first i) |
| MonthlyComparison.UnionKeys | revenue_monthly_comparison_by_vendors.py:62 | the index of the outer concatenation lists every key of every period's aggregate, each once, and nothing else |
| MonthlyComparison.UnionOfPeriods | revenue_monthly_comparison_by_vendors.py:45-62 | a vendor is in the combined table exactly when it has allow-listed rows in some period |
| MonthlyComparison.VendorRow | revenue_monthly_comparison_by_vendors.py:67 | a vendor line has 3·n cells for n periods |
| MonthlyComparison.VendorLinesShape | revenue_monthly_comparison_by_vendors.py:62 | the table's vendors are those with allow-listed rows in some period, each once, and every line has three cells per period |
| MonthlyComparison.VendorLineCells | revenue_monthly_comparison_by_vendors.py:54-65 | with n periods, cell p of a vendor line is the vendor's sales in period p, cell n + p its count and cell 2n + p its value per order: for a vendor present in the period, its Total Sales, its count (at least 1) and sales / count; for an absent vendor all three cells are missing |
| MonthlyComparison.RollupVendors | revenue_monthly_comparison_by_vendors.py:54-67 | all lines but the last are one per vendor with allow-listed rows in some period, each vendor once; each holds, for every period, the vendor's sales, count and value per order, or three missing cells |
| MonthlyComparison.RollupTotalLine | revenue_monthly_comparison_by_vendors.py:63-68 | the last line is labelled `Total`; for every period it holds the allow-listed Total Sales, the number of allow-listed rows and, as written, the sum of the listed vendors' values per order |
| MonthlyComparison.RollupTotals | revenue_monthly_comparison_by_vendors.py:68 | the Total line is labelled `Total`; its sales entry for a period is the period's allow-listed Total Sales, and its count entry is the period's number of allow-listed rows |
| MonthlyComparison.RollupPerOrderTotal | revenue_monthly_comparison_by_vendors.py:63-68 | as written, the Total line's value-per-order entry is the sum over the listed vendors of each vendor's sales / count |
| MonthlyComparison.TotalPerOrderIsNotAverage | revenue_monthly_comparison_by_vendors.py:63-68 | one period, vendor `a` with an order of 10 and vendor `b` with orders of 20 and 40: the Total line shows sales 70 and count 3 but value per order 40, not 70 / 3 |
| MonthlyComparison.CorrectedRollupContents | revenue_monthly_comparison_by_vendors.py:63-68 | the corrected table has the same vendor lines; its last line is labelled `Total` and holds, for every period, the allow-listed Total Sales, the number of allow-listed rows, and total sales / total rows (missing when there are none) |
| MonthlyComparison.CorrectedPerOrderTotal | revenue_monthly_comparison_by_vendors.py:63-68 | in the corrected Total line, a period's value per order is its allow-listed Total Sales divided by its allow-listed row count (missing when there are no rows) |

Functions that only compute a table are described by the lemmas above:

- `RevenueByVendors.Overlap` by `OverlapRows`.
- `RevenueByVendors.NegativeMovers` and `PositiveMovers` by `NegativeMoversSelect` and `PositiveMoversSelect`.
- `TopSales.TopSkus` by the four `TopSales` rows.
- `RevenueByVendors.VendorSheetOf` by those lemmas together, one per table of the worksheet.
- `MonthlyComparison.VendorLines`, `TotalLine`, `Rollup` and `CorrectedRollup` by `RollupVendors`, `RollupTotalLine` and `CorrectedRollupContents`.

## Left out

- Reading the CSV files is left out: revenue_by_vendors.py re-reads both files on every loop iteration, revenue_by_sku.py reads once and the monthly comparison reads three. So are pandas' type inference and `pd.to_datetime`. The model takes the parsed rows as parameters.
- Writing the Excel and CSV output is left out: worksheets, captions, fixed row offsets, `set_index` and the output column names. The model returns the tables and summary lines instead.
- Column projections and renames (`[['Sku', 'diff']]`, `rename(columns=...)`) are left out. The ranked tables keep whole aggregate or overlap rows, and the fields are named after the columns.
- `round(..., 2)` on the summary line and IEEE floating point are not modelled: money and rates are exact `real` numbers, and the properties hold before rounding.
- The wall clock is left out: `now` is one parameter. The source calls `datetime.now()` four times, which can differ by microseconds.
- NaN handling is left out. Every field is assumed present, so `groupby` drops no row and `sum` skips no value.
- The tie order of `sort_values` is not specified, because its default algorithm is unstable. Ranked tables are specified by sortedness, selection and permutation.
- Row order of groups and of the combined table is left out. `groupby` sorts its keys and `concat` orders the union of the indexes; the model keeps first-appearance order. Every property is independent of this order, except the line order of the rollup file, which is not modelled. `TotalPerOrderIsNotAverage` allows either order of its two vendors.
- The commented-out EVP filters and text-file output blocks are not modelled.
- RevenueBySku.Report: its own contract only bounds the table sizes. What each table holds is stated for every window by TopSales.TopSkusRows, TopSkusOrdered, TopSkusDistinct and TopSkusDominate.
- RevenueByVendors.AnalyzeVendor: its own contract only names the vendor. Its figures are characterised by MonthTotals, OverlapRows, CountsAndSales and VendorRates, and its worksheet (`VendorSheetOf`) by NegativeMoversSelect, PositiveMoversSelect and the TopSales lemmas.

## Findings

| source | as written | input that shows it | evidently intended | confidence | as-written member | corrected member |
|---|---|---|---|---|---|---|
| revenue_monthly_comparison_by_vendors.py:63-68 | the Total row is the column sum of every column, including the value-per-order columns, so its value per order is the sum of the vendors' values per order | one period; vendor `a` with one order of 10, vendor `b` with orders of 20 and 40: Total sales 70, count 3, value per order 10 + 30 = 40 | the Total row's value per order is total sales / total count, 70 / 3 | not executed | MonthlyComparison.TotalPerOrderIsNotAverage | MonthlyComparison.CorrectedPerOrderTotal |
