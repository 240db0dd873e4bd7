# Billing projection model

A Dafny model of the billing-projection logic behind a partner billing
dashboard. The dashboard reads three tables from a data warehouse:

- daily usage per customer, in credits and in currency;
- daily remaining balance per customer;
- capacity contract items.

It then derives:

- consumption run rates, per customer and overall, and the days until a
  balance runs out;
- contract metrics: usage against purchased capacity, overage, and the
  projected overage date;
- the actual-then-projected cumulative series drawn on the contract chart;
- the summaries and slicing helpers that feed the dashboard: cleaning, usage
  and balance summaries, growth rate, filters, sorted lists, top customers and
  drill-down.

Modules, one per file:

- `Wrappers` holds `Option`, standing for a `None`/NaN result or an empty
  dict.
- `Tables` holds the generic table operations, as sequences of rows:
  - boolean-mask filtering;
  - unique keys in order of first appearance;
  - column sums;
  - group-by with sum and count;
  - a sort by a numeric key;
  - the partition and permutation lemmas these need.
- `Records` holds the typed rows of the three cleaned tables.
  - Dates are integer day numbers.
  - Money and credits are exact reals.
- `Cleaning` covers the two cleaning procedures, `clean_usage_data` and
  `clean_balance_data`.
  - They work on a `Frame` class whose column map they update in place, one
    column at a time.
  - Cells may be null, numbers, text or dates.
- `Balances` holds the latest balance row per customer (`idxmax`) and the
  balance summary.
- `RunRate` covers `calculate_run_rate_by_customer` and
  `calculate_overall_run_rate`.
- `Contracts` covers:
  - `calculate_contract_usage_metrics`, a method whose loop fills the metrics
    dictionary;
  - the data series of `create_contract_usage_chart`, a method with a
    prediction loop.
- `Summaries` holds:
  - the usage summary and the growth rate;
  - the customer and usage-type filters;
  - the sorted customer and usage-type lists;
  - top customers and drill-down.

The current date (`datetime.now().date()`) is a parameter `today`. The
run-rate window length is a parameter `runRateDays`.

Several helpers exist twice in the repository, with identical bodies, in
`streamlit_app.py` and in `utils/data_utils.py`. Each is modelled once, and
the table cites the `utils/data_utils.py` copy. The duplicates are:

| helper | streamlit_app.py | utils/data_utils.py |
|---|---|---|
| `clean_usage_data` | 333-356 | 78-101 |
| `clean_balance_data` | 358-379 | 103-124 |
| `get_usage_summary` | 381-399 | 126-144 |
| `get_balance_summary` | 401-418 | 146-163 |
| `get_usage_type_list` | 420-425 | 186-191 |
| `calculate_growth_rate` | 443-459 | 209-225 |
| `get_top_customers_by_usage` | 461-472 | 227-238 |

Usage cleaning only strips the text of `USAGE_TYPE` and `BALANCE_SOURCE`; it
does not lower-case it. The model follows the code:
`Cleaning.CleanedUsageCells` states that stripped text keeps its case.

## Model

| member | source | states |
|---|---|---|
| Cleaning.StripIsTrimmedSlice | utils/data_utils.py:99 | `str.strip()` leaves a contiguous slice of the text. Only whitespace is cut off on either side, and the result neither begins nor ends with whitespace. |
| Cleaning.StripIdempotent | utils/data_utils.py:99 | Stripping twice is stripping once. |
| Cleaning.ApplyInPlace | utils/data_utils.py:90-99 | The loop over a column-name list transforms exactly the listed columns that the frame has. It leaves every other column, the set of columns and the height unchanged. |
| Cleaning.CleanUsageData | utils/data_utils.py:78-101 | The frame's new columns are the cleaned usage frame. An empty frame is left as it is. |
| Cleaning.CleanedUsageCells | utils/data_utils.py:89-99 | In the cleaned usage frame: a null CREDITS_USED or USAGE_IN_CURRENCY becomes 0 and a number is kept. A null USAGE_TYPE or BALANCE_SOURCE becomes "Unknown" and text is stripped but keeps its case. Absent and other columns are untouched. |
| Cleaning.CleanUsageIdempotent | utils/data_utils.py:78-101 | Cleaning usage twice equals cleaning once, when the category columns hold text or nulls. |
| Cleaning.CleanBalanceData | utils/data_utils.py:103-124 | The frame's new columns are the cleaned balance frame. An empty frame is left as it is. |
| Cleaning.CleanedBalanceTotal | utils/data_utils.py:112-122 | TOTAL_BALANCE at each row is free usage plus capacity plus rollover. A null or a missing column counts as 0. |
| Cleaning.TotalIgnoresOnDemand | utils/data_utils.py:120-122 | Replacing the on-demand column never changes TOTAL_BALANCE. |
| Cleaning.CleanBalanceIdempotent | utils/data_utils.py:103-124 | Cleaning balances twice equals cleaning once. |
| Balances.LatestRow | utils/data_utils.py:152 | `idxmax` picks the first row holding the greatest BALANCE_DATE. |
| Balances.LatestFor | utils/data_utils.py:152 | A customer has a latest row exactly when it has any row. That row is one of its own, with the greatest date, and no earlier row of the customer has that date (`idxmax` keeps the first). |
| Balances.LatestPerCustomer | utils/data_utils.py:152 | There is one row per distinct customer, in order of first appearance. Each row is that customer's latest row. |
| Balances.GetBalanceSummary | utils/data_utils.py:146-163 | The result is empty exactly for an empty table. Otherwise each of the four totals is the sum, over the table's customers, of that balance in the customer's latest row. `customers_with_balance` counts the customers whose latest TOTAL_BALANCE is positive, and `customers_on_demand` those whose latest on-demand balance is negative. |
| Balances.SummaryAddsUpToTotalBalance | utils/data_utils.py:153-161 | With cleaned totals, the free, capacity and rollover sums add up to the latest TOTAL_BALANCE summed over customers. |
| RunRate.MaxDate | streamlit_app.py:490 | The result is a date of the table that no row exceeds. |
| RunRate.MinDate | streamlit_app.py:498 | The result is a date of the table that no row precedes. |
| RunRate.InWindow | streamlit_app.py:490-492 | The window holds exactly the rows dated strictly after max date minus `run_rate_days`. |
| RunRate.InWindowCounts | streamlit_app.py:490-492 | Each row dated after the cutoff is in the window as many times as in the table; every other row is in it zero times. |
| RunRate.RecentWindow | streamlit_app.py:489-498 | The window is empty exactly when usage is empty or `run_rate_days` ≤ 0. Otherwise its span `actual_days` = max − min + 1 lies in [1, `run_rate_days`] and covers every window row. |
| RunRate.WindowEmptyIffNoDays | streamlit_app.py:494-495 | The empty-window branch is reached only when `run_rate_days` ≤ 0. |
| RunRate.Horizon | streamlit_app.py:588-591 | A horizon exists exactly when the daily rate is positive. Horizon × rate = amount. |
| RunRate.DaysUntilDepletion | streamlit_app.py:531-536 | The days exist exactly when the balance and the daily cost are both positive. The days are then positive and days × cost = balance. |
| RunRate.GroupRate | streamlit_app.py:501-516 | A customer's totals are its window sums. Its daily rates are those totals spread over the shared `actual_days`; monthly = 30 × daily. Start and end bound its rows. |
| RunRate.CustomerRate | streamlit_app.py:501-539 | A window customer's row has the customer's window totals and daily rates over the window's span. CURRENT_BALANCE is the latest TOTAL_BALANCE, 0 if the customer is missing, and the depletion rule applies. |
| RunRate.RankedRates | streamlit_app.py:501-545 | There is one row per window customer and no other. Rows are ordered non-increasing by daily credits, and each row is that customer's rate. |
| RunRate.RunRateByCustomer | streamlit_app.py:474-547 | The table is empty for empty usage. It is ordered by daily credits, descending, with one row per customer. |
| RunRate.ProjectBalance | streamlit_app.py:583-591 | The balance part is absent exactly without a balance table. The total is the latest balances summed. Days until depletion exist exactly when daily cost > 0; days × cost = total, whatever the balance's sign. |
| RunRate.WindowRate | streamlit_app.py:562-591 | Daily rates are the window sums over `actual_days`; weekly = 7 × daily and monthly = 30 × daily. The period is the window's span and dates. |
| RunRate.OverallRunRateOf | streamlit_app.py:549-593 | The dict is empty exactly when usage is empty or `run_rate_days` ≤ 0. Otherwise it is the recent window's rate. |
| RunRate.CustomerRatesAddUpToOverall | streamlit_app.py:511-512 | The per-customer daily credits and costs add up to the overall daily rates, since every customer shares the one span. |
| RunRate.ConstantDailyCost | streamlit_app.py:490-516 | A customer billed the same cost once a day on each of the last `run_rate_days` days has that cost as its daily rate, and 30 × it as its monthly projection. |
| RunRate.GroupCurrency | streamlit_app.py:503-508 | The intended CURRENCY cell is the currency code of one of the customer's rows. It is the customer's currency whenever all its rows share one. |
| RunRate.CurrencyAsWritten | streamlit_app.py:503-508 | The CURRENCY cell as written is one of the customer's USAGE_IN_CURRENCY amounts. |
| RunRate.CurrencyAsWrittenIsAnAmount | streamlit_app.py:503-508 | Two customers billed in the same currency get different as-written CURRENCY cells. |
| Contracts.ContractUsage | streamlit_app.py:619-623 | A contract's usage is exactly its customer's rows dated from START_DATE to END_DATE inclusive, in table order, each as many times as in the table. |
| Contracts.DaysUntilOverage | streamlit_app.py:650-655 | The result is 0 when no capacity remains. When capacity and the rate are positive it is remaining/rate: positive, with days × rate = remaining. Otherwise it is the days to the contract end. |
| Contracts.OverageDate | streamlit_app.py:661-663 | The result is `today` plus the whole days. It is dropped exactly when that falls after the contract end, so it never exceeds the end. |
| Contracts.UsedPercent | streamlit_app.py:676 | The result is used/capacity × 100 when capacity > 0, and 0 otherwise. |
| Contracts.OverageDateCases | streamlit_app.py:650-663 | With capacity used up, the overage date is today, or none once the contract has ended. With capacity left and no consumption, it is the contract end. |
| Contracts.MetricsFor | streamlit_app.py:612-687 | A contract row has no entry exactly when it has no usage in its dates. Otherwise: overage = max(0, used − capacity) and remaining = capacity − used. The daily rate is over the window's span; annual = 365 × daily. The overage rules apply, and with no run-rate window the days and date are null. |
| Contracts.OverusedContract | streamlit_app.py:632-663 | An over-used contract has the excess as overage and −overage as remaining. It has 0 days until overage and today as the overage date while the contract runs. |
| Contracts.ContractUsageMetrics | streamlit_app.py:595-689 | The loop leaves the dictionary built by writing each contract row's metrics under its customer in turn, skipping rows without usage. |
| Contracts.NoUsageNoMetrics | streamlit_app.py:607-608 | Empty usage or no contracts give the empty dictionary. |
| Contracts.MetricsTableKeys | streamlit_app.py:612-626 | A customer has an entry exactly when one of its contract rows has usage within its dates. |
| Contracts.LastWriteWins | streamlit_app.py:670 | A customer's entry is the metrics of its last contract row with usage. |
| Contracts.MetricsTableEntries | streamlit_app.py:670-687 | Every entry is the metrics of one of that customer's contract rows. |
| Contracts.RunningIsPrefixSum | streamlit_app.py:717 | `cumsum` entry i is the cost of the first i + 1 rows. |
| Contracts.DaysThrough | streamlit_app.py:733 | `date_range(today, end)` has end − today + 1 days, and none when today is after the end. |
| Contracts.Prediction | streamlit_app.py:732-739 | The prediction has one date a day from `today`, the daily run rate on each, and a running total that starts at the current total and grows by the rate each day. |
| Contracts.RunningEndsAtTotal | streamlit_app.py:732 | The last cumulative value, or 0 with no rows, is the customer's total cost. |
| Contracts.ContractChartSeries | streamlit_app.py:705-776 | There is no chart exactly for empty usage, a customer without an entry, or a rate ≤ 0. Otherwise `IsSeriesOf` holds: the actual rows are a permutation of the customer's rows sorted by date, with prefix-sum cumulatives. The prediction has one point per day from today through the contract end, each carrying the daily run rate, and its cumulative continues from the customer's total by the rate each day. The combined line is actual then prediction. |
| Contracts.CumulativeNeverFalls | streamlit_app.py:775-776 | With non-negative costs and a positive rate, the combined cumulative line never decreases. |
| Summaries.GetUsageSummary | utils/data_utils.py:126-144 | The summary is empty exactly for an empty table. Totals are column sums and the customer and account counts are distinct counts ≥ 1. Start and end are the extreme dates. The top usage types are min(5, number of types) distinct types, descending by credit sum, each with its own sum; a type left out used no more credits than any type kept. The daily average is the total over the distinct dates. |
| Summaries.AverageDailyCredits | utils/data_utils.py:141 | The mean of the per-date credit sums is the total credits spread over the distinct dates. |
| Summaries.Round2 | utils/data_utils.py:225 | The result is a whole number of hundredths, within 0.005 of the value. |
| Summaries.GrowthRate | utils/data_utils.py:209-225 | For every date-sorted order of the table: the rate is 0 with fewer than 2 × periods rows or a zero previous window. Otherwise it is within 0.005 of (recent − previous)/previous × 100, where recent is the last `periods` rows of that order and previous the `periods` before them. |
| Summaries.TwoRowGrowth | utils/data_utils.py:214-223 | With periods 1 and a two-row date order `[a, b]`, the growth is b's credits over a's, as a percentage change rounded to two decimals. |
| Summaries.GrowthDependsOnTieOrder | utils/data_utils.py:214-223 | Two usage rows on one day, with 1 and 2 credits, and periods 1: the two date-sorted orders give +100 and −50. |
| Summaries.GrowthDirection | utils/data_utils.py:221-225 | For any date-sorted order and a positive previous window, the rate is positive only if usage grew and negative only if it fell, and 0 when the two windows are equal. |
| Summaries.FilterByCustomer | utils/data_utils.py:165-170 | The input is returned unchanged for an empty table or an empty name. Otherwise the result is exactly the rows of that customer, each as many times as in the table, as a subsequence. |
| Summaries.FilterByUsageType | utils/data_utils.py:172-177 | The input is returned unchanged for an empty table or an empty list. Otherwise the result is exactly the rows of the listed types, each as many times as in the table, as a subsequence. |
| Summaries.SortedUnique | utils/data_utils.py:184 | `sorted(unique(...))` is strictly increasing in string order and holds exactly the input's values. |
| Summaries.ColumnList | utils/data_utils.py:179-191 | The list is empty for an empty frame or a missing column. Otherwise it is the column's distinct values, strictly sorted. |
| Summaries.TopCustomersByUsage | utils/data_utils.py:227-238 | There are min(`top_n`, number of customers) distinct customers of the table, non-increasing in summed credits, each with its own sum. A customer left out used no more than any customer kept. |
| Summaries.DrillDown | utils/data_utils.py:240-251 | There is one row per group key, sorted descending by Total. Each Total is the group's metric sum, each Count its size and Average = Total/Count. The Totals sum to the metric total and the Counts to the number of rows. |

## Left out

- The Streamlit UI, alerts, metric cards and CSS are not modelled; they are display only.
- The warehouse queries, `st.cache_data` caching and the demo-data fallback are not modelled; they are I/O, and the demo data is random.
- Plotly figure building and the heatmap are not modelled. Only the data series of the contract chart is.
- Currency and credit formatting and CSV export are not modelled; they are float-to-string rendering.
- The date-range option helpers are not modelled; they read the clock and the calendar.
- `pd.to_datetime(...).dt.date` in both cleaning procedures is not modelled. Dates arrive as day numbers.
- Float arithmetic is modelled as exact reals, so binary rounding is not captured. NaN cells in numeric columns are not modelled in sums: cleaning fills them with 0 before any sum is taken.
- A null group key is dropped by pandas `groupby` and `nunique`. Rows here always carry a key.
- `date + timedelta(days=x)` with a fractional `x` moves by floor(x) days. This is how `timedelta` normalises, and the microsecond part is ignored.
- Date overflow near `date.max` is not modelled.
- `sort_values` is not stable by default. Orderings are stated only as non-increasing (or non-decreasing) with the same rows; which of two tied rows comes first is left open. `Summaries.GrowthRate` takes the date order as a parameter for this reason, since its result depends on it.
- `ACCOUNT_NAME` is taken to be present in the usage table, so the `else 0` of `unique_accounts` is not modelled.
- Summaries.GrowthRate: `periods` is a `nat`, so a negative `periods` (Python slicing from the other end) is not modelled.
- Summaries.TopCustomersByUsage: `top_n` is a `nat`, so a negative `top_n` (`head` dropping rows from the end) is not modelled.
- Summaries.DrillDown: requires at least one grouping column, because `groupby([])` raises.
- Summaries.ColumnList: requires the column to hold text only, because `sorted` on mixed text and NaN raises. Summaries.CustomerList and Summaries.UsageTypeList inherit this.
- Summaries.Round2: states "nearest hundredth within 0.005", not the exact tie-breaking of Python's `round`.
- Cleaning.CleanUsageData: pandas' `.str.strip()` raises AttributeError when a USAGE_TYPE or BALANCE_SOURCE column holds no text cell after `fillna` (for example only numbers or only dates). The model does not raise: it strips the text cells and turns every other non-null cell into a null, as pandas does in a column that also holds text.
- Cleaning.StripCell: models `.str.strip()` on a cell of a column that holds some text; the raise on a column with no text is not modelled (see the line above).
- Cleaning.CleanBalanceData: a FREE_USAGE_BALANCE, CAPACITY_BALANCE or ROLLOVER_BALANCE cell that is not a number after `fillna(0)` makes the TOTAL_BALANCE sum raise TypeError in the source (text or a date added to a number) or, when all three summed cells are text, concatenate them into text. The model gives a null TOTAL_BALANCE cell in both cases. Cleaning.CleanedBalanceTotal states the total only for number-or-null balance cells.
- Cleaning.CleanedBalance: the same gap as the line above; non-numeric balance cells sum to a null cell instead of raising or concatenating.
- Cleaning.CleanedUsageCells: states the cells of the non-raising case only; for a category column with no text cell, where the source raises, it states nulls.
- Balances.LatestPerCustomer: lists the customers in order of first appearance, where `groupby(...).idxmax()` lists them sorted by name. No caller depends on the order.
- Contracts.ContractChartSeries: the actual series is all of the customer's usage rows, not only those inside the contract dates, as in the code. The daily values and the dates of the actual series are the `actual` rows themselves.
- RunRate.GroupRate: START_DATE and END_DATE are stated as bounds on the customer's window rows, each attained. CURRENCY follows the corrected definition; see Findings.

## Findings

| source | as written | input that shows it | evidently intended | confidence | as-written member | corrected member |
|---|---|---|---|---|---|---|
| streamlit_app.py:503-508 | The second aggregate of `USAGE_IN_CURRENCY` (the first value of the group) is renamed `CURRENCY`, so the column holds a cost amount, not a currency code. | Two customers, each with one row billed in "USD", costing 120.0 and 80.0: their CURRENCY cells are 120.0 and 80.0. | CURRENCY is the currency code of the customer's rows, e.g. "USD". | high (reasoned from the code; not executed) | RunRate.CurrencyAsWrittenIsAnAmount | RunRate.GroupCurrency |
