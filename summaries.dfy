/**
 * The dashboard's summaries and slicing helpers over the usage table: the
 * usage summary, the week-over-week growth rate, the customer and usage
 * type filters, the sorted lists that feed the filter widgets, the top
 * customers by credits and the drill-down grouping.
 */
module Summaries {
  import opened Wrappers
  import opened Tables
  import opened Records
  import opened Cleaning
  import opened RunRate

  // ---------------------------------------------------------------------
  // Usage summary (`get_usage_summary`)

  datatype UsageSummary = UsageSummary(
    totalCredits: real,
    totalCost: real,
    uniqueCustomers: nat,
    uniqueAccounts: nat,
    start: Date,
    end: Date,
    topUsageTypes: seq<Group<string>>,
    avgDailyCredits: real)

  /** How many usage types the summary ranks. */
  const TopUsageTypeCount: nat := 5

  /** The credits of each usage date: `groupby(USAGE_DATE)[CREDITS_USED].sum()`. */
  function DailyCredits(rows: seq<UsageRow>): seq<Group<Date>> {
    Groups(rows, DateOf, CreditsOf, Keys(rows, DateOf))
  }

  /** `None` is the empty dict returned for an empty table. The average daily
      credits is the total credits spread over the distinct usage dates. */
  function GetUsageSummary(rows: seq<UsageRow>): (r: Option<UsageSummary>)
    ensures r.None? <==> |rows| == 0
    ensures r.Some? ==> r.value.totalCredits == SumBy(rows, CreditsOf) && r.value.totalCost == SumBy(rows, CostOf)
    ensures r.Some? ==> r.value.uniqueCustomers == |Keys(rows, CustomerOf)| && r.value.uniqueCustomers >= 1
    ensures r.Some? ==> r.value.uniqueAccounts == |Keys(rows, AccountOf)| && r.value.uniqueAccounts >= 1
    ensures r.Some? ==> forall x :: x in rows ==> r.value.start <= x.date <= r.value.end
    ensures r.Some? ==> (exists x :: x in rows && x.date == r.value.start) && (exists x :: x in rows && x.date == r.value.end)
    ensures r.Some? ==> |Keys(rows, DateOf)| >= 1 && r.value.avgDailyCredits == PerDay(r.value.totalCredits, |Keys(rows, DateOf)|)
    ensures r.Some? ==> IsTopGroups(r.value.topUsageTypes, rows, UsageTypeOf, CreditsOf, TopUsageTypeCount)
  {
    if |rows| == 0 then None else Some(Summarize(rows))
  }

  /** The summary of a non-empty usage table. */
  function Summarize(rows: seq<UsageRow>): (u: UsageSummary)
    requires |rows| > 0
    ensures u.totalCredits == SumBy(rows, CreditsOf) && u.totalCost == SumBy(rows, CostOf)
    ensures u.uniqueCustomers == |Keys(rows, CustomerOf)| && u.uniqueCustomers >= 1
    ensures u.uniqueAccounts == |Keys(rows, AccountOf)| && u.uniqueAccounts >= 1
    ensures forall x :: x in rows ==> u.start <= x.date <= u.end
    ensures (exists x :: x in rows && x.date == u.start) && (exists x :: x in rows && x.date == u.end)
    ensures |Keys(rows, DateOf)| >= 1 && u.avgDailyCredits == PerDay(u.totalCredits, |Keys(rows, DateOf)|)
    ensures IsTopGroups(u.topUsageTypes, rows, UsageTypeOf, CreditsOf, TopUsageTypeCount)
  {
    assert rows[0] in rows;
    assert CustomerOf(rows[0]) in Keys(rows, CustomerOf);
    assert AccountOf(rows[0]) in Keys(rows, AccountOf);
    var top := TopGroups(rows, UsageTypeOf, CreditsOf, TopUsageTypeCount);
    UsageSummary(
      SumBy(rows, CreditsOf),
      SumBy(rows, CostOf),
      |Keys(rows, CustomerOf)|,
      |Keys(rows, AccountOf)|,
      MinDate(rows),
      MaxDate(rows),
      top,
      AverageDailyCredits(rows))
  }

  /** `groupby(USAGE_DATE)[CREDITS_USED].sum().mean()`: the mean of the
      per-date sums is the total credits spread over the distinct dates. */
  function AverageDailyCredits(rows: seq<UsageRow>): (a: real)
    requires |rows| > 0
    ensures |Keys(rows, DateOf)| >= 1
    ensures a == PerDay(SumBy(rows, CreditsOf), |Keys(rows, DateOf)|)
  {
    var g := DailyCredits(rows);
    assert |g| >= 1 by {
      assert rows[0] in rows;
    }
    assert SumBy(g, TotalOf) == SumBy(rows, CreditsOf) by {
      GroupsPartition(rows, DateOf, CreditsOf);
    }
    PerDay(SumBy(g, TotalOf), |g|)
  }

  // ---------------------------------------------------------------------
  // Growth rate (`calculate_growth_rate`)

  /** `x` is a whole number of hundredths. */
  predicate IsHundredth(x: real) {
    (x * 100.0).Floor as real == x * 100.0
  }

  /** `round(x, 2)`: the nearest hundredth, a tie going to the even one. */
  function Round2(x: real): (r: real)
    ensures IsHundredth(r)
    ensures -0.005 <= r - x <= 0.005
  {
    var y := x * 100.0;
    var n := y.Floor;
    var frac := y - n as real;
    var m := if frac < 0.5 then n else if frac > 0.5 then n + 1 else if n % 2 == 0 then n else n + 1;
    Hundredths(m)
  }

  /** `m` hundredths. */
  function Hundredths(m: int): (r: real)
    ensures r * 100.0 == m as real
  {
    m as real / 100.0
  }

  /** Rounding keeps the sign: a positive result comes from a positive
      value, a negative one from a negative value, and 0 stays 0. */
  lemma Round2Sign(x: real)
    ensures Round2(x) > 0.0 ==> x > 0.0
    ensures Round2(x) < 0.0 ==> x < 0.0
    ensures x == 0.0 ==> Round2(x) == 0.0
  {
    var r := Round2(x);
    var n := (r * 100.0).Floor;
    assert r * 100.0 == n as real;
    if r > 0.0 {
      assert n >= 1;
    }
    if r < 0.0 {
      assert n <= -1;
    }
  }

  /** `order` is the table sorted by USAGE_DATE, ascending. `sort_values` is
      not stable, so rows sharing a date may come in any order: the growth
      rate is stated for every such order. */
  predicate IsDateOrder(order: seq<UsageRow>, rows: seq<UsageRow>) {
    multiset(order) == multiset(rows) && Ordered(order, DateKey, false)
  }

  /** The metric total of the last `periods` rows of the date order. */
  function RecentSum(order: seq<UsageRow>, metric: Metric, periods: nat): real
    requires 2 * periods <= |order|
  {
    SumBy(order[|order| - periods..], MetricFn(metric))
  }

  /** The metric total of the `periods` rows before those. */
  function PreviousSum(order: seq<UsageRow>, metric: Metric, periods: nat): real
    requires 2 * periods <= |order|
  {
    SumBy(order[|order| - 2 * periods..|order| - periods], MetricFn(metric))
  }

  /** The percentage change from the previous `periods` rows to the last
      `periods` rows of the date order `order` of `rows`, rounded to two
      decimals; 0 when there are too few rows or nothing to compare against. */
  function GrowthRate(rows: seq<UsageRow>, order: seq<UsageRow>, metric: Metric, periods: nat): (g: real)
    requires IsDateOrder(order, rows)
    ensures |order| == |rows|
    ensures |rows| < 2 * periods ==> g == 0.0
    ensures |rows| >= 2 * periods && PreviousSum(order, metric, periods) == 0.0 ==> g == 0.0
    ensures |rows| >= 2 * periods && PreviousSum(order, metric, periods) != 0.0 ==>
      var recent := RecentSum(order, metric, periods);
      var previous := PreviousSum(order, metric, periods);
      IsHundredth(g) && -0.005 <= g - (recent - previous) / previous * 100.0 <= 0.005
  {
    assert |order| == |multiset(order)| == |multiset(rows)| == |rows|;
    if |rows| < 2 * periods then 0.0
    else
      var recent := RecentSum(order, metric, periods);
      var previous := PreviousSum(order, metric, periods);
      if previous == 0.0 then 0.0 else Round2((recent - previous) / previous * 100.0)
  }

  /** Against a positive previous period, the growth rate is positive only
      when the recent period is larger, negative only when it is smaller,
      and 0 when the two are equal. */
  lemma GrowthDirection(rows: seq<UsageRow>, order: seq<UsageRow>, metric: Metric, periods: nat)
    requires IsDateOrder(order, rows) && |order| >= 2 * periods
    requires PreviousSum(order, metric, periods) > 0.0
    ensures var g := GrowthRate(rows, order, metric, periods);
      var recent := RecentSum(order, metric, periods);
      var previous := PreviousSum(order, metric, periods);
      && (g > 0.0 ==> recent > previous)
      && (g < 0.0 ==> recent < previous)
      && (recent == previous ==> g == 0.0)
  {
    var recent := RecentSum(order, metric, periods);
    var previous := PreviousSum(order, metric, periods);
    var change := (recent - previous) / previous * 100.0;
    assert |order| == |multiset(order)| == |multiset(rows)| == |rows|;
    assert GrowthRate(rows, order, metric, periods) == Round2(change);
    Round2Sign(change);
    ChangeSign(recent, previous);
  }

  /** Two rows on the same day: the two date orders of the table give
      different growth rates, +100 and -50. */
  lemma GrowthDependsOnTieOrder()
    ensures var x := UsageRow("Acme", "a", "r", "s", "COMPUTE", "CAPACITY", 1, 1.0, 1.0, "USD");
      var y := UsageRow("Acme", "a", "r", "s", "STORAGE", "CAPACITY", 1, 2.0, 2.0, "USD");
      && IsDateOrder([x, y], [x, y]) && IsDateOrder([y, x], [x, y])
      && GrowthRate([x, y], [x, y], Credits, 1) == 100.0
      && GrowthRate([x, y], [y, x], Credits, 1) == -50.0
  {
    var x := UsageRow("Acme", "a", "r", "s", "COMPUTE", "CAPACITY", 1, 1.0, 1.0, "USD");
    var y := UsageRow("Acme", "a", "r", "s", "STORAGE", "CAPACITY", 1, 2.0, 2.0, "USD");
    assert multiset([y, x]) == multiset([x, y]);
    assert IsDateOrder([y, x], [x, y]);
    assert IsDateOrder([x, y], [x, y]);
    TwoRowGrowth([x, y], [x, y], x, y);
    TwoRowGrowth([x, y], [y, x], y, x);
    assert (2.0 - 1.0) / 1.0 * 100.0 == 100.0 as real;
    assert (1.0 - 2.0) / 2.0 * 100.0 == -50 as real;
    RoundWhole(100);
    RoundWhole(-50);
  }

  /** A whole number is already rounded to two decimals. */
  lemma RoundWhole(n: int)
    ensures Round2(n as real) == n as real
  {
    assert (n as real * 100.0).Floor == n * 100;
  }

  /** With two rows and periods 1, the growth rate compares the second row
      of the order with the first. */
  lemma TwoRowGrowth(rows: seq<UsageRow>, order: seq<UsageRow>, a: UsageRow, b: UsageRow)
    requires IsDateOrder(order, rows) && order == [a, b] && a.credits != 0.0
    ensures GrowthRate(rows, order, Credits, 1) == Round2((b.credits - a.credits) / a.credits * 100.0)
  {
    assert order[1..] == [b] && order[0..1] == [a];
    assert SumBy([a], CreditsOf) == a.credits && SumBy([b], CreditsOf) == b.credits;
    assert RecentSum(order, Credits, 1) == b.credits && PreviousSum(order, Credits, 1) == a.credits;
  }

  /** The percentage change against a positive base has the sign of the
      difference. */
  lemma ChangeSign(recent: real, previous: real)
    requires previous > 0.0
    ensures var change := (recent - previous) / previous * 100.0;
      && (change > 0.0 ==> recent > previous)
      && (change < 0.0 ==> recent < previous)
      && (recent == previous ==> change == 0.0)
  {
  }

  // ---------------------------------------------------------------------
  // Filters (`filter_data_by_customer`, `filter_data_by_usage_type`)

  /** Python's falsy filter value: none given, or the empty string. */
  predicate NoName(name: Option<string>) {
    name.None? || name.value == ""
  }

  /** The table unchanged when no customer is chosen; otherwise exactly its
      rows of that customer, in table order. */
  function FilterByCustomer(rows: seq<UsageRow>, name: Option<string>): (r: seq<UsageRow>)
    ensures |rows| == 0 || NoName(name) ==> r == rows
    ensures !NoName(name) ==> forall x :: x in r <==> x in rows && x.customer == name.value
    ensures IsSubsequence(r, rows)
    ensures !NoName(name) ==> forall x :: multiset(r)[x] == if x.customer == name.value then multiset(rows)[x] else 0
  {
    if |rows| == 0 || NoName(name) then
      SubsequenceOfItself(rows);
      rows
    else
      FilterIsSubsequence(rows, KeyIs(CustomerOf, name.value));
      FilterCountsAll(rows, KeyIs(CustomerOf, name.value));
      Where(rows, CustomerOf, name.value)
  }

  /** The mask `USAGE_TYPE.isin(types)`. */
  function TypeIn(types: seq<string>): UsageRow -> bool {
    (x: UsageRow) => x.usageType in types
  }

  /** The table unchanged when no usage type is chosen; otherwise exactly its
      rows of the chosen types, in table order. */
  function FilterByUsageType(rows: seq<UsageRow>, types: seq<string>): (r: seq<UsageRow>)
    ensures |rows| == 0 || |types| == 0 ==> r == rows
    ensures |types| > 0 ==> forall x :: x in r <==> x in rows && x.usageType in types
    ensures IsSubsequence(r, rows)
    ensures |types| > 0 ==> forall x :: multiset(r)[x] == if x.usageType in types then multiset(rows)[x] else 0
  {
    if |rows| == 0 || |types| == 0 then
      SubsequenceOfItself(rows);
      rows
    else
      FilterIsSubsequence(rows, TypeIn(types));
      FilterCountsAll(rows, TypeIn(types));
      Filter(rows, TypeIn(types))
  }

  lemma SubsequenceOfItself<T>(s: seq<T>)
    ensures IsSubsequence(s, s)
  {
    var idx: seq<nat> := seq(|s|, i requires 0 <= i < |s| => i);
    assert IndexMap(idx, s, s);
  }

  // ---------------------------------------------------------------------
  // Sorted distinct values (`get_customer_list`, `get_usage_type_list`)

  /** Python's string order: code point by code point, a proper prefix first. */
  predicate StrLt(a: string, b: string) {
    if |b| == 0 then false
    else if |a| == 0 then true
    else if a[0] != b[0] then a[0] < b[0]
    else StrLt(a[1..], b[1..])
  }

  lemma {:induction false} StrLtIrreflexive(a: string)
    ensures !StrLt(a, a)
  {
    if |a| > 0 {
      StrLtIrreflexive(a[1..]);
    }
  }

  lemma {:induction false} StrLtTransitive(a: string, b: string, c: string)
    requires StrLt(a, b) && StrLt(b, c)
    ensures StrLt(a, c)
  {
    if |a| > 0 && a[0] == b[0] && b[0] == c[0] {
      StrLtTransitive(a[1..], b[1..], c[1..]);
    }
  }

  lemma {:induction false} StrLtTotal(a: string, b: string)
    requires a != b
    ensures StrLt(a, b) || StrLt(b, a)
  {
    if |a| > 0 && |b| > 0 && a[0] == b[0] {
      assert a == [a[0]] + a[1..] && b == [b[0]] + b[1..];
      StrLtTotal(a[1..], b[1..]);
    }
  }

  /** Sorted in Python's string order with no value twice. */
  predicate StrictlySorted(s: seq<string>) {
    forall i, j :: 0 <= i < j < |s| ==> StrLt(s[i], s[j])
  }

  /** `x` put in its place in `s`, unless `s` already holds it. */
  function InsertName(x: string, s: seq<string>): (r: seq<string>)
    requires StrictlySorted(s)
    ensures StrictlySorted(r)
    ensures forall y :: y in r <==> y == x || y in s
  {
    if |s| == 0 then [x]
    else if x == s[0] then s
    else if StrLt(x, s[0]) then
      forall j | 0 < j < |s| ensures StrLt(x, s[j]) {
        StrLtTransitive(x, s[0], s[j]);
      }
      [x] + s
    else
      StrLtTotal(x, s[0]);
      var rest := InsertName(x, s[1..]);
      forall y | y in rest ensures StrLt(s[0], y) {
        if y != x {
          var j :| 0 <= j < |s[1..]| && s[1..][j] == y;
          assert s[j + 1] == y;
        }
      }
      assert forall y :: y in s <==> y == s[0] || y in s[1..];
      [s[0]] + rest
  }

  /** `sorted(unique(names))`. */
  function SortedUnique(names: seq<string>): (r: seq<string>)
    ensures StrictlySorted(r)
    ensures forall y :: y in r <==> y in names
  {
    if |names| == 0 then []
    else
      assert forall y :: y in names <==> y == names[0] || y in names[1..];
      InsertName(names[0], SortedUnique(names[1..]))
  }

  /** The names held by a column of text cells. */
  function Texts(col: seq<Cell>): (ts: seq<string>)
    requires forall c :: c in col ==> c.Str?
    ensures forall t :: t in ts <==> Str(t) in col
  {
    if |col| == 0 then []
    else
      assert forall c :: c in col <==> c == col[0] || c in col[1..];
      [col[0].s] + Texts(col[1..])
  }

  /** Sorting mixes no text with nulls: the column holds names only. */
  predicate TextColumn(cols: Columns, name: string) {
    name in cols ==> forall c :: c in cols[name] ==> c.Str?
  }

  /** The sorted distinct values of column `name`; empty for an empty frame
      or one without that column. */
  function ColumnList(cols: Columns, height: nat, name: string): (r: seq<string>)
    requires TextColumn(cols, name)
    ensures EmptyFrame(cols, height) || name !in cols ==> r == []
    ensures StrictlySorted(r)
    ensures !EmptyFrame(cols, height) && name in cols ==> forall t :: t in r <==> Str(t) in cols[name]
  {
    if EmptyFrame(cols, height) || name !in cols then []
    else SortedUnique(Texts(cols[name]))
  }

  const CustomerColumn: string := "SOLD_TO_CUSTOMER_NAME"
  const UsageTypeColumn: string := "USAGE_TYPE"

  function CustomerList(cols: Columns, height: nat): seq<string>
    requires TextColumn(cols, CustomerColumn)
  {
    ColumnList(cols, height, CustomerColumn)
  }

  function UsageTypeList(cols: Columns, height: nat): seq<string>
    requires TextColumn(cols, UsageTypeColumn)
  {
    ColumnList(cols, height, UsageTypeColumn)
  }

  // ---------------------------------------------------------------------
  // Top customers (`get_top_customers_by_usage`)

  /** The `topN` customers with the most credits, most first: as many as
      `topN` and the number of customers allow, each with its credit total,
      and a customer left out used no more credits than any customer kept. */
  function TopCustomersByUsage(rows: seq<UsageRow>, topN: nat): (r: seq<Group<string>>)
    ensures |rows| == 0 ==> r == []
    ensures IsTopGroups(r, rows, CustomerOf, CreditsOf, topN)
  {
    TopGroups(rows, CustomerOf, CreditsOf, topN)
  }

  // ---------------------------------------------------------------------
  // Drill-down (`create_drill_down_data`)

  /** One row of the drill-down table: a group key with its Total, Count and
      Average of the metric. */
  datatype DrillRow = DrillRow(key: seq<KeyValue>, total: real, count: nat, average: real)

  /** The drill-down row of each group, its Average the mean of the group:
      the group's total spread evenly over its `count` rows (`PerDay` with
      rows in place of days). */
  function DrillRows(g: seq<Group<seq<KeyValue>>>): (r: seq<DrillRow>)
    requires forall i :: 0 <= i < |g| ==> g[i].count >= 1
    ensures |r| == |g|
    ensures forall i :: 0 <= i < |r| ==> r[i].key == g[i].key && r[i].total == g[i].total && r[i].count == g[i].count
    ensures forall i :: 0 <= i < |r| ==> r[i].count >= 1 && r[i].average == PerDay(r[i].total, r[i].count)
  {
    seq(|g|, i requires 0 <= i < |g| => DrillRow(g[i].key, g[i].total, g[i].count, PerDay(g[i].total, g[i].count)))
  }

  function DrillTotalOf(d: DrillRow): real { d.total }
  function DrillCountOf(d: DrillRow): real { d.count as real }
  function DrillKeyOf(d: DrillRow): seq<KeyValue> { d.key }

  /** `groupby(dims)[metric].agg(['sum', 'count', 'mean'])` sorted by Total,
      largest first: one row per key, the totals adding up to the table's
      total and the counts to its number of rows. */
  function DrillDown(rows: seq<UsageRow>, dims: seq<Dim>, metric: Metric): (r: seq<DrillRow>)
    requires |dims| > 0
    ensures |r| == |Keys(rows, KeyFn(dims))|
    ensures Ordered(r, DrillTotalOf, true) && DistinctBy(r, DrillKeyOf)
    ensures forall i :: 0 <= i < |r| ==>
      && r[i].key in Keys(rows, KeyFn(dims))
      && r[i].total == SumBy(Where(rows, KeyFn(dims), r[i].key), MetricFn(metric))
      && r[i].count == |Where(rows, KeyFn(dims), r[i].key)| && r[i].count >= 1
      && r[i].average == PerDay(r[i].total, r[i].count)
    ensures SumBy(r, DrillTotalOf) == SumBy(rows, MetricFn(metric))
    ensures SumBy(r, DrillCountOf) == |rows| as real
  {
    var key := KeyFn(dims);
    var g := RankedGroups(rows, key, MetricFn(metric));
    forall i | 0 <= i < |g| ensures g[i].count >= 1 {
      KeyGroupNonEmpty(rows, key, g[i].key);
    }
    var r := DrillRows(g);
    RankedGroupsPartition(rows, key, MetricFn(metric));
    SumByPointwise(r, DrillTotalOf, g, TotalOf);
    SumByPointwise(r, DrillCountOf, g, CountOf);
    r
  }
}
