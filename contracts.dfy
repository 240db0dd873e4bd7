/**
 * Capacity-contract tracking (`calculate_contract_usage_metrics` and the
 * data behind `create_contract_usage_chart`): how much of a contract's
 * purchased capacity its customer has used inside the contract's dates, the
 * overage, the run rate over the most recent days of that usage, and the
 * projected day the capacity runs out. The current date is a parameter.
 */
module Contracts {
  import opened Wrappers
  import opened Tables
  import opened Records
  import opened RunRate

  /** One customer's entry in the contract metrics dictionary. */
  datatype ContractMetrics = ContractMetrics(
    contractId: string,
    contractStart: Date,
    contractEnd: Date,
    capacityPurchased: real,
    totalUsed: real,
    usedPercent: real,
    overage: real,
    remainingCapacity: real,
    daysUntilOverage: Option<real>,
    overageDate: Option<Date>,
    dailyRunRate: real,
    annualRunRate: real,
    runRatePeriod: int,
    currency: string,
    daysInContract: int,
    daysElapsed: int)

  /** The mask selecting the usage a contract covers: its customer's rows
      dated from START_DATE to END_DATE, both included. */
  function Covers(k: ContractRow): UsageRow -> bool {
    (x: UsageRow) => x.customer == k.customer && k.start <= x.date <= k.end
  }

  /** The usage billed against contract `k`, in table order. */
  function ContractUsage(usage: seq<UsageRow>, k: ContractRow): (r: seq<UsageRow>)
    ensures forall x :: x in r <==> x in usage && x.customer == k.customer && k.start <= x.date <= k.end
    ensures IsSubsequence(r, usage)
    ensures forall x ::
      multiset(r)[x] == if x.customer == k.customer && k.start <= x.date <= k.end then multiset(usage)[x] else 0
  {
    FilterIsSubsequence(usage, Covers(k));
    FilterCountsAll(usage, Covers(k));
    Filter(usage, Covers(k))
  }

  /** Whether the customer of contract `k` has usage inside its dates. */
  predicate HasUsage(usage: seq<UsageRow>, k: ContractRow) {
    exists x :: x in usage && x.customer == k.customer && k.start <= x.date <= k.end
  }

  /** `days_until_overage` once a run rate is known: none left when the
      capacity is used up, the remaining capacity over the daily rate when
      both are positive, and otherwise the days left in the contract. */
  function DaysUntilOverage(remaining: real, rate: real, today: Date, end: Date): (d: real)
    ensures remaining <= 0.0 ==> d == 0.0
    ensures remaining > 0.0 && rate > 0.0 ==> d > 0.0 && d * rate == remaining
    ensures remaining > 0.0 && rate <= 0.0 ==> d == (end - today) as real
  {
    if rate > 0.0 && remaining > 0.0 then remaining / rate
    else if remaining <= 0.0 then 0.0
    else (end - today) as real
  }

  /** `today + timedelta(days=days)`: a date moves by whole days, so the
      fraction of a day is dropped (towards the past). The date is dropped
      when it falls after the contract end. */
  function OverageDate(today: Date, days: real, end: Date): (r: Option<Date>)
    ensures r.None? <==> (today as real) + days >= (end + 1) as real
    ensures r.Some? ==> r.value <= end
    ensures r.Some? ==> (r.value as real) <= (today as real) + days < (r.value + 1) as real
  {
    var d := today + days.Floor;
    if d > end then None else Some(d)
  }

  /** `used_percent`: the share of the purchased capacity used, in percent,
      and 0 for a contract with no capacity. */
  function UsedPercent(total: real, capacity: real): (p: real)
    ensures capacity > 0.0 ==> p * capacity == 100.0 * total
    ensures capacity <= 0.0 ==> p == 0.0
  {
    if capacity > 0.0 then total / capacity * 100.0 else 0.0
  }

  /** The metrics of one contract row; `None` when the customer has no usage
      inside the contract's dates (the row is skipped). */
  function MetricsFor(usage: seq<UsageRow>, k: ContractRow, runRateDays: int, today: Date): (r: Option<ContractMetrics>)
    ensures r.None? <==> !HasUsage(usage, k)
    ensures r.Some? ==> r.value.contractId == k.item && r.value.currency == k.currency
    ensures r.Some? ==> r.value.contractStart == k.start && r.value.contractEnd == k.end
    ensures r.Some? ==> r.value.capacityPurchased == k.amount
    ensures r.Some? ==> r.value.totalUsed == SumBy(ContractUsage(usage, k), CostOf)
    ensures r.Some? ==> r.value.remainingCapacity + r.value.totalUsed == k.amount
    ensures r.Some? ==> r.value.overage >= 0.0 && r.value.overage >= r.value.totalUsed - k.amount
    ensures r.Some? ==> r.value.overage == 0.0 || r.value.overage == -r.value.remainingCapacity
    ensures r.Some? ==> r.value.usedPercent == UsedPercent(r.value.totalUsed, k.amount)
    ensures r.Some? ==> r.value.daysInContract == k.end - k.start && r.value.daysElapsed == today - k.start
    ensures r.Some? ==> r.value.runRatePeriod == runRateDays
    ensures r.Some? ==> r.value.annualRunRate == 365.0 * r.value.dailyRunRate
    ensures r.Some? ==> (r.value.daysUntilOverage.None? <==> runRateDays <= 0)
    ensures r.Some? && runRateDays <= 0 ==> r.value.dailyRunRate == 0.0 && r.value.overageDate.None?
    ensures r.Some? && runRateDays > 0 ==>
      var w := RecentWindow(ContractUsage(usage, k), runRateDays).value;
      && r.value.dailyRunRate == PerDay(SumBy(w.rows, CostOf), w.days)
      && r.value.daysUntilOverage == Some(DaysUntilOverage(r.value.remainingCapacity, r.value.dailyRunRate, today, k.end))
      && r.value.overageDate == OverageDate(today, r.value.daysUntilOverage.value, k.end)
    ensures r.Some? && r.value.overageDate.Some? ==> r.value.overageDate.value <= k.end
  {
    var cu := ContractUsage(usage, k);
    if |cu| == 0 then None
    else
      assert cu[0] in cu;
      Some(Measure(cu, k, runRateDays, today))
  }

  /** The metrics of contract `k` over its non-empty usage `cu`. */
  function Measure(cu: seq<UsageRow>, k: ContractRow, runRateDays: int, today: Date): ContractMetrics
    requires |cu| > 0
  {
    var total := SumBy(cu, CostOf);
    var remaining := k.amount - total;
    var overage := if total - k.amount > 0.0 then total - k.amount else 0.0;
    var (rate, days, annual, date) :=
      match RecentWindow(cu, runRateDays)
      case None => (0.0, None, 0.0, None)
      case Some(w) =>
        var rate := PerDay(SumBy(w.rows, CostOf), w.days);
        var days := DaysUntilOverage(remaining, rate, today, k.end);
        (rate, Some(days), 365.0 * rate, OverageDate(today, days, k.end));
    ContractMetrics(k.item, k.start, k.end, k.amount, total, UsedPercent(total, k.amount),
      overage, remaining, days, date, rate, annual, runRateDays, k.currency,
      k.end - k.start, today - k.start)
  }

  /** When the capacity is used up, the overage date is today (none once the
      contract has ended); when capacity is left but nothing is being
      consumed, it is the contract end. */
  lemma OverageDateCases(remaining: real, rate: real, today: Date, end: Date)
    ensures remaining <= 0.0 ==>
      OverageDate(today, DaysUntilOverage(remaining, rate, today, end), end) == if today <= end then Some(today) else None
    ensures remaining > 0.0 && rate <= 0.0 ==>
      OverageDate(today, DaysUntilOverage(remaining, rate, today, end), end) == Some(end)
  {
  }

  /** The dictionary left by writing `vs[i]` under `ks[i]` for each `i` in
      turn, skipping absent values: a later write replaces an earlier one. */
  function Assign<K, V>(ks: seq<K>, vs: seq<Option<V>>): map<K, V>
    requires |ks| == |vs|
  {
    if |ks| == 0 then map[]
    else
      var n := |ks| - 1;
      var t := Assign(ks[..n], vs[..n]);
      match vs[n]
      case None => t
      case Some(v) => t[ks[n] := v]
  }

  /** Writing one more value: the dictionary of the first `i + 1` writes is
      that of the first `i`, with write `i` applied. */
  lemma AssignSnoc<K, V>(ks: seq<K>, vs: seq<Option<V>>, i: nat)
    requires |ks| == |vs| && i < |ks|
    ensures Assign(ks[..i + 1], vs[..i + 1]) == match vs[i]
      case None => Assign(ks[..i], vs[..i])
      case Some(v) => Assign(ks[..i], vs[..i])[ks[i] := v]
  {
    assert ks[..i + 1][..i] == ks[..i] && vs[..i + 1][..i] == vs[..i];
  }

  lemma {:induction false} AssignKeys<K, V>(ks: seq<K>, vs: seq<Option<V>>, k: K)
    requires |ks| == |vs|
    ensures k in Assign(ks, vs) <==> exists i :: 0 <= i < |ks| && ks[i] == k && vs[i].Some?
  {
    if |ks| > 0 {
      var n := |ks| - 1;
      AssignKeys(ks[..n], vs[..n], k);
      if k in Assign(ks, vs) {
        if !(vs[n].Some? && ks[n] == k) {
          var i :| 0 <= i < n && ks[..n][i] == k && vs[..n][i].Some?;
          assert ks[i] == k && vs[i].Some?;
        }
      } else {
        forall i | 0 <= i < |ks| && ks[i] == k ensures vs[i].None? {
          if i < n {
            assert ks[..n][i] == ks[i] && vs[..n][i] == vs[i];
          }
        }
      }
    }
  }

  lemma {:induction false} AssignLast<K, V>(ks: seq<K>, vs: seq<Option<V>>, i: nat)
    requires |ks| == |vs| && i < |ks| && vs[i].Some?
    requires forall j :: i < j < |ks| && ks[j] == ks[i] ==> vs[j].None?
    ensures ks[i] in Assign(ks, vs) && Assign(ks, vs)[ks[i]] == vs[i].value
  {
    var n := |ks| - 1;
    if i < n {
      assert ks[..n][i] == ks[i] && vs[..n][i] == vs[i];
      forall j | i < j < n && ks[..n][j] == ks[..n][i] ensures vs[..n][j].None? {
        assert ks[..n][j] == ks[j] && vs[..n][j] == vs[j];
      }
      AssignLast(ks[..n], vs[..n], i);
    }
  }

  lemma {:induction false} AssignValues<K, V>(ks: seq<K>, vs: seq<Option<V>>, k: K)
    requires |ks| == |vs| && k in Assign(ks, vs)
    ensures exists i :: 0 <= i < |ks| && ks[i] == k && vs[i] == Some(Assign(ks, vs)[k])
  {
    var n := |ks| - 1;
    if !(vs[n].Some? && ks[n] == k) {
      AssignValues(ks[..n], vs[..n], k);
      var i :| 0 <= i < n && ks[..n][i] == k && vs[..n][i] == Some(Assign(ks[..n], vs[..n])[k]);
      assert ks[i] == k && vs[i] == vs[..n][i];
    }
  }

  function CustomersOf(contracts: seq<ContractRow>): (cs: seq<string>)
    ensures |cs| == |contracts|
    ensures forall i :: 0 <= i < |cs| ==> cs[i] == contracts[i].customer
  {
    seq(|contracts|, i requires 0 <= i < |contracts| => contracts[i].customer)
  }

  /** The metrics of every contract row, `None` for a row without usage. */
  function MetricsOf(usage: seq<UsageRow>, contracts: seq<ContractRow>, runRateDays: int, today: Date): (ms: seq<Option<ContractMetrics>>)
    ensures |ms| == |contracts|
    ensures forall i :: 0 <= i < |ms| ==> ms[i] == MetricsFor(usage, contracts[i], runRateDays, today)
  {
    seq(|contracts|, i requires 0 <= i < |contracts| => MetricsFor(usage, contracts[i], runRateDays, today))
  }

  /** A contract used beyond its capacity has the excess as overage, no day
      left, and today as its overage date while the contract runs. */
  lemma OverusedContract(usage: seq<UsageRow>, k: ContractRow, runRateDays: int, today: Date)
    requires runRateDays > 0
    requires MetricsFor(usage, k, runRateDays, today).Some?
    requires MetricsFor(usage, k, runRateDays, today).value.totalUsed > k.amount
    ensures var m := MetricsFor(usage, k, runRateDays, today).value;
      && m.overage == m.totalUsed - k.amount
      && m.remainingCapacity == -m.overage
      && m.daysUntilOverage == Some(0.0)
      && m.overageDate == if today <= k.end then Some(today) else None
  {
    var m := MetricsFor(usage, k, runRateDays, today).value;
    OverageDateCases(m.remainingCapacity, m.dailyRunRate, today, k.end);
  }

  /** The metrics dictionary: each contract row with usage writes its
      customer's entry, overwriting an earlier one. */
  function MetricsTable(usage: seq<UsageRow>, contracts: seq<ContractRow>, runRateDays: int, today: Date): map<string, ContractMetrics>
  {
    Assign(CustomersOf(contracts), MetricsOf(usage, contracts, runRateDays, today))
  }

  /** `calculate_contract_usage_metrics`: one pass over the contract rows. */
  method ContractUsageMetrics(usage: seq<UsageRow>, contracts: seq<ContractRow>, runRateDays: int, today: Date)
    returns (metrics: map<string, ContractMetrics>)
    ensures metrics == MetricsTable(usage, contracts, runRateDays, today)
  {
    ghost var ks := CustomersOf(contracts);
    ghost var vs := MetricsOf(usage, contracts, runRateDays, today);
    metrics := map[];
    if |usage| == 0 || |contracts| == 0 {
      NoUsageNoMetrics(usage, contracts, runRateDays, today);
      return;
    }
    for i := 0 to |contracts|
      invariant metrics == Assign(ks[..i], vs[..i])
    {
      var k := contracts[i];
      var m := MetricsFor(usage, k, runRateDays, today);
      AssignSnoc(ks, vs, i);
      assert ks[i] == k.customer && vs[i] == m;
      if m.Some? {
        metrics := metrics[k.customer := m.value];
      }
    }
    assert ks[..|contracts|] == ks && vs[..|contracts|] == vs;
  }

  /** Without usage no contract has any, so the dictionary is empty. */
  lemma NoUsageNoMetrics(usage: seq<UsageRow>, contracts: seq<ContractRow>, runRateDays: int, today: Date)
    requires |usage| == 0 || |contracts| == 0
    ensures MetricsTable(usage, contracts, runRateDays, today) == map[]
  {
    var ks := CustomersOf(contracts);
    var vs := MetricsOf(usage, contracts, runRateDays, today);
    forall c ensures c !in Assign(ks, vs) {
      AssignKeys(ks, vs, c);
    }
  }

  /** A customer has an entry exactly when one of its contract rows has usage
      inside the contract's dates. */
  lemma MetricsTableKeys(usage: seq<UsageRow>, contracts: seq<ContractRow>, runRateDays: int, today: Date, c: string)
    ensures c in MetricsTable(usage, contracts, runRateDays, today) <==>
      exists i :: 0 <= i < |contracts| && contracts[i].customer == c && HasUsage(usage, contracts[i])
  {
    AssignKeys(CustomersOf(contracts), MetricsOf(usage, contracts, runRateDays, today), c);
  }

  /** The entry of a customer is the metrics of its last contract row that
      has usage: later rows without usage leave it alone. */
  lemma LastWriteWins(usage: seq<UsageRow>, contracts: seq<ContractRow>, runRateDays: int, today: Date, i: nat)
    requires i < |contracts|
    requires HasUsage(usage, contracts[i])
    requires forall j :: i < j < |contracts| && contracts[j].customer == contracts[i].customer ==> !HasUsage(usage, contracts[j])
    ensures var t := MetricsTable(usage, contracts, runRateDays, today);
      contracts[i].customer in t && Some(t[contracts[i].customer]) == MetricsFor(usage, contracts[i], runRateDays, today)
  {
    AssignLast(CustomersOf(contracts), MetricsOf(usage, contracts, runRateDays, today), i);
  }

  /** Every entry of the dictionary is the metrics of one of its customer's
      contract rows, so it keeps that row's bounds: an overage date never
      falls after the contract end, and the overage is the capacity
      exceeded. */
  lemma MetricsTableEntries(usage: seq<UsageRow>, contracts: seq<ContractRow>, runRateDays: int, today: Date, c: string)
    requires c in MetricsTable(usage, contracts, runRateDays, today)
    ensures exists i :: (0 <= i < |contracts| && contracts[i].customer == c &&
      MetricsFor(usage, contracts[i], runRateDays, today) == Some(MetricsTable(usage, contracts, runRateDays, today)[c]))
  {
    AssignValues(CustomersOf(contracts), MetricsOf(usage, contracts, runRateDays, today), c);
  }

  /** The data series of the contract chart: the customer's usage rows by
      date (the dates and daily values of the "Actual" area), their running
      total, the prediction dates with their daily rate and running total,
      and the combined cumulative line. */
  datatype ChartSeries = ChartSeries(
    actual: seq<UsageRow>,
    actualCumulative: seq<real>,
    predictionDates: seq<Date>,
    predictionDaily: seq<real>,
    predictionCumulative: seq<real>,
    allCumulative: seq<real>)

  /** The cumulative sum of the cost column, starting from `acc`. */
  function Running(rows: seq<UsageRow>, acc: real): (r: seq<real>)
    ensures |r| == |rows|
  {
    if |rows| == 0 then []
    else [acc + rows[0].cost] + Running(rows[1..], acc + rows[0].cost)
  }

  /** Entry `i` of the running total is the cost of the first `i + 1` rows. */
  lemma {:induction false} RunningIsPrefixSum(rows: seq<UsageRow>, acc: real)
    ensures forall i :: 0 <= i < |rows| ==> Running(rows, acc)[i] == acc + SumBy(rows[..i + 1], CostOf)
  {
    if |rows| > 0 {
      var tail := rows[1..];
      var acc' := acc + rows[0].cost;
      RunningIsPrefixSum(tail, acc');
      forall i | 0 <= i < |rows| ensures Running(rows, acc)[i] == acc + SumBy(rows[..i + 1], CostOf) {
        assert rows[..i + 1][1..] == tail[..i];
        if i > 0 {
          assert Running(rows, acc)[i] == Running(tail, acc')[i - 1];
          assert tail[..i - 1 + 1] == tail[..i];
        }
      }
    }
  }

  /** The number of days `pd.date_range(today, end)` yields. */
  function DaysThrough(today: Date, end: Date): (n: nat)
    ensures today <= end ==> today + n == end + 1
    ensures today > end ==> n == 0
  {
    if today <= end then end - today + 1 else 0
  }

  /** The data part of `create_contract_usage_chart`; `None` where the chart
      is not drawn: no usage, no entry for the customer, or no positive run
      rate. */
  method ContractChartSeries(usage: seq<UsageRow>, metrics: map<string, ContractMetrics>, customer: string, today: Date)
    returns (r: Option<ChartSeries>)
    ensures r.None? <==> |usage| == 0 || customer !in metrics || metrics[customer].dailyRunRate <= 0.0
    ensures r.Some? ==> IsSeriesOf(r.value, Where(usage, CustomerOf, customer),
      metrics[customer].dailyRunRate, today, metrics[customer].contractEnd)
  {
    if |usage| == 0 || customer !in metrics {
      return None;
    }
    var m := metrics[customer];
    if m.dailyRunRate <= 0.0 {
      return None;
    }
    var s := Series(Where(usage, CustomerOf, customer), m.dailyRunRate, today, m.contractEnd);
    r := Some(s);
  }

  /** `s` charts the usage `rows` under daily `rate` through `end`: the rows
      by date with their running total, then one prediction point a day from
      `today` through `end`, carrying the rate and a running total that
      continues from the total of the rows and grows by the rate each day;
      the combined line is the actual points followed by the predicted ones. */
  predicate IsSeriesOf(s: ChartSeries, rows: seq<UsageRow>, rate: real, today: Date, end: Date) {
    && multiset(s.actual) == multiset(rows) && Ordered(s.actual, DateKey, false)
    && |s.actualCumulative| == |s.actual|
    && (forall i :: 0 <= i < |s.actual| ==> s.actualCumulative[i] == SumBy(s.actual[..i + 1], CostOf))
    && |s.predictionDates| == DaysThrough(today, end)
    && |s.predictionDaily| == |s.predictionDates| && |s.predictionCumulative| == |s.predictionDates|
    && (forall i :: 0 <= i < |s.predictionDates| ==>
      && s.predictionDates[i] == today + i
      && s.predictionDaily[i] == rate
      && s.predictionCumulative[i] == SumBy(rows, CostOf) + rate * (i as real))
    && s.allCumulative == s.actualCumulative + s.predictionCumulative
  }

  /** The series of a customer's usage `rows` under a positive `rate`. */
  method Series(rows: seq<UsageRow>, rate: real, today: Date, end: Date) returns (s: ChartSeries)
    ensures IsSeriesOf(s, rows, rate, today, end)
  {
    var actual := SortBy(rows, DateKey, false);
    var cumulative := Running(actual, 0.0);
    RunningIsPrefixSum(actual, 0.0);
    var current := if |cumulative| > 0 then cumulative[|cumulative| - 1] else 0.0;
    RunningEndsAtTotal(actual, rows);
    var dates, daily, predicted := Prediction(current, rate, today, end);
    s := ChartSeries(actual, cumulative, dates, daily, predicted, cumulative + predicted);
  }

  /** The running total of rows in any order ends at the total of the rows,
      and is 0 when there are none. */
  lemma RunningEndsAtTotal(actual: seq<UsageRow>, rows: seq<UsageRow>)
    requires multiset(actual) == multiset(rows)
    ensures var cumulative := Running(actual, 0.0);
      (if |cumulative| > 0 then cumulative[|cumulative| - 1] else 0.0) == SumBy(rows, CostOf)
  {
    RunningIsPrefixSum(actual, 0.0);
    assert actual[..|actual|] == actual;
    SumByPermutation(actual, rows, CostOf);
  }

  /** The prediction from `today` to `end`: one date a day, the daily run rate
      on each, and a running total that starts at `current` and grows by the
      rate each day. */
  method Prediction(current: real, rate: real, today: Date, end: Date)
    returns (dates: seq<Date>, daily: seq<real>, cumulative: seq<real>)
    ensures |dates| == DaysThrough(today, end) && |daily| == |dates| && |cumulative| == |dates|
    ensures forall i :: 0 <= i < |dates| ==>
      dates[i] == today + i && daily[i] == rate && cumulative[i] == current + rate * (i as real)
  {
    var n := DaysThrough(today, end);
    dates, daily, cumulative := [], [], [];
    for i := 0 to n
      invariant |dates| == i && |daily| == i && |cumulative| == i
      invariant forall j :: 0 <= j < i ==>
        dates[j] == today + j && daily[j] == rate && cumulative[j] == current + rate * (j as real)
    {
      dates := dates + [today + i];
      daily := daily + [rate];
      cumulative := cumulative + [current + rate * (i as real)];
    }
  }

  /** With no negative cost, the combined cumulative line of the chart never
      goes down: the actual running total climbs to the current total, where
      the prediction starts and climbs by the positive daily rate. */
  lemma CumulativeNeverFalls(actual: seq<UsageRow>, actualCumulative: seq<real>, predictionCumulative: seq<real>, rate: real)
    requires forall x :: x in actual ==> x.cost >= 0.0
    requires rate > 0.0
    requires |actualCumulative| == |actual|
    requires forall i :: 0 <= i < |actual| ==> actualCumulative[i] == SumBy(actual[..i + 1], CostOf)
    requires forall i :: 0 <= i < |predictionCumulative| ==>
      predictionCumulative[i] == SumBy(actual, CostOf) + rate * (i as real)
    ensures var all := actualCumulative + predictionCumulative;
      forall i :: 0 <= i < |all| - 1 ==> all[i] <= all[i + 1]
  {
    var all := actualCumulative + predictionCumulative;
    var k := |actual|;
    forall i | 0 <= i < |all| - 1 ensures all[i] <= all[i + 1] {
      if i + 1 < k {
        assert actual[..i + 2] == actual[..i + 1] + [actual[i + 1]];
        SumByAppend(actual[..i + 1], [actual[i + 1]], CostOf);
        assert actual[i + 1] in actual;
      } else if i + 1 == k {
        assert actual[..i + 1] == actual;
      }
    }
  }
}
