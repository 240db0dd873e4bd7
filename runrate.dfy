/**
 * Consumption run rate (`calculate_run_rate_by_customer`,
 * `calculate_overall_run_rate`): the usage of the most recent
 * `run_rate_days` days, divided by the number of days those rows actually
 * span, extrapolated to a week, a 30-day month and, against the current
 * balance, to the day the balance runs out.
 */
module RunRate {
  import opened Wrappers
  import opened Tables
  import opened Records
  import opened Balances

  /** The latest usage date of a non-empty table (`USAGE_DATE.max()`). */
  function MaxDate(rows: seq<UsageRow>): (d: Date)
    requires |rows| > 0
    ensures exists x :: x in rows && x.date == d
    ensures forall x :: x in rows ==> x.date <= d
  {
    if |rows| == 1 then rows[0].date
    else
      var m := MaxDate(rows[1..]);
      assert forall x :: x in rows ==> x == rows[0] || x in rows[1..];
      if rows[0].date >= m then rows[0].date else m
  }

  /** The earliest usage date of a non-empty table (`USAGE_DATE.min()`). */
  function MinDate(rows: seq<UsageRow>): (d: Date)
    requires |rows| > 0
    ensures exists x :: x in rows && x.date == d
    ensures forall x :: x in rows ==> d <= x.date
  {
    if |rows| == 1 then rows[0].date
    else
      var m := MinDate(rows[1..]);
      assert forall x :: x in rows ==> x == rows[0] || x in rows[1..];
      if rows[0].date <= m then rows[0].date else m
  }

  /** The rows dated strictly after `max_date - days`. */
  function InWindow(usage: seq<UsageRow>, days: int): (r: seq<UsageRow>)
    requires |usage| > 0
    ensures forall x :: x in r <==> x in usage && x.date > MaxDate(usage) - days
  {
    Filter(usage, After(MaxDate(usage) - days))
  }

  /** The window keeps each of its rows as many times as the table has it. */
  lemma InWindowCounts(usage: seq<UsageRow>, days: int)
    requires |usage| > 0
    ensures forall x :: multiset(InWindow(usage, days))[x] == if x.date > MaxDate(usage) - days then multiset(usage)[x] else 0
  {
    FilterCountsAll(usage, After(MaxDate(usage) - days));
  }

  /** The mask `USAGE_DATE > cutoff`. */
  function After(cutoff: Date): UsageRow -> bool {
    (x: UsageRow) => x.date > cutoff
  }

  /** The observation window of a run rate: its rows, the first and last
      date they cover and the observed span `actual_days`. */
  datatype Window = Window(rows: seq<UsageRow>, start: Date, end: Date, days: nat)

  /** The recent window of `usage`, `None` when there is nothing to observe. */
  function RecentWindow(usage: seq<UsageRow>, runRateDays: int): (w: Option<Window>)
    ensures w.None? <==> |usage| == 0 || runRateDays <= 0
    ensures w.Some? ==> w.value.rows == InWindow(usage, runRateDays)
    ensures w.Some? ==> forall x :: x in w.value.rows <==> x in usage && x.date > MaxDate(usage) - runRateDays
    ensures w.Some? ==> w.value.end == MaxDate(usage) && w.value.days == w.value.end - w.value.start + 1
    ensures w.Some? ==> 1 <= w.value.days <= runRateDays
    ensures w.Some? ==> forall x :: x in w.value.rows ==> w.value.start <= x.date <= w.value.end
    ensures w.Some? ==> exists x :: x in w.value.rows && x.date == w.value.start
  {
    if |usage| == 0 then None
    else
      var rows := InWindow(usage, runRateDays);
      WindowEmptyIffNoDays(usage, runRateDays);
      if |rows| == 0 then None
      else
        var start := MinDate(rows);
        var end := MaxDate(usage);
        Some(Window(rows, start, end, end - start + 1))
  }

  /** The window is empty exactly when it is asked to cover no day: the
      latest row always falls in a window of one day or more. */
  lemma WindowEmptyIffNoDays(usage: seq<UsageRow>, runRateDays: int)
    requires |usage| > 0
    ensures |InWindow(usage, runRateDays)| == 0 <==> runRateDays <= 0
  {
    var rows := InWindow(usage, runRateDays);
    var latest :| latest in usage && latest.date == MaxDate(usage);
    if |rows| == 0 {
      assert latest !in rows;
    } else {
      assert rows[0] in rows;
    }
  }

  /** How many days `amount` lasts at `rate` a day, when the rate is positive. */
  function Horizon(amount: real, rate: real): (d: Option<real>)
    ensures d.Some? <==> rate > 0.0
    ensures d.Some? ==> d.value * rate == amount
  {
    if rate > 0.0 then Some(amount / rate) else None
  }

  /** Days until the balance is used up at `dailyCost` a day: only a positive
      balance consumed at a positive rate can be projected. */
  function DaysUntilDepletion(balance: real, dailyCost: real): (d: Option<real>)
    ensures d.Some? <==> dailyCost > 0.0 && balance > 0.0
    ensures d.Some? ==> d.value > 0.0 && d.value * dailyCost == balance
  {
    if balance > 0.0 then Horizon(balance, dailyCost) else None
  }

  /** One row of the per-customer run-rate table. */
  datatype CustomerRunRate = CustomerRunRate(
    customer: string,
    totalCredits: real,
    totalCost: real,
    currency: string,
    startDate: Date,
    endDate: Date,
    dailyCredits: real,
    dailyCost: real,
    monthlyCredits: real,
    monthlyCost: real,
    currentBalance: real,
    daysUntilDepletion: Option<real>,
    periodDays: nat)

  function RateCustomerOf(r: CustomerRunRate): string { r.customer }
  function DailyCreditsOf(r: CustomerRunRate): real { r.dailyCredits }
  function DailyCostOf(r: CustomerRunRate): real { r.dailyCost }
  function TotalCreditsOf(r: CustomerRunRate): real { r.totalCredits }
  function TotalCostOf(r: CustomerRunRate): real { r.totalCost }

  /** The CURRENCY cell of the run-rate table as the source fills it: the
      first of the customer's USAGE_IN_CURRENCY amounts, a number. */
  function CurrencyAsWritten(group: seq<UsageRow>): (v: real)
    requires |group| > 0
    ensures exists x :: x in group && x.cost == v
  {
    assert group[0] in group;
    group[0].cost
  }

  /** Two single-row groups billed in the same currency get different
      as-written CURRENCY cells, so the cell does not name a currency. */
  lemma CurrencyAsWrittenIsAnAmount()
    ensures var a := [UsageRow("Acme", "A1", "us", "std", "compute", "capacity", 10, 4.0, 120.0, "USD")];
      var b := [UsageRow("Beta", "B1", "us", "std", "compute", "capacity", 10, 4.0, 80.0, "USD")];
      a[0].currency == b[0].currency && CurrencyAsWritten(a) != CurrencyAsWritten(b)
  {
  }

  /** Every row of `group` is billed in `currency`. */
  predicate BilledIn(group: seq<UsageRow>, currency: string) {
    forall x :: x in group ==> x.currency == currency
  }

  /** The intended CURRENCY cell: the currency code of the customer's first
      usage row in the window, which is the customer's currency whenever
      the customer is billed in one currency. */
  function GroupCurrency(group: seq<UsageRow>): (c: string)
    requires |group| > 0
    ensures forall cur :: BilledIn(group, cur) ==> c == cur
    ensures exists x :: x in group && x.currency == c
  {
    assert group[0] in group;
    group[0].currency
  }

  /** `total` spread evenly over `days` days: the daily rate that, kept up
      for `days` days, consumes exactly `total`. */
  function PerDay(total: real, days: nat): (rate: real)
    requires days >= 1
    ensures rate * (days as real) == total
  {
    total / (days as real)
  }

  /** Spreading a sum over a span is summing the spread parts. */
  lemma {:induction false} SumOfPerDay<T>(s: seq<T>, f: T -> real, g: T -> real, days: nat)
    requires days >= 1
    requires forall x :: x in s ==> g(x) == PerDay(f(x), days)
    ensures SumBy(s, g) == PerDay(SumBy(s, f), days)
  {
    if s != [] {
      assert s[0] in s;
      assert forall x :: x in s[1..] ==> x in s;
      SumOfPerDay(s[1..], f, g, days);
      PerDayAdds(f(s[0]), SumBy(s[1..], f), days);
    }
  }

  lemma PerDayAdds(a: real, b: real, days: nat)
    requires days >= 1
    ensures PerDay(a + b, days) == PerDay(a, days) + PerDay(b, days)
  {
    var d := days as real;
    assert (a + b) / d == a / d + b / d;
  }

  /** The run-rate row of a customer whose window rows are `group`, over a
      span of `days` days, holding `balance`. */
  function GroupRate(customer: string, group: seq<UsageRow>, days: nat, balance: real): (r: CustomerRunRate)
    requires |group| > 0 && days >= 1
    ensures r.customer == customer && r.periodDays == days && r.currentBalance == balance
    ensures r.totalCredits == SumBy(group, CreditsOf) && r.totalCost == SumBy(group, CostOf)
    ensures r.dailyCredits == PerDay(r.totalCredits, days)
    ensures r.dailyCost == PerDay(r.totalCost, days)
    ensures r.monthlyCredits == 30.0 * r.dailyCredits && r.monthlyCost == 30.0 * r.dailyCost
    ensures r.daysUntilDepletion == DaysUntilDepletion(balance, r.dailyCost)
    ensures forall x :: x in group ==> r.startDate <= x.date <= r.endDate
    ensures exists x :: x in group && x.date == r.startDate
    ensures exists x :: x in group && x.date == r.endDate
    ensures forall cur :: BilledIn(group, cur) ==> r.currency == cur
  {
    var credits := SumBy(group, CreditsOf);
    var cost := SumBy(group, CostOf);
    var dailyCredits := PerDay(credits, days);
    var dailyCost := PerDay(cost, days);
    CustomerRunRate(customer, credits, cost, GroupCurrency(group), MinDate(group), MaxDate(group),
      dailyCredits, dailyCost, 30.0 * dailyCredits, 30.0 * dailyCost,
      balance, DaysUntilDepletion(balance, dailyCost), days)
  }

  /** The run-rate row of customer `c` in window `w`: its window rows, the
      window's shared span and its current balance. */
  function CustomerRate(w: Window, balances: seq<BalanceRow>, c: string): (r: CustomerRunRate)
    requires w.days >= 1
    requires |Where(w.rows, CustomerOf, c)| > 0
    ensures r.customer == c && r.periodDays == w.days
    ensures r.totalCredits == SumBy(Where(w.rows, CustomerOf, c), CreditsOf)
    ensures r.totalCost == SumBy(Where(w.rows, CustomerOf, c), CostOf)
    ensures r.dailyCredits == PerDay(r.totalCredits, w.days)
    ensures r.dailyCost == PerDay(r.totalCost, w.days)
    ensures r.monthlyCredits == 30.0 * r.dailyCredits && r.monthlyCost == 30.0 * r.dailyCost
    ensures r.currentBalance == CurrentBalance(balances, c)
    ensures r.daysUntilDepletion == DaysUntilDepletion(r.currentBalance, r.dailyCost)
    ensures forall x :: x in Where(w.rows, CustomerOf, c) ==> r.startDate <= x.date <= r.endDate
    ensures forall cur :: BilledIn(Where(w.rows, CustomerOf, c), cur) ==> r.currency == cur
  {
    GroupRate(c, Where(w.rows, CustomerOf, c), w.days, CurrentBalance(balances, c))
  }

  /** The run-rate rows of the customers in `customers`, in that order. */
  function RatesOf(w: Window, balances: seq<BalanceRow>, customers: seq<string>): (r: seq<CustomerRunRate>)
    requires w.days >= 1
    requires forall c :: c in customers ==> |Where(w.rows, CustomerOf, c)| > 0
    ensures |r| == |customers|
    ensures forall i :: 0 <= i < |r| ==> customers[i] in customers && r[i] == CustomerRate(w, balances, customers[i])
  {
    assert forall i :: 0 <= i < |customers| ==> customers[i] in customers;
    seq(|customers|, i requires 0 <= i < |customers| => CustomerRate(w, balances, customers[i]))
  }

  /** The customers of a run-rate table, row by row. */
  function RateCustomers(r: seq<CustomerRunRate>): (cs: seq<string>)
    ensures |cs| == |r| && forall i :: 0 <= i < |r| ==> cs[i] == r[i].customer
  {
    seq(|r|, i requires 0 <= i < |r| => r[i].customer)
  }

  /** The rows of window `w`'s customers, in non-increasing order of daily credits. */
  function RankedRates(w: Window, balances: seq<BalanceRow>): (r: seq<CustomerRunRate>)
    requires w.days >= 1
    ensures |r| == |Keys(w.rows, CustomerOf)|
    ensures Ordered(r, DailyCreditsOf, true)
    ensures DistinctBy(r, RateCustomerOf)
    ensures forall c :: c in Keys(w.rows, CustomerOf) <==> c in RateCustomers(r)
    ensures forall i :: 0 <= i < |r| ==> IsRateOf(w, balances, r[i])
  {
    var customers := Keys(w.rows, CustomerOf);
    KeysHaveGroups(w.rows, customers);
    var unsorted := RatesOf(w, balances, customers);
    var r := SortBy(unsorted, DailyCreditsOf, true);
    DistinctByPermutation(unsorted, r, RateCustomerOf);
    SameMembers(unsorted, r);
    RatesCoverCustomers(customers, unsorted, r);
    ReorderedRatesAreRates(w, balances, customers, unsorted, r);
    r
  }

  /** Every row of a reordering of `RatesOf(w, balances, customers)` is the
      run-rate row of its own customer. */
  lemma ReorderedRatesAreRates(w: Window, balances: seq<BalanceRow>, customers: seq<string>,
                               unsorted: seq<CustomerRunRate>, r: seq<CustomerRunRate>)
    requires w.days >= 1
    requires customers == Keys(w.rows, CustomerOf)
    requires forall c :: c in customers ==> |Where(w.rows, CustomerOf, c)| > 0
    requires unsorted == RatesOf(w, balances, customers)
    requires forall y :: y in unsorted <==> y in r
    ensures forall i :: 0 <= i < |r| ==> IsRateOf(w, balances, r[i])
  {
    RatesAreRates(w, balances, customers);
    forall i | 0 <= i < |r| ensures IsRateOf(w, balances, r[i]) {
      assert r[i] in unsorted;
    }
  }

  /** Every row of `RatesOf(w, balances, customers)` is the run-rate row of
      its own customer. */
  lemma RatesAreRates(w: Window, balances: seq<BalanceRow>, customers: seq<string>)
    requires w.days >= 1
    requires customers == Keys(w.rows, CustomerOf)
    requires forall c :: c in customers ==> |Where(w.rows, CustomerOf, c)| > 0
    ensures forall y :: y in RatesOf(w, balances, customers) ==> IsRateOf(w, balances, y)
  {
    var unsorted := RatesOf(w, balances, customers);
    forall y | y in unsorted ensures IsRateOf(w, balances, y) {
      var k :| 0 <= k < |unsorted| && unsorted[k] == y;
      assert y == CustomerRate(w, balances, customers[k]);
    }
  }

  /** `x` is the run-rate row of its own customer, a customer of window `w`. */
  predicate IsRateOf(w: Window, balances: seq<BalanceRow>, x: CustomerRunRate)
    requires w.days >= 1
  {
    && x.customer in Keys(w.rows, CustomerOf)
    && |Where(w.rows, CustomerOf, x.customer)| > 0
    && x == CustomerRate(w, balances, x.customer)
  }

  /** Every customer of the window has usage rows in it. */
  lemma KeysHaveGroups(rows: seq<UsageRow>, customers: seq<string>)
    requires customers == Keys(rows, CustomerOf)
    ensures forall c :: c in customers ==> |Where(rows, CustomerOf, c)| > 0
  {
    forall c | c in customers ensures |Where(rows, CustomerOf, c)| > 0 {
      KeyGroupNonEmpty(rows, CustomerOf, c);
    }
  }

  /** Reordering the rows of one customer each keeps the set of customers. */
  lemma RatesCoverCustomers(customers: seq<string>, unsorted: seq<CustomerRunRate>, r: seq<CustomerRunRate>)
    requires |unsorted| == |customers|
    requires forall i :: 0 <= i < |unsorted| ==> unsorted[i].customer == customers[i]
    requires forall y :: y in unsorted <==> y in r
    ensures forall c :: c in customers <==> c in RateCustomers(r)
  {
    var cs := RateCustomers(r);
    forall c ensures c in customers <==> c in cs {
      if c in customers {
        var k :| 0 <= k < |customers| && customers[k] == c;
        assert unsorted[k] in unsorted;
        var i :| 0 <= i < |r| && r[i] == unsorted[k];
        assert cs[i] == c;
      }
      if c in cs {
        var i :| 0 <= i < |cs| && cs[i] == c;
        assert r[i] in r;
        var k :| 0 <= k < |unsorted| && unsorted[k] == r[i];
        assert customers[k] == c;
      }
    }
  }

  /** `calculate_run_rate_by_customer`: one row per customer with usage in the
      recent window, in non-increasing order of daily credits; empty when
      there is no usage. */
  function RunRateByCustomer(usage: seq<UsageRow>, balances: seq<BalanceRow>, runRateDays: int): (r: seq<CustomerRunRate>)
    ensures |usage| == 0 || runRateDays <= 0 ==> r == []
    ensures Ordered(r, DailyCreditsOf, true)
    ensures DistinctBy(r, RateCustomerOf)
    ensures RecentWindow(usage, runRateDays).Some? ==> r == RankedRates(RecentWindow(usage, runRateDays).value, balances)
  {
    match RecentWindow(usage, runRateDays)
    case None => []
    case Some(w) => RankedRates(w, balances)
  }

  /** The balance part of the overall run rate: the summed TOTAL_BALANCE of
      every customer's latest balance row and the days until it is used up. */
  datatype BalanceProjection = BalanceProjection(totalBalance: real, daysUntilDepletion: Option<real>)

  /** The balance projection of the overall run rate, absent without a
      balance table. Unlike the per-customer table, the horizon is projected
      whenever the daily cost is positive, whatever the sign of the balance. */
  function ProjectBalance(balances: seq<BalanceRow>, dailyCost: real): (p: Option<BalanceProjection>)
    ensures p.None? <==> |balances| == 0
    ensures p.Some? ==> p.value.totalBalance == TotalLatestBalance(balances)
    ensures p.Some? ==> (p.value.daysUntilDepletion.Some? <==> dailyCost > 0.0)
    ensures p.Some? && p.value.daysUntilDepletion.Some? ==>
      p.value.daysUntilDepletion.value * dailyCost == p.value.totalBalance
  {
    if |balances| == 0 then None
    else
      var total := TotalLatestBalance(balances);
      Some(BalanceProjection(total, Horizon(total, dailyCost)))
  }

  /** The overall run-rate dict. */
  datatype OverallRunRate = OverallRunRate(
    dailyCredits: real,
    dailyCost: real,
    weeklyCredits: real,
    weeklyCost: real,
    monthlyCredits: real,
    monthlyCost: real,
    periodDays: nat,
    periodStart: Date,
    periodEnd: Date,
    balance: Option<BalanceProjection>)

  /** The overall rate of window `w`. */
  function WindowRate(w: Window, balances: seq<BalanceRow>): (o: OverallRunRate)
    requires w.days >= 1
    ensures o.dailyCredits == PerDay(SumBy(w.rows, CreditsOf), w.days)
    ensures o.dailyCost == PerDay(SumBy(w.rows, CostOf), w.days)
    ensures o.periodDays == w.days && o.periodStart == w.start && o.periodEnd == w.end
    ensures o.weeklyCredits == 7.0 * o.dailyCredits && o.weeklyCost == 7.0 * o.dailyCost
    ensures o.monthlyCredits == 30.0 * o.dailyCredits && o.monthlyCost == 30.0 * o.dailyCost
    ensures o.balance == ProjectBalance(balances, o.dailyCost)
  {
    var dailyCredits := PerDay(SumBy(w.rows, CreditsOf), w.days);
    var dailyCost := PerDay(SumBy(w.rows, CostOf), w.days);
    OverallRunRate(dailyCredits, dailyCost, 7.0 * dailyCredits, 7.0 * dailyCost,
      30.0 * dailyCredits, 30.0 * dailyCost, w.days, w.start, w.end,
      ProjectBalance(balances, dailyCost))
  }

  /** `calculate_overall_run_rate`: `None` is the empty dict, returned when
      there is no usage (or no day to observe); otherwise the rate of the
      recent window. */
  function OverallRunRateOf(usage: seq<UsageRow>, balances: seq<BalanceRow>, runRateDays: int): (r: Option<OverallRunRate>)
    ensures r.None? <==> |usage| == 0 || runRateDays <= 0
    ensures r.Some? ==> r.value == WindowRate(RecentWindow(usage, runRateDays).value, balances)
  {
    match RecentWindow(usage, runRateDays)
    case None => None
    case Some(w) => Some(WindowRate(w, balances))
  }

  /** The per-customer rates add up to the overall rate: every customer is
      divided by the one shared span, so grouping by customer only splits the
      window's consumption. */
  lemma CustomerRatesAddUpToOverall(usage: seq<UsageRow>, balances: seq<BalanceRow>, runRateDays: int)
    requires |usage| > 0 && runRateDays > 0
    ensures SumBy(RunRateByCustomer(usage, balances, runRateDays), DailyCreditsOf)
      == OverallRunRateOf(usage, balances, runRateDays).value.dailyCredits
    ensures SumBy(RunRateByCustomer(usage, balances, runRateDays), DailyCostOf)
      == OverallRunRateOf(usage, balances, runRateDays).value.dailyCost
  {
    var w := RecentWindow(usage, runRateDays).value;
    WindowRatesAddUp(w, balances);
  }

  lemma WindowRatesAddUp(w: Window, balances: seq<BalanceRow>)
    requires w.days >= 1
    ensures SumBy(RankedRates(w, balances), DailyCreditsOf) == WindowRate(w, balances).dailyCredits
    ensures SumBy(RankedRates(w, balances), DailyCostOf) == WindowRate(w, balances).dailyCost
  {
    var customers := Keys(w.rows, CustomerOf);
    KeysHaveGroups(w.rows, customers);
    var unsorted := RatesOf(w, balances, customers);
    var r := RankedRates(w, balances);
    assert r == SortBy(unsorted, DailyCreditsOf, true);
    SumByPermutation(r, unsorted, DailyCreditsOf);
    SumByPermutation(r, unsorted, DailyCostOf);
    UnsortedRatesAddUp(w, balances, customers);
  }

  lemma UnsortedRatesAddUp(w: Window, balances: seq<BalanceRow>, customers: seq<string>)
    requires w.days >= 1
    requires customers == Keys(w.rows, CustomerOf)
    requires forall c :: c in customers ==> |Where(w.rows, CustomerOf, c)| > 0
    ensures SumBy(RatesOf(w, balances, customers), DailyCreditsOf) == PerDay(SumBy(w.rows, CreditsOf), w.days)
    ensures SumBy(RatesOf(w, balances, customers), DailyCostOf) == PerDay(SumBy(w.rows, CostOf), w.days)
  {
    RatesAddUp(w, balances, customers, CreditsOf, TotalCreditsOf, DailyCreditsOf);
    RatesAddUp(w, balances, customers, CostOf, TotalCostOf, DailyCostOf);
  }

  /** One measure of the run-rate rows, spread per day, adds up to the same
      measure of the whole window spread per day. */
  lemma RatesAddUp(w: Window, balances: seq<BalanceRow>, customers: seq<string>,
                   f: UsageRow -> real, total: CustomerRunRate -> real, daily: CustomerRunRate -> real)
    requires w.days >= 1
    requires customers == Keys(w.rows, CustomerOf)
    requires forall c :: c in customers ==> |Where(w.rows, CustomerOf, c)| > 0
    requires forall c :: c in customers ==>
      && total(CustomerRate(w, balances, c)) == SumBy(Where(w.rows, CustomerOf, c), f)
      && daily(CustomerRate(w, balances, c)) == PerDay(total(CustomerRate(w, balances, c)), w.days)
    ensures SumBy(RatesOf(w, balances, customers), daily) == PerDay(SumBy(w.rows, f), w.days)
  {
    var unsorted := RatesOf(w, balances, customers);
    forall x | x in unsorted ensures daily(x) == PerDay(total(x), w.days) {
      var k :| 0 <= k < |unsorted| && unsorted[k] == x;
    }
    SumOfPerDay(unsorted, total, daily, w.days);
    var groups := Groups(w.rows, CustomerOf, f, customers);
    forall i | 0 <= i < |unsorted| ensures total(unsorted[i]) == TotalOf(groups[i]) {
    }
    SumByPointwise(unsorted, total, groups, TotalOf);
    GroupsPartition(w.rows, CustomerOf, f);
  }

  /** Customer `c` has a usage row dated `d` in `rows`. */
  predicate HasRowOn(rows: seq<UsageRow>, c: string, d: Date) {
    exists x :: x in rows && x.customer == c && x.date == d
  }

  /** The days `lo + 1 .. lo + n`. */
  function DayRange(lo: Date, n: nat): (days: set<Date>)
    ensures forall d :: d in days <==> lo < d <= lo + n
    ensures |days| == n
  {
    if n == 0 then {}
    else
      var rest := DayRange(lo, n - 1);
      assert lo + n !in rest;
      rest + {lo + n}
  }

  /** The days on which `rows` has usage. */
  function DaysOf(rows: seq<UsageRow>): (days: set<Date>)
    ensures forall d :: d in days <==> exists x :: x in rows && x.date == d
  {
    if rows == [] then {}
    else
      assert forall x :: x in rows <==> x == rows[0] || x in rows[1..];
      {rows[0].date} + DaysOf(rows[1..])
  }

  /** Rows on distinct days are as many as their days. */
  lemma {:induction false} DistinctDaysCount(rows: seq<UsageRow>)
    requires DistinctBy(rows, DateOf)
    ensures |DaysOf(rows)| == |rows|
  {
    if rows != [] {
      assert DistinctBy(rows[1..], DateOf) by {
        forall i, j | 0 <= i < j < |rows[1..]| ensures DateOf(rows[1..][i]) != DateOf(rows[1..][j]) {
          assert rows[1..][i] == rows[i + 1] && rows[1..][j] == rows[j + 1];
        }
      }
      DistinctDaysCount(rows[1..]);
      assert rows[0].date !in DaysOf(rows[1..]);
    }
  }

  /** One row a day, on every day of an `n`-day span and on no other day,
      makes `n` rows. */
  lemma OneRowPerDay(rows: seq<UsageRow>, c: string, lo: Date, n: nat)
    requires DistinctBy(rows, DateOf)
    requires forall x :: x in rows ==> x.customer == c && lo < x.date <= lo + n
    requires forall d :: lo < d <= lo + n ==> HasRowOn(rows, c, d)
    ensures |rows| == n
  {
    DistinctDaysCount(rows);
    forall d ensures d in DaysOf(rows) <==> d in DayRange(lo, n) {
      if lo < d <= lo + n {
        assert HasRowOn(rows, c, d);
      }
    }
    assert DaysOf(rows) == DayRange(lo, n);
  }

  /** A window whose first day has usage spans the whole `runRateDays`. */
  lemma FullSpan(usage: seq<UsageRow>, runRateDays: int, c: string)
    requires |usage| > 0 && runRateDays >= 1
    requires HasRowOn(usage, c, MaxDate(usage) - runRateDays + 1)
    ensures RecentWindow(usage, runRateDays).value.days == runRateDays
  {
    var w := RecentWindow(usage, runRateDays).value;
    var first :| first in usage && first.customer == c && first.date == MaxDate(usage) - runRateDays + 1;
    assert first in w.rows;
  }

  /** A customer with at most one row a day keeps that in any window. */
  lemma WindowGroupDistinct(usage: seq<UsageRow>, days: int, c: string)
    requires |usage| > 0
    requires DistinctBy(Where(usage, CustomerOf, c), DateOf)
    ensures DistinctBy(Where(InWindow(usage, days), CustomerOf, c), DateOf)
  {
    MaskedGroupDistinct(usage, After(MaxDate(usage) - days), CustomerOf, c, DateOf);
  }

  /** With one row a day for customer `c`, its window rows number the days. */
  lemma CustomerRowsFillSpan(usage: seq<UsageRow>, runRateDays: int, c: string)
    requires |usage| > 0 && runRateDays >= 1
    requires DistinctBy(Where(usage, CustomerOf, c), DateOf)
    requires forall d :: MaxDate(usage) - runRateDays < d <= MaxDate(usage) ==> HasRowOn(usage, c, d)
    ensures |Where(RecentWindow(usage, runRateDays).value.rows, CustomerOf, c)| == runRateDays
  {
    var w := RecentWindow(usage, runRateDays).value;
    var g := Where(w.rows, CustomerOf, c);
    WindowGroupDistinct(usage, runRateDays, c);
    WindowKeepsDays(usage, runRateDays, c);
    OneRowPerDay(g, c, MaxDate(usage) - runRateDays, runRateDays);
  }

  /** A day of the window on which the customer has usage still has that
      usage among the customer's window rows. */
  lemma WindowKeepsDays(usage: seq<UsageRow>, runRateDays: int, c: string)
    requires |usage| > 0 && runRateDays >= 1
    requires forall d :: MaxDate(usage) - runRateDays < d <= MaxDate(usage) ==> HasRowOn(usage, c, d)
    ensures forall d :: MaxDate(usage) - runRateDays < d <= MaxDate(usage) ==>
      HasRowOn(Where(RecentWindow(usage, runRateDays).value.rows, CustomerOf, c), c, d)
  {
    var rows := InWindow(usage, runRateDays);
    assert RecentWindow(usage, runRateDays).value.rows == rows;
    var g := Where(rows, CustomerOf, c);
    forall d | MaxDate(usage) - runRateDays < d <= MaxDate(usage) ensures HasRowOn(g, c, d) {
      assert HasRowOn(usage, c, d);
      var x :| x in usage && x.customer == c && x.date == d;
      assert x in rows;
      assert x in g;
    }
  }

  /** A customer billed the same `cost` on each of the last `runRateDays`
      days, once a day, has exactly that daily run-rate cost, and thirty
      times it as its monthly projection. */
  lemma ConstantDailyCost(usage: seq<UsageRow>, balances: seq<BalanceRow>, runRateDays: int, c: string, cost: real)
    requires |usage| > 0 && runRateDays >= 1
    requires DistinctBy(Where(usage, CustomerOf, c), DateOf)
    requires forall d :: MaxDate(usage) - runRateDays < d <= MaxDate(usage) ==> HasRowOn(usage, c, d)
    requires forall x :: x in usage && x.customer == c && x.date > MaxDate(usage) - runRateDays ==> x.cost == cost
    ensures var r := RunRateByCustomer(usage, balances, runRateDays);
      && (exists i :: 0 <= i < |r| && r[i].customer == c)
      && forall i :: 0 <= i < |r| && r[i].customer == c ==> r[i].dailyCost == cost && r[i].monthlyCost == 30.0 * cost
  {
    var w := RecentWindow(usage, runRateDays).value;
    ConstantCustomerRate(usage, balances, runRateDays, c, cost);
    RankedRateOf(w, balances, c, cost);
    assert RunRateByCustomer(usage, balances, runRateDays) == RankedRates(w, balances);
  }

  /** The ranked table has a row for every customer of the window, and that
      row carries the customer's own daily and monthly cost. */
  lemma RankedRateOf(w: Window, balances: seq<BalanceRow>, c: string, cost: real)
    requires w.days >= 1
    requires |Where(w.rows, CustomerOf, c)| > 0
    requires CustomerRate(w, balances, c).dailyCost == cost
    ensures var r := RankedRates(w, balances);
      && (exists i :: 0 <= i < |r| && r[i].customer == c)
      && forall i :: 0 <= i < |r| && r[i].customer == c ==> r[i].dailyCost == cost && r[i].monthlyCost == 30.0 * cost
  {
    RankedHasCustomer(w, balances, c);
    RankedRowIsRate(w, balances, c);
  }

  lemma RankedHasCustomer(w: Window, balances: seq<BalanceRow>, c: string)
    requires w.days >= 1
    requires |Where(w.rows, CustomerOf, c)| > 0
    ensures var r := RankedRates(w, balances); exists i :: 0 <= i < |r| && r[i].customer == c
  {
    var r := RankedRates(w, balances);
    var g := Where(w.rows, CustomerOf, c);
    assert g[0] in g;
    assert c in Keys(w.rows, CustomerOf);
    assert c in RateCustomers(r);
  }

  lemma RankedRowIsRate(w: Window, balances: seq<BalanceRow>, c: string)
    requires w.days >= 1
    requires |Where(w.rows, CustomerOf, c)| > 0
    ensures var r := RankedRates(w, balances);
      forall i :: 0 <= i < |r| && r[i].customer == c ==> r[i] == CustomerRate(w, balances, c)
  {
    var r := RankedRates(w, balances);
    forall i | 0 <= i < |r| && r[i].customer == c
      ensures r[i] == CustomerRate(w, balances, c)
    {
      assert IsRateOf(w, balances, r[i]);
    }
  }

  lemma ConstantCustomerRate(usage: seq<UsageRow>, balances: seq<BalanceRow>, runRateDays: int, c: string, cost: real)
    requires |usage| > 0 && runRateDays >= 1
    requires DistinctBy(Where(usage, CustomerOf, c), DateOf)
    requires forall d :: MaxDate(usage) - runRateDays < d <= MaxDate(usage) ==> HasRowOn(usage, c, d)
    requires forall x :: x in usage && x.customer == c && x.date > MaxDate(usage) - runRateDays ==> x.cost == cost
    ensures |Where(RecentWindow(usage, runRateDays).value.rows, CustomerOf, c)| == runRateDays
    ensures CustomerRate(RecentWindow(usage, runRateDays).value, balances, c).dailyCost == cost
  {
    WindowFilled(usage, runRateDays, c);
    WindowGroupCost(usage, runRateDays, c, cost);
    ConstantWindowRate(RecentWindow(usage, runRateDays).value, balances, c, cost);
  }

  /** A customer with usage on every day of the last `runRateDays` days,
      once a day, fills a window of exactly that many days with that many rows. */
  lemma WindowFilled(usage: seq<UsageRow>, runRateDays: int, c: string)
    requires |usage| > 0 && runRateDays >= 1
    requires DistinctBy(Where(usage, CustomerOf, c), DateOf)
    requires forall d :: MaxDate(usage) - runRateDays < d <= MaxDate(usage) ==> HasRowOn(usage, c, d)
    ensures RecentWindow(usage, runRateDays).value.days == runRateDays
    ensures |Where(RecentWindow(usage, runRateDays).value.rows, CustomerOf, c)| == runRateDays
  {
    assert HasRowOn(usage, c, MaxDate(usage) - runRateDays + 1);
    FullSpan(usage, runRateDays, c);
    CustomerRowsFillSpan(usage, runRateDays, c);
  }

  /** A customer with one row a day over the whole window, each costing
      `cost`, is run at `cost` a day. */
  lemma ConstantWindowRate(w: Window, balances: seq<BalanceRow>, c: string, cost: real)
    requires w.days >= 1
    requires |Where(w.rows, CustomerOf, c)| == w.days
    requires forall x :: x in Where(w.rows, CustomerOf, c) ==> CostOf(x) == cost
    ensures CustomerRate(w, balances, c).dailyCost == cost
  {
    ConstantGroupRate(Where(w.rows, CustomerOf, c), w.days, cost);
  }

  lemma WindowGroupCost(usage: seq<UsageRow>, runRateDays: int, c: string, cost: real)
    requires |usage| > 0 && runRateDays >= 1
    requires forall x :: x in usage && x.customer == c && x.date > MaxDate(usage) - runRateDays ==> x.cost == cost
    ensures forall x :: x in Where(RecentWindow(usage, runRateDays).value.rows, CustomerOf, c) ==> CostOf(x) == cost
  {
  }

  /** `n` rows costing `cost` each, spread over `n` days, cost `cost` a day. */
  lemma ConstantGroupRate(g: seq<UsageRow>, n: nat, cost: real)
    requires |g| == n >= 1
    requires forall x :: x in g ==> CostOf(x) == cost
    ensures PerDay(SumBy(g, CostOf), n) == cost
  {
    SumOfConstant(g, CostOf, cost);
    var rate := PerDay(SumBy(g, CostOf), n);
    Cancel(rate, cost, n as real);
  }

  /** A positive factor cancels from both sides of an equation. */
  lemma Cancel(a: real, b: real, k: real)
    requires k > 0.0 && a * k == b * k
    ensures a == b
  {
    assert (a - b) * k == 0.0;
  }
}
