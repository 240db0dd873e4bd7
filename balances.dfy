/**
 * The latest balance of each customer and the balance summary
 * (`get_balance_summary`). "Latest" is pandas' `groupby(customer)[date].idxmax()`:
 * of a customer's rows, the one with the greatest BALANCE_DATE, the first one
 * in table order when several share that date.
 */
module Balances {
  import opened Wrappers
  import opened Tables
  import opened Records

  /** The first row of `rows` with the greatest date. */
  function LatestRow(rows: seq<BalanceRow>): (b: BalanceRow)
    requires |rows| > 0
    ensures b in rows
    ensures forall x :: x in rows ==> x.date <= b.date
    ensures exists i :: 0 <= i < |rows| && rows[i] == b && forall j :: 0 <= j < i ==> rows[j].date < b.date
  {
    if |rows| == 1 then rows[0]
    else
      var b := LatestRow(rows[1..]);
      assert forall x :: x in rows ==> x == rows[0] || x in rows[1..];
      if b.date > rows[0].date then
        var i :| 0 <= i < |rows[1..]| && rows[1..][i] == b && forall j :: 0 <= j < i ==> rows[1..][j].date < b.date;
        FirstLatestInTail(rows, b, i);
        b
      else
        rows[0]
  }

  /** The first latest row of the tail, later than the head, is the first
      latest row of the whole table. */
  lemma FirstLatestInTail(rows: seq<BalanceRow>, b: BalanceRow, i: nat)
    requires 0 <= i < |rows| - 1 && rows[1..][i] == b && rows[0].date < b.date
    requires forall j :: 0 <= j < i ==> rows[1..][j].date < b.date
    ensures rows[i + 1] == b && forall j :: 0 <= j < i + 1 ==> rows[j].date < b.date
  {
    assert forall j :: 1 <= j < i + 1 ==> rows[j] == rows[1..][j - 1];
  }

  /** The latest balance row of `customer`, if the table has one: of its
      rows with the greatest date, the first in table order. */
  function LatestFor(rows: seq<BalanceRow>, customer: string): (r: Option<BalanceRow>)
    ensures r.None? <==> forall x :: x in rows ==> x.customer != customer
    ensures r.Some? ==> r.value in rows && r.value.customer == customer
    ensures r.Some? ==> forall x :: x in rows && x.customer == customer ==> x.date <= r.value.date
    ensures r.Some? ==> exists i :: FirstLatestAt(rows, customer, i, r.value)
  {
    var group := Where(rows, BalanceCustomerOf, customer);
    if group == [] then None
    else
      FirstLatestOfCustomer(rows, customer);
      Some(LatestRow(group))
  }

  /** The latest row of a customer's group is, in the whole table, preceded
      by no row of that customer with the same or a later date. */
  lemma {:induction false} FirstLatestOfCustomer(rows: seq<BalanceRow>, c: string)
    requires Where(rows, BalanceCustomerOf, c) != []
    ensures exists i :: FirstLatestAt(rows, c, i, LatestRow(Where(rows, BalanceCustomerOf, c)))
  {
    var g := Where(rows, BalanceCustomerOf, c);
    var b := LatestRow(g);
    var tail := Where(rows[1..], BalanceCustomerOf, c);
    WhereCons(rows, c);
    if rows[0].customer != c {
      assert g == tail;
      FirstLatestOfCustomer(rows[1..], c);
      FirstLatestFromTail(rows, c, b);
    } else if tail == [] {
      assert g == [rows[0]];
      FirstLatestAtHead(rows, c, b);
    } else {
      LatestOfCons(rows[0], tail);
      if LatestRow(tail).date > rows[0].date {
        FirstLatestOfCustomer(rows[1..], c);
        FirstLatestFromTail(rows, c, b);
      } else {
        FirstLatestAtHead(rows, c, b);
      }
    }
  }

  /** A customer's group of a non-empty table: its head row, if it is the
      customer's, then the group of the tail. */
  lemma WhereCons(rows: seq<BalanceRow>, c: string)
    requires |rows| > 0
    ensures Where(rows, BalanceCustomerOf, c)
         == (if rows[0].customer == c then [rows[0]] else []) + Where(rows[1..], BalanceCustomerOf, c)
  {
  }

  /** The latest row of a table with at least two rows. */
  lemma LatestOfCons(x: BalanceRow, tail: seq<BalanceRow>)
    requires |tail| > 0
    ensures LatestRow([x] + tail) == if LatestRow(tail).date > x.date then LatestRow(tail) else x
  {
    assert ([x] + tail)[1..] == tail;
  }

  lemma FirstLatestAtHead(rows: seq<BalanceRow>, c: string, b: BalanceRow)
    requires |rows| > 0 && rows[0] == b
    ensures exists i :: FirstLatestAt(rows, c, i, b)
  {
    assert FirstLatestAt(rows, c, 0, b);
  }

  /** The witness found in the tail, shifted by the head row. */
  lemma FirstLatestFromTail(rows: seq<BalanceRow>, c: string, b: BalanceRow)
    requires |rows| > 0
    requires rows[0].customer == c ==> rows[0].date < b.date
    requires exists i :: FirstLatestAt(rows[1..], c, i, b)
    ensures exists i :: FirstLatestAt(rows, c, i, b)
  {
    var i :| FirstLatestAt(rows[1..], c, i, b);
    assert forall j :: 1 <= j < i + 1 ==> rows[j] == rows[1..][j - 1];
    assert FirstLatestAt(rows, c, i + 1, b);
  }

  /** `rows[i]` is `b`, and no earlier row of customer `c` is dated as late. */
  predicate FirstLatestAt(rows: seq<BalanceRow>, c: string, i: int, b: BalanceRow) {
    && 0 <= i < |rows|
    && rows[i] == b
    && forall j :: 0 <= j < i && rows[j].customer == c ==> rows[j].date < b.date
  }

  /** One row per customer: each customer's latest balance. */
  function LatestPerCustomer(rows: seq<BalanceRow>): (r: seq<BalanceRow>)
    ensures |r| == |Keys(rows, BalanceCustomerOf)| <= |rows|
    ensures DistinctBy(r, BalanceCustomerOf)
    ensures forall i :: 0 <= i < |r| ==> r[i].customer == Keys(rows, BalanceCustomerOf)[i]
    ensures forall i :: 0 <= i < |r| ==> LatestFor(rows, r[i].customer) == Some(r[i])
  {
    LatestOf(rows, Keys(rows, BalanceCustomerOf))
  }

  /** The latest row of each of `customers`, in that order. */
  function LatestOf(rows: seq<BalanceRow>, customers: seq<string>): (r: seq<BalanceRow>)
    requires forall c :: c in customers ==> exists x :: x in rows && x.customer == c
    requires Distinct(customers)
    ensures |r| == |customers|
    ensures forall i :: 0 <= i < |r| ==> r[i].customer == customers[i] && LatestFor(rows, customers[i]) == Some(r[i])
    ensures DistinctBy(r, BalanceCustomerOf)
  {
    assert forall i :: 0 <= i < |customers| ==> LatestFor(rows, customers[i]).Some? by {
      forall i | 0 <= i < |customers| ensures LatestFor(rows, customers[i]).Some? {
        assert customers[i] in customers;
      }
    }
    seq(|customers|, i requires 0 <= i < |customers| => LatestFor(rows, customers[i]).value)
  }

  /** The CURRENT_BALANCE of a customer: the TOTAL_BALANCE of its latest row,
      0 when the balance table has no row for it. */
  function CurrentBalance(rows: seq<BalanceRow>, customer: string): real {
    match LatestFor(rows, customer)
    case None => 0.0
    case Some(b) => b.total
  }

  function FreeOf(b: BalanceRow): real { b.free }
  function CapacityOf(b: BalanceRow): real { b.capacity }
  function RolloverOf(b: BalanceRow): real { b.rollover }
  function OnDemandOf(b: BalanceRow): real { b.onDemand }
  function TotalBalanceOf(b: BalanceRow): real { b.total }
  predicate HasBalance(b: BalanceRow) { b.total > 0.0 }
  predicate IsOnDemand(b: BalanceRow) { b.onDemand < 0.0 }

  datatype BalanceSummary = BalanceSummary(
    totalFreeUsage: real,
    totalCapacity: real,
    totalRollover: real,
    totalOnDemand: real,
    customersWithBalance: nat,
    customersOnDemand: nat)

  /** `get_balance_summary`: `None` is the empty dict returned for an empty
      table; otherwise, over the customers of the table, each total is the
      sum of that measure in every customer's latest row, and the two counts
      are the customers whose latest TOTAL_BALANCE is positive and whose
      latest ON_DEMAND_CONSUMPTION_BALANCE is negative. */
  function GetBalanceSummary(rows: seq<BalanceRow>): (r: Option<BalanceSummary>)
    ensures r.None? <==> |rows| == 0
    ensures r.Some? ==> var ks := Keys(rows, BalanceCustomerOf);
      && r.value.totalFreeUsage == SumBy(ks, LatestMeasure(rows, FreeOf))
      && r.value.totalCapacity == SumBy(ks, LatestMeasure(rows, CapacityOf))
      && r.value.totalRollover == SumBy(ks, LatestMeasure(rows, RolloverOf))
      && r.value.totalOnDemand == SumBy(ks, LatestMeasure(rows, OnDemandOf))
    ensures r.Some? ==> var ks := Keys(rows, BalanceCustomerOf);
      && r.value.customersWithBalance == CountLatest(rows, ks, HasBalance) <= |ks|
      && r.value.customersOnDemand == CountLatest(rows, ks, IsOnDemand) <= |ks|
  {
    if |rows| == 0 then None
    else
      var latest := LatestPerCustomer(rows);
      var ks := Keys(rows, BalanceCustomerOf);
      LatestSums(rows, ks, latest, FreeOf);
      LatestSums(rows, ks, latest, CapacityOf);
      LatestSums(rows, ks, latest, RolloverOf);
      LatestSums(rows, ks, latest, OnDemandOf);
      LatestCounts(rows, ks, latest, HasBalance);
      LatestCounts(rows, ks, latest, IsOnDemand);
      Some(BalanceSummary(
        SumBy(latest, FreeOf),
        SumBy(latest, CapacityOf),
        SumBy(latest, RolloverOf),
        SumBy(latest, OnDemandOf),
        |Filter(latest, HasBalance)|,
        |Filter(latest, IsOnDemand)|))
  }

  /** Measure `f` of a customer's latest balance row, 0 when it has none. */
  function LatestMeasure(rows: seq<BalanceRow>, f: BalanceRow -> real): string -> real {
    c => match LatestFor(rows, c) case None => 0.0 case Some(b) => f(b)
  }

  /** How many of `customers` have a latest balance row satisfying `p`. */
  function CountLatest(rows: seq<BalanceRow>, customers: seq<string>, p: BalanceRow -> bool): (n: nat)
    ensures n <= |customers|
  {
    if customers == [] then 0
    else
      var latest := LatestFor(rows, customers[0]);
      (if latest.Some? && p(latest.value) then 1 else 0) + CountLatest(rows, customers[1..], p)
  }

  /** Summing a measure over the latest rows of `customers` is summing the
      latest measure customer by customer. */
  lemma {:induction false} LatestSums(rows: seq<BalanceRow>, customers: seq<string>, latest: seq<BalanceRow>, f: BalanceRow -> real)
    requires |latest| == |customers|
    requires forall i :: 0 <= i < |latest| ==> LatestFor(rows, customers[i]) == Some(latest[i])
    ensures SumBy(latest, f) == SumBy(customers, LatestMeasure(rows, f))
  {
    forall i | 0 <= i < |latest| ensures f(latest[i]) == LatestMeasure(rows, f)(customers[i]) {
      assert LatestFor(rows, customers[i]) == Some(latest[i]);
    }
    SumByPointwise(latest, f, customers, LatestMeasure(rows, f));
  }

  /** Counting the latest rows of `customers` that satisfy `p` is counting
      the customers whose latest row does. */
  lemma {:induction false} LatestCounts(rows: seq<BalanceRow>, customers: seq<string>, latest: seq<BalanceRow>, p: BalanceRow -> bool)
    requires |latest| == |customers|
    requires forall i :: 0 <= i < |latest| ==> LatestFor(rows, customers[i]) == Some(latest[i])
    ensures |Filter(latest, p)| == CountLatest(rows, customers, p)
  {
    if latest != [] {
      assert LatestFor(rows, customers[0]) == Some(latest[0]);
      forall i | 0 <= i < |latest[1..]| ensures LatestFor(rows, customers[1..][i]) == Some(latest[1..][i]) {
        assert customers[1..][i] == customers[i + 1] && latest[1..][i] == latest[i + 1];
      }
      LatestCounts(rows, customers[1..], latest[1..], p);
    }
  }

  /** The summed TOTAL_BALANCE of every customer's latest balance row. */
  function TotalLatestBalance(rows: seq<BalanceRow>): real {
    SumBy(LatestPerCustomer(rows), TotalBalanceOf)
  }

  /** When every row carries TOTAL_BALANCE as cleaning computes it, the summary's
      free, capacity and rollover totals add up to the total balance held by
      the customers' latest rows, the figure the overall run rate divides. */
  lemma {:induction false} SummaryAddsUpToTotalBalance(rows: seq<BalanceRow>)
    requires |rows| > 0
    requires forall b :: b in rows ==> TotalIsAvailable(b)
    ensures GetBalanceSummary(rows).Some?
    ensures var s := GetBalanceSummary(rows).value;
      s.totalFreeUsage + s.totalCapacity + s.totalRollover == TotalLatestBalance(rows)
  {
    var latest := LatestPerCustomer(rows);
    forall b | b in latest ensures TotalIsAvailable(b) {
      var i :| 0 <= i < |latest| && latest[i] == b;
      assert LatestFor(rows, b.customer) == Some(b);
    }
    AvailableSums(latest);
  }

  lemma {:induction false} AvailableSums(s: seq<BalanceRow>)
    requires forall b :: b in s ==> TotalIsAvailable(b)
    ensures SumBy(s, FreeOf) + SumBy(s, CapacityOf) + SumBy(s, RolloverOf) == SumBy(s, TotalBalanceOf)
  {
    if s != [] {
      assert s[0] in s;
      assert forall b :: b in s[1..] ==> b in s;
      AvailableSums(s[1..]);
    }
  }
}
