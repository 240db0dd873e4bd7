/**
 * The rows of the three billing tables once cleaned: daily usage, daily
 * remaining balance and contract items. Dates are day numbers (days since an
 * arbitrary epoch), so `date - timedelta(days=n)` is `date - n` and the
 * difference of two dates in days is their integer difference. Money and
 * credits are exact reals.
 */
module Records {

  type Date = int

  /** One row of the daily usage view (`PARTNER_USAGE_IN_CURRENCY_DAILY`). */
  datatype UsageRow = UsageRow(
    customer: string,        // SOLD_TO_CUSTOMER_NAME
    account: string,         // ACCOUNT_NAME
    region: string,          // REGION
    serviceLevel: string,    // SERVICE_LEVEL
    usageType: string,       // USAGE_TYPE
    balanceSource: string,   // BALANCE_SOURCE
    date: Date,              // USAGE_DATE
    credits: real,           // CREDITS_USED
    cost: real,              // USAGE_IN_CURRENCY
    currency: string)        // CURRENCY

  /** One row of the daily balance view (`PARTNER_REMAINING_BALANCE_DAILY`),
      with the derived TOTAL_BALANCE column added by balance cleaning. */
  datatype BalanceRow = BalanceRow(
    customer: string,        // SOLD_TO_CUSTOMER_NAME
    date: Date,              // BALANCE_DATE
    free: real,              // FREE_USAGE_BALANCE
    capacity: real,          // CAPACITY_BALANCE
    onDemand: real,          // ON_DEMAND_CONSUMPTION_BALANCE
    rollover: real,          // ROLLOVER_BALANCE
    total: real)             // TOTAL_BALANCE

  /** One row of the contract items view (`PARTNER_CONTRACT_ITEMS`). */
  datatype ContractRow = ContractRow(
    customer: string,        // SOLD_TO_CUSTOMER_NAME
    item: string,            // CONTRACT_ITEM
    start: Date,             // START_DATE
    end: Date,               // END_DATE
    amount: real,            // AMOUNT: the capacity purchased
    currency: string)        // CURRENCY

  /** A balance row as cleaning leaves it: the total is the available balance,
      free usage plus capacity plus rollover, with on-demand left out. */
  predicate TotalIsAvailable(b: BalanceRow) {
    b.total == b.free + b.capacity + b.rollover
  }

  // Column accessors, passed to the generic table operations.
  function CustomerOf(r: UsageRow): string { r.customer }
  function AccountOf(r: UsageRow): string { r.account }
  function UsageTypeOf(r: UsageRow): string { r.usageType }
  function DateOf(r: UsageRow): Date { r.date }
  function DateKey(r: UsageRow): real { r.date as real }
  function CreditsOf(r: UsageRow): real { r.credits }
  function CostOf(r: UsageRow): real { r.cost }
  function BalanceCustomerOf(b: BalanceRow): string { b.customer }

  /** A usage column that can be grouped on (`group_by_columns`). */
  datatype Dim = Customer | Account | Region | ServiceLevel | UsageType | BalanceSource | UsageDate

  /** A usage column that can be summed (`metric_column`). */
  datatype Metric = Credits | Cost

  /** A value of a grouping column. */
  datatype KeyValue = Text(s: string) | Day(d: Date)

  function Project(r: UsageRow, d: Dim): KeyValue {
    match d
    case Customer => Text(r.customer)
    case Account => Text(r.account)
    case Region => Text(r.region)
    case ServiceLevel => Text(r.serviceLevel)
    case UsageType => Text(r.usageType)
    case BalanceSource => Text(r.balanceSource)
    case UsageDate => Day(r.date)
  }

  /** The composite group key of a row for the columns `dims`. */
  function GroupKey(r: UsageRow, dims: seq<Dim>): (k: seq<KeyValue>)
    ensures |k| == |dims|
  {
    seq(|dims|, i requires 0 <= i < |dims| => Project(r, dims[i]))
  }

  /** The key function for `dims`, as a value. */
  function KeyFn(dims: seq<Dim>): UsageRow -> seq<KeyValue> {
    r => GroupKey(r, dims)
  }

  /** The measure function for a metric column, as a value. */
  function MetricFn(m: Metric): UsageRow -> real {
    match m
    case Credits => CreditsOf
    case Cost => CostOf
  }
}
