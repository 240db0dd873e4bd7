/**
 * Cleaning of freshly loaded tables (`clean_usage_data`, `clean_balance_data`).
 * A table is a `Frame`: a map from column name to a column of cells, all of
 * the same height. The cleaning methods overwrite columns of the frame they
 * are given, one column name at a time, as the source does with
 * `df[col] = ...` inside loops over fixed column lists. Columns the frame does
 * not have are left alone, and an empty frame is left unchanged.
 */
module Cleaning {

  /** A dataframe cell: a null (None / NaN), a number, a string or a date. */
  datatype Cell = Null | Num(x: real) | Str(s: string) | Date(d: int)

  type Columns = map<string, seq<Cell>>

  /** Every column has `height` cells. */
  predicate WellFormed(cols: Columns, height: nat) {
    forall n :: n in cols ==> |cols[n]| == height
  }

  /** `df.empty`: no rows, or no columns. */
  predicate EmptyFrame(cols: Columns, height: nat) {
    height == 0 || |cols| == 0
  }

  // ---------------------------------------------------------------------
  // Whitespace stripping (`str.strip()` with no argument)

  /** The characters for which Python's `str.isspace()` holds. */
  predicate IsSpace(c: char) {
    || ('\U{9}' <= c <= '\U{D}')        // tab, line feed, vertical tab, form feed, carriage return
    || ('\U{1C}' <= c <= '\U{20}')      // file/group/record/unit separators, space
    || c == '\U{85}' || c == '\U{A0}' || c == '\U{1680}'
    || ('\U{2000}' <= c <= '\U{200A}')
    || c == '\U{2028}' || c == '\U{2029}' || c == '\U{202F}' || c == '\U{205F}' || c == '\U{3000}'
  }

  /** The number of whitespace characters `s` begins with. */
  function LeadingSpaces(s: string): (n: nat)
    ensures n <= |s|
    ensures forall k :: 0 <= k < n ==> IsSpace(s[k])
    ensures n == |s| || !IsSpace(s[n])
  {
    if s != [] && IsSpace(s[0]) then
      var n := 1 + LeadingSpaces(s[1..]);
      assert forall k :: 1 <= k < n ==> s[k] == s[1..][k - 1];
      n
    else 0
  }

  /** The position where the whitespace that `s` ends with begins. */
  function TrailingStart(s: string): (j: nat)
    ensures j <= |s|
    ensures forall k :: j <= k < |s| ==> IsSpace(s[k])
    ensures j == 0 || !IsSpace(s[j - 1])
  {
    if s != [] && IsSpace(s[|s| - 1]) then
      var j := TrailingStart(s[..|s| - 1]);
      assert forall k :: j <= k < |s| - 1 ==> s[k] == s[..|s| - 1][k];
      j
    else |s|
  }

  /** `s.strip()`: drop the leading whitespace, then the trailing whitespace. */
  function Strip(s: string): string {
    var t := s[LeadingSpaces(s)..];
    t[..TrailingStart(t)]
  }

  /** What stripping leaves: a contiguous slice of `s` with only whitespace
      cut off around it, which neither begins nor ends with whitespace. */
  lemma StripIsTrimmedSlice(s: string)
    ensures exists i, j ::
      && 0 <= i <= j <= |s| && Strip(s) == s[i..j]
      && (forall k :: 0 <= k < i ==> IsSpace(s[k]))
      && (forall k :: j <= k < |s| ==> IsSpace(s[k]))
    ensures Strip(s) == [] || (!IsSpace(Strip(s)[0]) && !IsSpace(Strip(s)[|Strip(s)| - 1]))
  {
    var i := LeadingSpaces(s);
    var t := s[i..];
    var j := i + TrailingStart(t);
    assert Strip(s) == s[i..j];
    forall k | j <= k < |s| ensures IsSpace(s[k]) {
      assert s[k] == t[k - i];
    }
    if Strip(s) != [] {
      assert Strip(s)[0] == s[i];
      assert Strip(s)[|Strip(s)| - 1] == t[TrailingStart(t) - 1];
    }
  }

  /** Stripping twice is stripping once. */
  lemma StripIdempotent(s: string)
    ensures Strip(Strip(s)) == Strip(s)
  {
    StripIsTrimmedSlice(s);
    var r := Strip(s);
    assert LeadingSpaces(r) == 0;
    assert r[0..] == r;
    assert TrailingStart(r) == |r|;
  }

  // ---------------------------------------------------------------------
  // Column operations

  /** What a cleaning loop does to one column. */
  datatype ColumnOp =
    | FillNull(fill: Cell)          // df[col].fillna(fill)
    | FillNullAndStrip(fill: Cell)  // df[col].fillna(fill).str.strip()

  /** `.str.strip()` on one cell of a column that holds some text: a string
      is stripped; any other value becomes NaN. (On a column with no text at
      all pandas raises instead; that case is not modelled.) */
  function StripCell(c: Cell): Cell {
    if c.Str? then Str(Strip(c.s)) else Null
  }

  function FillCell(c: Cell, fill: Cell): Cell {
    if c.Null? then fill else c
  }

  function Transform(col: seq<Cell>, op: ColumnOp): (r: seq<Cell>)
    ensures |r| == |col|
  {
    match op
    case FillNull(fill) => seq(|col|, i requires 0 <= i < |col| => FillCell(col[i], fill))
    case FillNullAndStrip(fill) => seq(|col|, i requires 0 <= i < |col| => StripCell(FillCell(col[i], fill)))
  }

  /** The frame after applying `op` to each of the named columns it has. */
  function ApplyToColumns(cols: Columns, names: seq<string>, op: ColumnOp): (r: Columns)
    ensures r.Keys == cols.Keys
  {
    map n | n in cols :: if n in names then Transform(cols[n], op) else cols[n]
  }

  /** Transforming columns keeps every column `height` cells long. */
  lemma ApplyKeepsShape(cols: Columns, height: nat, names: seq<string>, op: ColumnOp)
    requires WellFormed(cols, height)
    ensures WellFormed(ApplyToColumns(cols, names, op), height)
  {
  }

  /** Extending the list of names by one transforms at most one more column. */
  lemma ApplyOneMore(cols: Columns, names: seq<string>, name: string, op: ColumnOp)
    ensures ApplyToColumns(cols, names + [name], op)
         == if name in cols && name !in names
            then ApplyToColumns(cols, names, op)[name := Transform(cols[name], op)]
            else ApplyToColumns(cols, names, op)
  {
    var a := ApplyToColumns(cols, names + [name], op);
    var b := ApplyToColumns(cols, names, op);
    forall n | n in cols ensures n in names + [name] <==> n in names || n == name {
    }
    if name in cols && name !in names {
      var c := b[name := Transform(cols[name], op)];
      assert a.Keys == c.Keys;
      forall n | n in a ensures a[n] == c[n] {
      }
    } else {
      assert a.Keys == b.Keys;
      forall n | n in a ensures a[n] == b[n] {
        assert n in names + [name] <==> n in names || n == name;
      }
    }
  }

  /** The loop over `names`, one column at a time: after the first `k` names,
      exactly those columns have been transformed. A name listed twice is
      transformed once; the column lists the cleaning procedures pass have no
      repeats, so on them this is the source loop. */
  method ApplyInPlace(df: Frame, names: seq<string>, op: ColumnOp)
    requires df.Valid()
    modifies df
    ensures df.Valid() && df.height == old(df.height)
    ensures df.columns == ApplyToColumns(old(df.columns), names, op)
  {
    ghost var before := df.columns;
    assert ApplyToColumns(before, names[..0], op) == before;
    for k := 0 to |names|
      invariant df.Valid() && df.height == old(df.height)
      invariant df.columns == ApplyToColumns(before, names[..k], op)
    {
      var name := names[k];
      assert names[..k + 1] == names[..k] + [name];
      ApplyOneMore(before, names[..k], name, op);
      if name in df.columns && name !in names[..k] {
        df.columns := df.columns[name := Transform(df.columns[name], op)];
      }
    }
    assert names[..|names|] == names;
  }

  // ---------------------------------------------------------------------
  // Usage cleaning

  const NumericUsageColumns: seq<string> := ["CREDITS_USED", "USAGE_IN_CURRENCY"]
  const StringUsageColumns: seq<string> := ["USAGE_TYPE", "BALANCE_SOURCE"]
  const UnknownLabel: string := "Unknown"

  /** The usage frame as `clean_usage_data` leaves it. */
  function CleanedUsage(cols: Columns, height: nat): Columns {
    if EmptyFrame(cols, height) then cols
    else ApplyToColumns(ApplyToColumns(cols, NumericUsageColumns, FillNull(Num(0.0))),
                        StringUsageColumns, FillNullAndStrip(Str(UnknownLabel)))
  }

  /** After usage cleaning: the measure columns hold no nulls and keep their
      numbers; a null category becomes "Unknown"; a text category is stripped
      but keeps its case; every other column, and the set of columns, is as it
      was. */
  lemma CleanedUsageCells(cols: Columns, height: nat, n: string, i: nat)
    requires WellFormed(cols, height) && !EmptyFrame(cols, height)
    requires n in cols && i < height
    ensures CleanedUsage(cols, height).Keys == cols.Keys
    ensures n in NumericUsageColumns ==>
      CleanedUsage(cols, height)[n][i] == (if cols[n][i].Null? then Num(0.0) else cols[n][i])
    ensures n in StringUsageColumns ==>
      CleanedUsage(cols, height)[n][i] == match cols[n][i]
        case Null => Str(UnknownLabel)
        case Str(s) => Str(Strip(s))
        case _ => Null
    ensures n !in NumericUsageColumns && n !in StringUsageColumns ==>
      CleanedUsage(cols, height)[n] == cols[n]
  {
    StripUnknown();
  }

  /** A category column as the warehouse delivers it: text or null. */
  predicate TextOrNull(col: seq<Cell>) {
    forall i :: 0 <= i < |col| ==> col[i].Null? || col[i].Str?
  }

  lemma StripUnknown()
    ensures Strip(UnknownLabel) == UnknownLabel
  {
    assert LeadingSpaces(UnknownLabel) == 0;
    assert UnknownLabel[0..] == UnknownLabel;
    assert TrailingStart(UnknownLabel) == |UnknownLabel|;
  }

  /** Cleaning usage twice gives the same frame as cleaning it once, provided
      the category columns hold only text or nulls (a number in a category
      column would be turned into a null by the first strip, and into
      "Unknown" by the second). */
  lemma CleanUsageIdempotent(cols: Columns, height: nat)
    requires WellFormed(cols, height)
    requires forall n :: n in cols && n in StringUsageColumns ==> TextOrNull(cols[n])
    ensures CleanedUsage(CleanedUsage(cols, height), height) == CleanedUsage(cols, height)
  {
    if !EmptyFrame(cols, height) {
      var once := CleanedUsage(cols, height);
      assert once.Keys == cols.Keys;
      assert !EmptyFrame(once, height) by {
        var n :| n in cols.Keys;
        assert n in once;
      }
      var twice := CleanedUsage(once, height);
      forall n | n in cols ensures twice[n] == once[n] {
        CleanedUsageColumn(cols, height, n);
        CleanedUsageColumn(once, height, n);
        if n in NumericUsageColumns {
          FillIdempotent(cols[n], Num(0.0));
        } else if n in StringUsageColumns {
          FillAndStripIdempotent(cols[n]);
        }
      }
    }
  }

  /** One column of the cleaned usage frame. */
  lemma CleanedUsageColumn(cols: Columns, height: nat, n: string)
    requires !EmptyFrame(cols, height) && n in cols
    ensures CleanedUsage(cols, height)[n]
         == if n in NumericUsageColumns then Transform(cols[n], FillNull(Num(0.0)))
            else if n in StringUsageColumns then Transform(cols[n], FillNullAndStrip(Str(UnknownLabel)))
            else cols[n]
  {
    assert n in NumericUsageColumns ==> n !in StringUsageColumns;
  }

  lemma FillIdempotent(col: seq<Cell>, fill: Cell)
    requires !fill.Null?
    ensures Transform(Transform(col, FillNull(fill)), FillNull(fill)) == Transform(col, FillNull(fill))
  {
  }

  lemma FillAndStripIdempotent(col: seq<Cell>)
    requires TextOrNull(col)
    ensures Transform(Transform(col, FillNullAndStrip(Str(UnknownLabel))), FillNullAndStrip(Str(UnknownLabel)))
         == Transform(col, FillNullAndStrip(Str(UnknownLabel)))
  {
    var op := FillNullAndStrip(Str(UnknownLabel));
    var once := Transform(col, op);
    StripUnknown();
    forall i | 0 <= i < |col| ensures Transform(once, op)[i] == once[i] {
      if col[i].Str? {
        StripIdempotent(col[i].s);
      }
    }
  }

  // ---------------------------------------------------------------------
  // Balance cleaning

  const FreeColumn := "FREE_USAGE_BALANCE"
  const CapacityColumn := "CAPACITY_BALANCE"
  const OnDemandColumn := "ON_DEMAND_CONSUMPTION_BALANCE"
  const RolloverColumn := "ROLLOVER_BALANCE"
  const TotalColumn := "TOTAL_BALANCE"
  const BalanceColumns: seq<string> := [FreeColumn, CapacityColumn, OnDemandColumn, RolloverColumn]

  /** Cell addition: NaN absorbs. Text or a date in a balance cell is not
      modelled as the source treats it (an error, or text concatenation);
      it gives NaN here. */
  function AddCells(a: Cell, b: Cell): Cell {
    if a.Num? && b.Num? then Num(a.x + b.x) else Null
  }

  function AddColumns(a: seq<Cell>, b: seq<Cell>): (r: seq<Cell>)
    requires |a| == |b|
    ensures |r| == |a|
  {
    seq(|a|, i requires 0 <= i < |a| => AddCells(a[i], b[i]))
  }

  /** `df.get(name, 0)`, broadcast to a column. */
  function ColumnOrZero(cols: Columns, name: string, height: nat): (r: seq<Cell>)
    requires WellFormed(cols, height)
    ensures |r| == height
  {
    if name in cols then cols[name] else seq(height, i => Num(0.0))
  }

  /** The balance frame as `clean_balance_data` leaves it. */
  function CleanedBalance(cols: Columns, height: nat): Columns
    requires WellFormed(cols, height)
  {
    if EmptyFrame(cols, height) then cols
    else
      var filled := ApplyToColumns(cols, BalanceColumns, FillNull(Num(0.0)));
      filled[TotalColumn := BalanceTotal(filled, height)]
  }

  /** The TOTAL_BALANCE column computed from a filled frame: free usage plus
      capacity plus rollover, row by row, a missing column counting as 0. */
  function BalanceTotal(filled: Columns, height: nat): (r: seq<Cell>)
    requires WellFormed(filled, height)
    ensures |r| == height
  {
    AddColumns(AddColumns(ColumnOrZero(filled, FreeColumn, height),
                          ColumnOrZero(filled, CapacityColumn, height)),
               ColumnOrZero(filled, RolloverColumn, height))
  }

  /** The number a balance column contributes at row `i`: absent or null
      counts as 0. */
  function AmountOrZero(cols: Columns, name: string, i: nat): real {
    if name in cols && i < |cols[name]| && cols[name][i].Num? then cols[name][i].x else 0.0
  }

  /** A balance column as the warehouse delivers it: numbers or nulls. */
  predicate NumberOrNullAt(cols: Columns, name: string, i: nat) {
    name in cols ==> i < |cols[name]| && (cols[name][i].Null? || cols[name][i].Num?)
  }

  /** TOTAL_BALANCE is free usage plus capacity plus rollover, nulls and
      missing columns counting as 0; the on-demand balance plays no part. */
  lemma CleanedBalanceTotal(cols: Columns, height: nat, i: nat)
    requires WellFormed(cols, height) && !EmptyFrame(cols, height) && i < height
    requires NumberOrNullAt(cols, FreeColumn, i)
    requires NumberOrNullAt(cols, CapacityColumn, i)
    requires NumberOrNullAt(cols, RolloverColumn, i)
    ensures TotalColumn in CleanedBalance(cols, height)
    ensures CleanedBalance(cols, height)[TotalColumn][i]
      == Num(AmountOrZero(cols, FreeColumn, i) + AmountOrZero(cols, CapacityColumn, i)
             + AmountOrZero(cols, RolloverColumn, i))
  {
    var filled := ApplyToColumns(cols, BalanceColumns, FillNull(Num(0.0)));
    ApplyKeepsShape(cols, height, BalanceColumns, FillNull(Num(0.0)));
    assert CleanedBalance(cols, height)[TotalColumn] == BalanceTotal(filled, height);
    BalanceTotalAt(filled, height, i);
    FilledAmount(cols, height, FreeColumn, i);
    FilledAmount(cols, height, CapacityColumn, i);
    FilledAmount(cols, height, RolloverColumn, i);
  }

  /** Row `i` of the computed total. */
  lemma BalanceTotalAt(filled: Columns, height: nat, i: nat)
    requires WellFormed(filled, height) && i < height
    ensures BalanceTotal(filled, height)[i]
         == AddCells(AddCells(ColumnOrZero(filled, FreeColumn, height)[i],
                              ColumnOrZero(filled, CapacityColumn, height)[i]),
                     ColumnOrZero(filled, RolloverColumn, height)[i])
  {
  }

  /** A filled balance column holds, at row `i`, the number it contributes. */
  lemma FilledAmount(cols: Columns, height: nat, name: string, i: nat)
    requires WellFormed(cols, height) && i < height
    requires name in BalanceColumns && NumberOrNullAt(cols, name, i)
    ensures ColumnOrZero(ApplyToColumns(cols, BalanceColumns, FillNull(Num(0.0))), name, height)[i]
         == Num(AmountOrZero(cols, name, i))
  {
  }

  /** Changing the on-demand column never changes TOTAL_BALANCE. */
  lemma TotalIgnoresOnDemand(cols: Columns, height: nat, onDemand: seq<Cell>)
    requires WellFormed(cols, height) && !EmptyFrame(cols, height) && |onDemand| == height
    ensures WellFormed(cols[OnDemandColumn := onDemand], height)
    ensures CleanedBalance(cols[OnDemandColumn := onDemand], height)[TotalColumn]
         == CleanedBalance(cols, height)[TotalColumn]
  {
    var other := cols[OnDemandColumn := onDemand];
    assert WellFormed(other, height);
    assert !EmptyFrame(other, height) by { assert OnDemandColumn in other; }
    var f1 := ApplyToColumns(cols, BalanceColumns, FillNull(Num(0.0)));
    var f2 := ApplyToColumns(other, BalanceColumns, FillNull(Num(0.0)));
    ApplyKeepsShape(cols, height, BalanceColumns, FillNull(Num(0.0)));
    var filledOnDemand := Transform(onDemand, FillNull(Num(0.0)));
    assert f2 == f1[OnDemandColumn := filledOnDemand];
    NotASummand(f1, height, OnDemandColumn, filledOnDemand);
  }

  /** Replacing a column that is not free usage, capacity or rollover leaves
      the computed total as it was. */
  lemma NotASummand(filled: Columns, height: nat, name: string, col: seq<Cell>)
    requires WellFormed(filled, height) && |col| == height
    requires name != FreeColumn && name != CapacityColumn && name != RolloverColumn
    ensures WellFormed(filled[name := col], height)
    ensures BalanceTotal(filled[name := col], height) == BalanceTotal(filled, height)
  {
    var t := filled[name := col];
    assert ColumnOrZero(t, FreeColumn, height) == ColumnOrZero(filled, FreeColumn, height);
    assert ColumnOrZero(t, CapacityColumn, height) == ColumnOrZero(filled, CapacityColumn, height);
    assert ColumnOrZero(t, RolloverColumn, height) == ColumnOrZero(filled, RolloverColumn, height);
  }

  /** Cleaning balances twice gives the same frame as cleaning them once. */
  lemma CleanBalanceIdempotent(cols: Columns, height: nat)
    requires WellFormed(cols, height)
    ensures WellFormed(CleanedBalance(cols, height), height)
    ensures CleanedBalance(CleanedBalance(cols, height), height) == CleanedBalance(cols, height)
  {
    if !EmptyFrame(cols, height) {
      var once := CleanedBalance(cols, height);
      assert !EmptyFrame(once, height) by { assert TotalColumn in once; }
      RefillIsNoOp(cols, height);
      var f1 := ApplyToColumns(cols, BalanceColumns, FillNull(Num(0.0)));
      ApplyKeepsShape(cols, height, BalanceColumns, FillNull(Num(0.0)));
      NotASummand(f1, height, TotalColumn, BalanceTotal(f1, height));
    }
  }

  /** Filling the balance columns of a cleaned balance frame changes nothing. */
  lemma RefillIsNoOp(cols: Columns, height: nat)
    requires WellFormed(cols, height) && !EmptyFrame(cols, height)
    ensures WellFormed(CleanedBalance(cols, height), height)
    ensures ApplyToColumns(CleanedBalance(cols, height), BalanceColumns, FillNull(Num(0.0)))
         == CleanedBalance(cols, height)
  {
    ApplyKeepsShape(cols, height, BalanceColumns, FillNull(Num(0.0)));
    var once := CleanedBalance(cols, height);
    var f2 := ApplyToColumns(once, BalanceColumns, FillNull(Num(0.0)));
    assert TotalColumn !in BalanceColumns;
    forall n | n in once ensures f2[n] == once[n] {
      if n in BalanceColumns {
        FillIdempotent(cols[n], Num(0.0));
      }
    }
    assert f2.Keys == once.Keys;
  }

  // ---------------------------------------------------------------------
  // The frame and the two cleaning procedures

  class Frame {
    var columns: Columns
    var height: nat

    ghost predicate Valid()
      reads this
    {
      WellFormed(columns, height)
    }

    predicate IsEmpty()
      reads this
    {
      EmptyFrame(columns, height)
    }

    constructor (columns: Columns, height: nat)
      requires WellFormed(columns, height)
      ensures Valid() && this.columns == columns && this.height == height
    {
      this.columns := columns;
      this.height := height;
    }
  }

  /** `clean_usage_data(df)`: fill the measure columns' nulls with 0, then fill
      the category columns' nulls with "Unknown" and strip them. */
  method CleanUsageData(df: Frame)
    requires df.Valid()
    modifies df
    ensures df.Valid() && df.height == old(df.height)
    ensures df.columns == CleanedUsage(old(df.columns), old(df.height))
  {
    if df.IsEmpty() {
      return;
    }
    ApplyInPlace(df, NumericUsageColumns, FillNull(Num(0.0)));
    ApplyInPlace(df, StringUsageColumns, FillNullAndStrip(Str(UnknownLabel)));
  }

  /** `clean_balance_data(df)`: fill the four balance columns' nulls with 0,
      then (re)compute TOTAL_BALANCE. */
  method CleanBalanceData(df: Frame)
    requires df.Valid()
    modifies df
    ensures df.Valid() && df.height == old(df.height)
    ensures df.columns == CleanedBalance(old(df.columns), old(df.height))
  {
    if df.IsEmpty() {
      return;
    }
    ApplyInPlace(df, BalanceColumns, FillNull(Num(0.0)));
    df.columns := df.columns[TotalColumn := BalanceTotal(df.columns, df.height)];
  }
}
