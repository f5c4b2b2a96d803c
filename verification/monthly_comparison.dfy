/** revenue_monthly_comparison_by_vendors.py: for each allow-listed vendor,
    Total Sales, order count and value per order in each of several periods,
    side by side in one wide table, followed by a Total row of column sums. */
module MonthlyComparison {
  import opened Table
  import opened Aggregate

  /** A table cell: a number, or missing (NaN) where the vendor has no row in
      that period. */
  type Cell = Option<real>

  /** One line of the wide table: the vendor (or "Total") and its cells, laid
      out as the sales of each period, then the counts of each period, then
      the values per order of each period. */
  datatype WideRow = WideRow(name: string, cells: seq<Cell>)

  const TotalLabel: string := "Total"

  predicate NoDuplicates(s: seq<string>) {
    forall i, j :: 0 <= i < j < |s| ==> s[i] != s[j]
  }

  /** One period's vendor aggregate: allow-listed rows grouped by vendor. */
  function PeriodAggregate(period: seq<Txn>, vendorList: seq<string>): seq<Group> {
    GroupBy(AllowedRows(period, vendorList), Vendor)
  }

  function Aggregates(periods: seq<seq<Txn>>, vendorList: seq<string>): seq<seq<Group>> {
    seq(|periods|, p requires 0 <= p < |periods| => PeriodAggregate(periods[p], vendorList))
  }

  /** Every group of every aggregate counts at least one row. */
  predicate Counted(aggs: seq<seq<Group>>) {
    forall p, g :: 0 <= p < |aggs| && g in aggs[p] ==> g.count >= 1
  }

  /** Appends the keys of `gs` that `acc` does not hold yet. */
  function AddKeys(acc: seq<string>, gs: seq<Group>): (r: seq<string>)
    ensures NoDuplicates(acc) ==> NoDuplicates(r)
    ensures forall k :: k in r <==> k in acc || k in KeysOf(gs, GroupKey)
    decreases gs
  {
    if gs == [] then acc
    else AddKeys(if gs[0].key in acc then acc else acc + [gs[0].key], gs[1..])
  }

  /** The index of the side-by-side concatenation: every key of every
      aggregate, once. */
  function UnionKeys(aggs: seq<seq<Group>>): (r: seq<string>)
    ensures NoDuplicates(r)
    ensures forall k :: k in r <==> exists p :: 0 <= p < |aggs| && k in KeysOf(aggs[p], GroupKey)
  {
    if aggs == [] then []
    else
      UnionStep(aggs);
      AddKeys(UnionKeys(Init(aggs)), Last(aggs))
  }

  /** A key of some aggregate is a key of one before the last, or of the last. */
  lemma UnionStep(aggs: seq<seq<Group>>)
    requires aggs != []
    ensures forall k :: (exists p :: 0 <= p < |aggs| && k in KeysOf(aggs[p], GroupKey)) <==>
      (exists p :: 0 <= p < |Init(aggs)| && k in KeysOf(Init(aggs)[p], GroupKey)) || k in KeysOf(Last(aggs), GroupKey)
  {
    forall k ensures (exists p :: 0 <= p < |aggs| && k in KeysOf(aggs[p], GroupKey)) ==>
      (exists p :: 0 <= p < |Init(aggs)| && k in KeysOf(Init(aggs)[p], GroupKey)) || k in KeysOf(Last(aggs), GroupKey)
    {
      if p :| 0 <= p < |aggs| && k in KeysOf(aggs[p], GroupKey) {
        if p < |aggs| - 1 {
          assert Init(aggs)[p] == aggs[p];
        }
      }
    }
    forall k, p | 0 <= p < |Init(aggs)| && k in KeysOf(Init(aggs)[p], GroupKey)
      ensures exists q :: 0 <= q < |aggs| && k in KeysOf(aggs[q], GroupKey)
    {
      assert Init(aggs)[p] == aggs[p];
    }
    assert Last(aggs) == aggs[|aggs| - 1];
  }

  /** The `sum` of `k`'s group, missing when `k` has no group. */
  function SalesCell(gs: seq<Group>, k: string): Cell {
    match Lookup(gs, k)
    case Some(g) => Some(g.sum)
    case None => None
  }

  /** The `count` of `k`'s group, missing when `k` has no group. */
  function CountCell(gs: seq<Group>, k: string): Cell {
    match Lookup(gs, k)
    case Some(g) => Some(g.count as real)
    case None => None
  }

  /** Column division, Sales / count: missing where either operand is. */
  function Quotient(a: Cell, b: Cell): Cell
    requires b.Some? ==> b.value != 0.0
  {
    if a.Some? && b.Some? then Some(a.value / b.value) else None
  }

  /** The line of vendor `k`. */
  function VendorRow(aggs: seq<seq<Group>>, k: string): (row: WideRow)
    requires Counted(aggs)
    ensures |row.cells| == 3 * |aggs|
  {
    var n := |aggs|;
    WideRow(k,
      seq(n, p requires 0 <= p < n => SalesCell(aggs[p], k)) +
      seq(n, p requires 0 <= p < n => CountCell(aggs[p], k)) +
      seq(n, p requires 0 <= p < n => Quotient(SalesCell(aggs[p], k), CountCell(aggs[p], k))))
  }

  function VendorRows(aggs: seq<seq<Group>>, keys: seq<string>): (rows: seq<WideRow>)
    requires Counted(aggs)
    ensures |rows| == |keys|
    ensures forall i :: 0 <= i < |keys| ==> rows[i] == VendorRow(aggs, keys[i])
  {
    if keys == [] then [] else [VendorRow(aggs, keys[0])] + VendorRows(aggs, keys[1..])
  }

  /** `Series.sum()` of column `c`: missing cells are skipped. */
  function ColumnTotal(rows: seq<WideRow>, c: nat): real {
    if rows == [] then 0.0
    else
      (if c < |rows[0].cells| && rows[0].cells[c].Some? then rows[0].cells[c].value else 0.0)
      + ColumnTotal(rows[1..], c)
  }

  /** `result.sum().rename('Total')`: the column sums of every column. */
  function TotalRow(rows: seq<WideRow>, width: nat): WideRow {
    WideRow(TotalLabel, seq(width, c requires 0 <= c < width => Some(ColumnTotal(rows, c))))
  }

  /** The vendor lines: one per vendor that sold in any period. */
  function VendorLines(periods: seq<seq<Txn>>, vendorList: seq<string>): seq<WideRow> {
    var aggs := Aggregates(periods, vendorList);
    VendorRows(aggs, UnionKeys(aggs))
  }

  /** The Total line: the column sums of the vendor lines. */
  function TotalLine(periods: seq<seq<Txn>>, vendorList: seq<string>): WideRow {
    TotalRow(VendorLines(periods, vendorList), 3 * |periods|)
  }

  /** The whole table: the vendor lines, then the Total line over them. */
  function Rollup(periods: seq<seq<Txn>>, vendorList: seq<string>): (table: seq<WideRow>)
    ensures |table| == |VendorLines(periods, vendorList)| + 1
    ensures table[..|table| - 1] == VendorLines(periods, vendorList)
    ensures table[|table| - 1] == TotalLine(periods, vendorList)
  {
    VendorLines(periods, vendorList) + [TotalLine(periods, vendorList)]
  }

  /** The first column of a table. */
  function Names(rows: seq<WideRow>): (names: seq<string>)
    ensures |names| == |rows|
    ensures forall i :: 0 <= i < |rows| ==> names[i] == rows[i].name
  {
    seq(|rows|, i requires 0 <= i < |rows| => rows[i].name)
  }

  /** The vendors of the table are those with at least one allow-listed
      row in some period, each once; every line has three cells per period. */
  lemma VendorLinesShape(periods: seq<seq<Txn>>, vendorList: seq<string>)
    ensures forall i :: 0 <= i < |VendorLines(periods, vendorList)| ==> |VendorLines(periods, vendorList)[i].cells| == 3 * |periods|
    ensures NoDuplicates(Names(VendorLines(periods, vendorList)))
    ensures forall v :: v in Names(VendorLines(periods, vendorList)) <==>
      exists p :: 0 <= p < |periods| && v in KeySet(AllowedRows(periods[p], vendorList), Vendor)
  {
    var aggs := Aggregates(periods, vendorList);
    var keys := UnionKeys(aggs);
    AggregatesCounted(periods, vendorList);
    NamesOfRows(aggs, keys);
    forall v ensures v in keys <==> exists p :: 0 <= p < |periods| && v in KeySet(AllowedRows(periods[p], vendorList), Vendor) {
      UnionOfPeriods(periods, vendorList, v);
    }
  }

  /** A vendor is in the index of the concatenation exactly when it has
      allow-listed rows in some period. */
  lemma UnionOfPeriods(periods: seq<seq<Txn>>, vendorList: seq<string>, v: string)
    ensures v in UnionKeys(Aggregates(periods, vendorList)) <==>
      exists p :: 0 <= p < |periods| && v in KeySet(AllowedRows(periods[p], vendorList), Vendor)
  {
    var aggs := Aggregates(periods, vendorList);
    if v in UnionKeys(aggs) {
      var p :| 0 <= p < |aggs| && v in KeysOf(aggs[p], GroupKey);
      AggregateKeys(periods, vendorList, p);
    }
    if p :| 0 <= p < |periods| && v in KeySet(AllowedRows(periods[p], vendorList), Vendor) {
      AggregateKeys(periods, vendorList, p);
    }
  }

  lemma NamesOfRows(aggs: seq<seq<Group>>, keys: seq<string>)
    requires Counted(aggs)
    ensures Names(VendorRows(aggs, keys)) == keys
  {
  }

  lemma AggregateKeys(periods: seq<seq<Txn>>, vendorList: seq<string>, p: nat)
    requires p < |periods|
    ensures KeysOf(Aggregates(periods, vendorList)[p], GroupKey) == KeySet(AllowedRows(periods[p], vendorList), Vendor)
  {
  }

  /** The three cells of vendor `k` for period `p`. */
  lemma VendorRowCells(aggs: seq<seq<Group>>, k: string, p: nat)
    requires Counted(aggs) && p < |aggs|
    ensures VendorRow(aggs, k).cells[p] == SalesCell(aggs[p], k)
    ensures VendorRow(aggs, k).cells[|aggs| + p] == CountCell(aggs[p], k)
    ensures VendorRow(aggs, k).cells[2 * |aggs| + p] == Quotient(SalesCell(aggs[p], k), CountCell(aggs[p], k))
  {
  }

  /** The cells of a line with name `k` for period `p` of `n`, given that
      period's allow-listed rows: when `k` has rows there, their Total Sales,
      their count (at least one) and the quotient of the two; otherwise all
      three are missing. */
  predicate PeriodCells(cells: seq<Cell>, k: string, rows: seq<Txn>, n: nat, p: nat)
    requires p < n && |cells| == 3 * n
  {
    if k in KeySet(rows, Vendor) then
      && KeyCount(rows, Vendor, k) >= 1
      && cells[p] == Some(KeySum(rows, Vendor, k))
      && cells[n + p] == Some(KeyCount(rows, Vendor, k) as real)
      && cells[2 * n + p] == Some(KeySum(rows, Vendor, k) / KeyCount(rows, Vendor, k) as real)
    else
      cells[p] == None && cells[n + p] == None && cells[2 * n + p] == None
  }

  lemma VendorRowOfGroupBy(aggs: seq<seq<Group>>, k: string, p: nat, rows: seq<Txn>)
    requires Counted(aggs) && p < |aggs|
    requires aggs[p] == GroupBy(rows, Vendor)
    ensures PeriodCells(VendorRow(aggs, k).cells, k, rows, |aggs|, p)
  {
    VendorRowCells(aggs, k, p);
    LookupGroupBy(rows, Vendor, k);
    KeySetMembers(rows, Vendor, k);
  }

  /** A vendor line's cells for period `p` are that vendor's sales, count and
      value per order in the period, or missing if it sold nothing then. */
  lemma VendorLineCells(periods: seq<seq<Txn>>, vendorList: seq<string>, i: nat, p: nat)
    requires i < |VendorLines(periods, vendorList)| && p < |periods|
    ensures |VendorLines(periods, vendorList)[i].cells| == 3 * |periods|
    ensures PeriodCells(VendorLines(periods, vendorList)[i].cells, VendorLines(periods, vendorList)[i].name,
                        AllowedRows(periods[p], vendorList), |periods|, p)
  {
    var aggs := Aggregates(periods, vendorList);
    var keys := UnionKeys(aggs);
    assert VendorLines(periods, vendorList)[i] == VendorRow(aggs, keys[i]);
    VendorRowOfGroupBy(aggs, keys[i], p, AllowedRows(periods[p], vendorList));
  }

  // ---------------------------------------------------------------------
  // The Total line

  /** The two summed columns of an aggregate. */
  datatype Measure = SalesSum | RowCount

  function Amount(g: Group, m: Measure): real {
    match m
    case SalesSum => g.sum
    case RowCount => g.count as real
  }

  /** The column of a measure for period `p` when there are `n` periods. */
  function ColumnOf(m: Measure, n: nat, p: nat): nat {
    match m
    case SalesSum => p
    case RowCount => n + p
  }

  /** The measure of `k`'s group, zero when `k` has none. */
  function Present(gs: seq<Group>, k: string, m: Measure): real {
    match Lookup(gs, k)
    case Some(g) => Amount(g, m)
    case None => 0.0
  }

  /** The measure summed over the groups of the listed keys. */
  function KeysTotal(keys: seq<string>, gs: seq<Group>, m: Measure): real {
    if keys == [] then 0.0 else Present(gs, keys[0], m) + KeysTotal(keys[1..], gs, m)
  }

  /** The measure summed over all groups. */
  function GroupsAmount(gs: seq<Group>, m: Measure): (r: real)
    ensures m == SalesSum ==> r == GroupsTotal(gs)
    ensures m == RowCount ==> r == GroupsCount(gs) as real
  {
    if gs == [] then 0.0 else Amount(gs[0], m) + GroupsAmount(gs[1..], m)
  }

  /** Summing over the keys, the first group counts once if its key is
      listed, and the rest of the groups give the rest. */
  lemma {:induction false} KeysTotalCons(keys: seq<string>, gs: seq<Group>, m: Measure)
    requires NoDuplicates(keys)
    requires gs != [] && gs[0].key !in KeysOf(gs[1..], GroupKey)
    ensures KeysTotal(keys, gs, m) == (if gs[0].key in keys then Amount(gs[0], m) else 0.0) + KeysTotal(keys, gs[1..], m)
  {
    if keys != [] {
      KeysTotalCons(keys[1..], gs, m);
      if keys[0] == gs[0].key {
        assert Lookup(gs[1..], keys[0]) == None;
        assert gs[0].key !in keys[1..];
      }
    }
  }

  /** Summing over a duplicate-free list that holds every key of groups
      with distinct keys gives the sum over the groups. */
  lemma {:induction false} KeysTotalAll(keys: seq<string>, gs: seq<Group>, m: Measure)
    requires NoDuplicates(keys)
    requires DistinctKeys(gs, GroupKey)
    requires forall k :: k in KeysOf(gs, GroupKey) ==> k in keys
    ensures KeysTotal(keys, gs, m) == GroupsAmount(gs, m)
  {
    if gs == [] {
      KeysTotalEmpty(keys, m);
    } else {
      DistinctKeysCons(gs, GroupKey);
      KeysTotalCons(keys, gs, m);
      KeysTotalAll(keys, gs[1..], m);
    }
  }

  lemma {:induction false} KeysTotalEmpty(keys: seq<string>, m: Measure)
    ensures KeysTotal(keys, [], m) == 0.0
  {
    if keys != [] {
      KeysTotalEmpty(keys[1..], m);
    }
  }

  /** Summing a sales or count column of the vendor lines is summing the
      measure over the listed vendors' groups. */
  lemma {:induction false} ColumnKeysTotal(aggs: seq<seq<Group>>, keys: seq<string>, p: nat, m: Measure)
    requires Counted(aggs) && p < |aggs|
    ensures ColumnTotal(VendorRows(aggs, keys), ColumnOf(m, |aggs|, p)) == KeysTotal(keys, aggs[p], m)
  {
    if keys != [] {
      var rows := VendorRows(aggs, keys);
      assert rows[1..] == VendorRows(aggs, keys[1..]);
      ColumnKeysTotal(aggs, keys[1..], p, m);
      VendorRowCells(aggs, keys[0], p);
    }
  }

  /** The Total line's sales entry for a period is the period's allow-listed
      Total Sales, and its count entry is the period's number of allow-listed
      rows. */
  lemma RollupTotals(periods: seq<seq<Txn>>, vendorList: seq<string>, p: nat)
    requires p < |periods|
    ensures var total := TotalLine(periods, vendorList);
      && total.name == TotalLabel
      && total.cells[p] == Some(TotalSales(AllowedRows(periods[p], vendorList)))
      && total.cells[|periods| + p] == Some(|AllowedRows(periods[p], vendorList)| as real)
  {
    var aggs := Aggregates(periods, vendorList);
    var keys := UnionKeys(aggs);
    var rows := AllowedRows(periods[p], vendorList);
    AggregatesCounted(periods, vendorList);
    assert aggs[p] == GroupBy(rows, Vendor);
    forall k | k in KeysOf(aggs[p], GroupKey) ensures k in keys {
      assert 0 <= p < |aggs| && k in KeysOf(aggs[p], GroupKey);
    }
    PeriodColumnTotals(aggs, keys, p, rows);
    TotalLineCells(periods, vendorList, p);
    TotalLineCells(periods, vendorList, |periods| + p);
  }

  /** Every aggregate of the periods counts each of its groups at least once. */
  lemma AggregatesCounted(periods: seq<seq<Txn>>, vendorList: seq<string>)
    ensures Counted(Aggregates(periods, vendorList))
  {
    var aggs := Aggregates(periods, vendorList);
    forall p, g: Group | 0 <= p < |aggs| && g in aggs[p] ensures g.count >= 1 {
      assert aggs[p] == GroupBy(AllowedRows(periods[p], vendorList), Vendor);
    }
  }

  /** Each cell of the Total line is the column sum of the vendor lines. */
  lemma TotalLineCells(periods: seq<seq<Txn>>, vendorList: seq<string>, c: nat)
    requires c < 3 * |periods|
    ensures TotalLine(periods, vendorList).name == TotalLabel
    ensures |TotalLine(periods, vendorList).cells| == 3 * |periods|
    ensures TotalLine(periods, vendorList).cells[c] == Some(ColumnTotal(VendorLines(periods, vendorList), c))
  {
  }

  /** The sales and count columns of a period sum to the Total Sales and the
      number of the rows the period's aggregate groups. */
  lemma PeriodColumnTotals(aggs: seq<seq<Group>>, keys: seq<string>, p: nat, rows: seq<Txn>)
    requires Counted(aggs) && p < |aggs| && NoDuplicates(keys)
    requires aggs[p] == GroupBy(rows, Vendor)
    requires forall k :: k in KeysOf(aggs[p], GroupKey) ==> k in keys
    ensures ColumnTotal(VendorRows(aggs, keys), p) == TotalSales(rows)
    ensures ColumnTotal(VendorRows(aggs, keys), |aggs| + p) == |rows| as real
  {
    ColumnTotals(aggs, keys, p);
  }

  /** The sales and count sums over all vendors of a period are the
      aggregate's totals. */
  lemma ColumnTotals(aggs: seq<seq<Group>>, keys: seq<string>, p: nat)
    requires Counted(aggs) && p < |aggs|
    requires NoDuplicates(keys) && DistinctKeys(aggs[p], GroupKey)
    requires forall k :: k in KeysOf(aggs[p], GroupKey) ==> k in keys
    ensures ColumnTotal(VendorRows(aggs, keys), p) == GroupsTotal(aggs[p])
    ensures ColumnTotal(VendorRows(aggs, keys), |aggs| + p) == GroupsCount(aggs[p]) as real
  {
    ColumnKeysTotal(aggs, keys, p, SalesSum);
    ColumnKeysTotal(aggs, keys, p, RowCount);
    KeysTotalAll(keys, aggs[p], SalesSum);
    KeysTotalAll(keys, aggs[p], RowCount);
  }

  /** The sum over the listed vendors of each one's value per order in
      `rows` (vendors without rows add nothing). */
  function PerOrderSum(keys: seq<string>, rows: seq<Txn>): real {
    if keys == [] then 0.0
    else
      (if KeyCount(rows, Vendor, keys[0]) >= 1
       then KeySum(rows, Vendor, keys[0]) / KeyCount(rows, Vendor, keys[0]) as real
       else 0.0)
      + PerOrderSum(keys[1..], rows)
  }

  lemma {:induction false} ColumnPerOrder(aggs: seq<seq<Group>>, keys: seq<string>, p: nat, rows: seq<Txn>)
    requires Counted(aggs) && p < |aggs|
    requires aggs[p] == GroupBy(rows, Vendor)
    ensures ColumnTotal(VendorRows(aggs, keys), 2 * |aggs| + p) == PerOrderSum(keys, rows)
  {
    if keys != [] {
      var lines := VendorRows(aggs, keys);
      assert lines[1..] == VendorRows(aggs, keys[1..]);
      ColumnPerOrder(aggs, keys[1..], p, rows);
      VendorRowOfGroupBy(aggs, keys[0], p, rows);
      KeySetMembers(rows, Vendor, keys[0]);
    }
  }

  /** As written, the Total line's value-per-order entry of a period is the
      column sum of the vendors' values per order, because the Total line is
      appended after the ratio columns exist. */
  lemma RollupPerOrderTotal(periods: seq<seq<Txn>>, vendorList: seq<string>, p: nat)
    requires p < |periods|
    ensures TotalLine(periods, vendorList).cells[2 * |periods| + p] ==
      Some(PerOrderSum(Names(VendorLines(periods, vendorList)), AllowedRows(periods[p], vendorList)))
  {
    var aggs := Aggregates(periods, vendorList);
    var keys := UnionKeys(aggs);
    var rows := AllowedRows(periods[p], vendorList);
    AggregatesCounted(periods, vendorList);
    assert aggs[p] == GroupBy(rows, Vendor);
    NamesOfRows(aggs, keys);
    ColumnPerOrder(aggs, keys, p, rows);
    TotalLineCells(periods, vendorList, 2 * |periods| + p);
  }

  /** The vendor lines of the table: one per vendor with at least one
      allow-listed row in some period, each once, and every line holding
      that vendor's sales, count and value per order in each period. */
  lemma RollupVendors(periods: seq<seq<Txn>>, vendorList: seq<string>)
    ensures Rollup(periods, vendorList) != []
    ensures NoDuplicates(Names(Init(Rollup(periods, vendorList))))
    ensures forall v :: v in Names(Init(Rollup(periods, vendorList))) <==>
      exists p :: 0 <= p < |periods| && v in KeySet(AllowedRows(periods[p], vendorList), Vendor)
    ensures forall i, p :: 0 <= i < |Init(Rollup(periods, vendorList))| && 0 <= p < |periods| ==>
      var line := Init(Rollup(periods, vendorList))[i];
      && |line.cells| == 3 * |periods|
      && PeriodCells(line.cells, line.name, AllowedRows(periods[p], vendorList), |periods|, p)
  {
    var lines := VendorLines(periods, vendorList);
    assert Init(Rollup(periods, vendorList)) == lines;
    VendorLinesShape(periods, vendorList);
    forall i, p | 0 <= i < |lines| && 0 <= p < |periods|
      ensures |lines[i].cells| == 3 * |periods|
      ensures PeriodCells(lines[i].cells, lines[i].name, AllowedRows(periods[p], vendorList), |periods|, p)
    {
      VendorLineCells(periods, vendorList, i, p);
    }
  }

  /** The last line of the table is labelled Total; for each period it holds
      the allow-listed Total Sales, the number of allow-listed rows and, as
      written, the sum of the listed vendors' values per order. */
  lemma RollupTotalLine(periods: seq<seq<Txn>>, vendorList: seq<string>)
    ensures Rollup(periods, vendorList) != []
    ensures Last(Rollup(periods, vendorList)).name == TotalLabel
    ensures |Last(Rollup(periods, vendorList)).cells| == 3 * |periods|
    ensures forall p :: 0 <= p < |periods| ==>
      var rows := AllowedRows(periods[p], vendorList);
      var total := Last(Rollup(periods, vendorList));
      && total.cells[p] == Some(TotalSales(rows))
      && total.cells[|periods| + p] == Some(|rows| as real)
      && total.cells[2 * |periods| + p] == Some(PerOrderSum(Names(Init(Rollup(periods, vendorList))), rows))
  {
    var total := TotalLine(periods, vendorList);
    assert Last(Rollup(periods, vendorList)) == total;
    assert Init(Rollup(periods, vendorList)) == VendorLines(periods, vendorList);
    forall p | 0 <= p < |periods|
      ensures total.cells[p] == Some(TotalSales(AllowedRows(periods[p], vendorList)))
      ensures total.cells[|periods| + p] == Some(|AllowedRows(periods[p], vendorList)| as real)
      ensures total.cells[2 * |periods| + p] ==
        Some(PerOrderSum(Names(VendorLines(periods, vendorList)), AllowedRows(periods[p], vendorList)))
    {
      RollupTotals(periods, vendorList, p);
      RollupPerOrderTotal(periods, vendorList, p);
    }
  }

  /** A period of three rows: one order of 10 for vendor `a`, orders of 20
      and 40 for vendor `b`. */
  predicate IsSample(period: seq<Txn>, a: string, b: string) {
    && a != b
    && |period| == 3
    && period[0].vendor == a && period[0].totalSales == 10.0
    && period[1].vendor == b && period[1].totalSales == 20.0
    && period[2].vendor == b && period[2].totalSales == 40.0
  }

  lemma SampleRows(period: seq<Txn>, a: string, b: string)
    requires IsSample(period, a, b)
    ensures KeySet(period, Vendor) == {a, b}
    ensures TotalSales(period) == 70.0
    ensures KeySum(period, Vendor, a) == 10.0 && KeyCount(period, Vendor, a) == 1
    ensures KeySum(period, Vendor, b) == 60.0 && KeyCount(period, Vendor, b) == 2
  {
    var r1, r2 := [period[0]], [period[0], period[1]];
    assert r1 == [] + [period[0]] && r2 == r1 + [period[1]] && period == r2 + [period[2]];
    KeysSnoc([], period[0], Vendor, a);
    KeysSnoc([], period[0], Vendor, b);
    KeysSnoc(r1, period[1], Vendor, a);
    KeysSnoc(r1, period[1], Vendor, b);
    KeysSnoc(r2, period[2], Vendor, a);
    KeysSnoc(r2, period[2], Vendor, b);
  }

  lemma SampleAllowed(period: seq<Txn>, a: string, b: string)
    requires IsSample(period, a, b)
    ensures AllowedRows(period, [a, b]) == period
  {
    WhereAll(period, VendorIn([a, b]));
  }

  /** The sample table lists vendors `a` and `b`, in one order or the other. */
  lemma SampleNames(period: seq<Txn>, a: string, b: string)
    requires IsSample(period, a, b)
    ensures Names(VendorLines([period], [a, b])) in {[a, b], [b, a]}
  {
    SampleRows(period, a, b);
    SampleAllowed(period, a, b);
    var gs := GroupBy(period, Vendor);
    TwoGroups(period, a, b);
    AddKeysPair(gs);
    SinglePeriodNames(period, [a, b]);
  }

  /** Rows of exactly two vendors group into two groups, one per vendor. */
  lemma TwoGroups(rows: seq<Txn>, a: string, b: string)
    requires a != b && KeySet(rows, Vendor) == {a, b}
    ensures var gs := GroupBy(rows, Vendor);
      |gs| == 2 && gs[0].key != gs[1].key && [gs[0].key, gs[1].key] in {[a, b], [b, a]}
  {
    var gs := GroupBy(rows, Vendor);
    GroupCount(rows, Vendor);
    KeyInKeys(gs, GroupKey, 0);
    KeyInKeys(gs, GroupKey, 1);
  }

  lemma AddKeysPair(gs: seq<Group>)
    requires |gs| == 2 && gs[0].key != gs[1].key
    ensures AddKeys([], gs) == [gs[0].key, gs[1].key]
  {
    var k0, k1 := gs[0].key, gs[1].key;
    assert [] + [k0] == [k0];
    assert gs[1..][0].key == k1 && gs[1..][1..] == [];
    assert AddKeys([k0, k1], []) == [k0, k1];
    assert AddKeys([k0], gs[1..]) == AddKeys([k0] + [k1], []);
  }

  lemma UnionKeysSingle(gs: seq<Group>)
    ensures UnionKeys([gs]) == AddKeys([], gs)
  {
    assert Init([gs]) == [];
  }

  /** With a single period, the vendor lines follow that period's groups. */
  lemma SinglePeriodNames(period: seq<Txn>, vendorList: seq<string>)
    ensures Names(VendorLines([period], vendorList)) == AddKeys([], PeriodAggregate(period, vendorList))
  {
    var aggs := Aggregates([period], vendorList);
    assert aggs == [PeriodAggregate(period, vendorList)];
    UnionKeysSingle(PeriodAggregate(period, vendorList));
    NamesOfRows(aggs, UnionKeys(aggs));
  }

  lemma SamplePerOrder(period: seq<Txn>, a: string, b: string, names: seq<string>)
    requires IsSample(period, a, b) && names in {[a, b], [b, a]}
    ensures PerOrderSum(names, period) == 40.0
  {
    SampleRows(period, a, b);
    assert names[1..][1..] == [];
    assert PerOrderSum([a], period) == 10.0;
    assert PerOrderSum([b], period) == 30.0;
  }

  lemma SampleTotals(period: seq<Txn>, a: string, b: string)
    requires IsSample(period, a, b)
    ensures var total := TotalLine([period], [a, b]);
      total.cells[0] == Some(70.0) && total.cells[1] == Some(3.0)
  {
    SampleRows(period, a, b);
    SampleAllowed(period, a, b);
    SinglePeriodTotals(period, [a, b]);
    assert |period| as real == 3.0;
  }

  lemma SinglePeriodTotals(period: seq<Txn>, vendorList: seq<string>)
    ensures var total := TotalLine([period], vendorList);
      && total.cells[0] == Some(TotalSales(AllowedRows(period, vendorList)))
      && total.cells[1] == Some(|AllowedRows(period, vendorList)| as real)
  {
    assert [period][0] == period;
    RollupTotals([period], vendorList, 0);
  }

  lemma SampleTotalPerOrder(period: seq<Txn>, a: string, b: string)
    requires IsSample(period, a, b)
    ensures var total := TotalLine([period], [a, b]);
      total.cells[2] == Some(40.0)
  {
    var names := Names(VendorLines([period], [a, b]));
    SampleNames(period, a, b);
    SamplePerOrder(period, a, b, names);
    SinglePeriodPerOrder(period, [a, b]);
    SampleAllowed(period, a, b);
  }

  lemma SinglePeriodPerOrder(period: seq<Txn>, vendorList: seq<string>)
    ensures TotalLine([period], vendorList).cells[2] ==
      Some(PerOrderSum(Names(VendorLines([period], vendorList)), AllowedRows(period, vendorList)))
  {
    assert [period][0] == period;
    RollupPerOrderTotal([period], vendorList, 0);
  }

  /** A period where vendor `a` has one order of 10 and vendor `b` orders of
      20 and 40: the Total line shows sales 70 over 3 orders, yet a value per
      order of 10 + 30 = 40 rather than 70 / 3. */
  lemma TotalPerOrderIsNotAverage(period: seq<Txn>, a: string, b: string)
    requires IsSample(period, a, b)
    ensures var total := TotalLine([period], [a, b]);
      && total.cells[0] == Some(70.0)
      && total.cells[1] == Some(3.0)
      && total.cells[2] == Some(40.0)
      && 40.0 != 70.0 / 3.0
  {
    SampleTotals(period, a, b);
    SampleTotalPerOrder(period, a, b);
  }

  // ---------------------------------------------------------------------
  // The Total line with the average value per order

  /** The quotient of two cells, missing where either is missing or the
      divisor is zero. */
  function AverageCell(sales: Cell, count: Cell): Cell {
    if sales.Some? && count.Some? && count.value != 0.0 then Some(sales.value / count.value) else None
  }

  /** The Total line with its value-per-order entries recomputed from its own
      sales and count entries. */
  function CorrectedTotalRow(total: WideRow, n: nat): (r: WideRow)
    requires |total.cells| == 3 * n
    ensures |r.cells| == 3 * n
  {
    WideRow(TotalLabel,
      total.cells[..2 * n] + seq(n, p requires 0 <= p < n => AverageCell(total.cells[p], total.cells[n + p])))
  }

  /** The table with the corrected Total line. */
  function CorrectedRollup(periods: seq<seq<Txn>>, vendorList: seq<string>): (table: seq<WideRow>)
    ensures |table| == |VendorLines(periods, vendorList)| + 1
    ensures table[..|table| - 1] == VendorLines(periods, vendorList)
    ensures table[|table| - 1] == CorrectedTotalRow(TotalLine(periods, vendorList), |periods|)
  {
    VendorLines(periods, vendorList) + [CorrectedTotalRow(TotalLine(periods, vendorList), |periods|)]
  }

  /** With the corrected Total line, a period's entries are its allow-listed
      Total Sales, its number of allow-listed rows, and their quotient: the
      average value per order over all vendors (missing when the period has
      no allow-listed rows). */
  lemma CorrectedPerOrderTotal(periods: seq<seq<Txn>>, vendorList: seq<string>, p: nat)
    requires p < |periods|
    ensures var total := CorrectedTotalRow(TotalLine(periods, vendorList), |periods|);
      var rows := AllowedRows(periods[p], vendorList);
      && total.name == TotalLabel
      && total.cells[p] == Some(TotalSales(rows))
      && total.cells[|periods| + p] == Some(|rows| as real)
      && total.cells[2 * |periods| + p] == if |rows| == 0 then None else Some(TotalSales(rows) / |rows| as real)
  {
    var rows := AllowedRows(periods[p], vendorList);
    RollupTotals(periods, vendorList, p);
    CorrectedTotalCells(TotalLine(periods, vendorList), |periods|, p, TotalSales(rows), |rows|);
  }

  /** The corrected Total line's entries for a period, given the sales and
      count entries of the Total line it corrects. */
  lemma CorrectedTotalCells(total: WideRow, n: nat, p: nat, sales: real, count: nat)
    requires |total.cells| == 3 * n && p < n
    requires total.cells[p] == Some(sales) && total.cells[n + p] == Some(count as real)
    ensures var r := CorrectedTotalRow(total, n);
      && r.name == TotalLabel
      && r.cells[p] == Some(sales)
      && r.cells[n + p] == Some(count as real)
      && r.cells[2 * n + p] == if count == 0 then None else Some(sales / count as real)
  {
  }

  /** The corrected table keeps the vendor lines; its last line is labelled
      Total and holds, for each period, the allow-listed Total Sales, the
      number of allow-listed rows and the average value per order over all
      of them (missing when the period has no allow-listed rows). */
  lemma CorrectedRollupContents(periods: seq<seq<Txn>>, vendorList: seq<string>)
    ensures CorrectedRollup(periods, vendorList) != [] && Rollup(periods, vendorList) != []
    ensures Init(CorrectedRollup(periods, vendorList)) == Init(Rollup(periods, vendorList))
    ensures Last(CorrectedRollup(periods, vendorList)).name == TotalLabel
    ensures |Last(CorrectedRollup(periods, vendorList)).cells| == 3 * |periods|
    ensures forall p :: 0 <= p < |periods| ==>
      var rows := AllowedRows(periods[p], vendorList);
      var total := Last(CorrectedRollup(periods, vendorList));
      && total.cells[p] == Some(TotalSales(rows))
      && total.cells[|periods| + p] == Some(|rows| as real)
      && total.cells[2 * |periods| + p] == if |rows| == 0 then None else Some(TotalSales(rows) / |rows| as real)
  {
    var total := CorrectedTotalRow(TotalLine(periods, vendorList), |periods|);
    assert Last(CorrectedRollup(periods, vendorList)) == total;
    assert Init(CorrectedRollup(periods, vendorList)) == VendorLines(periods, vendorList);
    assert Init(Rollup(periods, vendorList)) == VendorLines(periods, vendorList);
    forall p | 0 <= p < |periods|
      ensures total.cells[p] == Some(TotalSales(AllowedRows(periods[p], vendorList)))
      ensures total.cells[|periods| + p] == Some(|AllowedRows(periods[p], vendorList)| as real)
      ensures total.cells[2 * |periods| + p] ==
        var rows := AllowedRows(periods[p], vendorList);
        if |rows| == 0 then None else Some(TotalSales(rows) / |rows| as real)
    {
      CorrectedPerOrderTotal(periods, vendorList, p);
    }
  }
}
