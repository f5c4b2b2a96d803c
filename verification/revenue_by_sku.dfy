/** revenue_by_sku.py: the ten best-selling SKUs of the allow-listed vendors
    over the trailing 7, 30, 60 and 90 days before a given instant. */
module RevenueBySku {
  import opened Table
  import opened Aggregate
  import opened Ranking
  import opened TopSales

  /** The four tables of the report, one per trailing window. */
  datatype SkuReport = SkuReport(
    days7: seq<RankedRow<Group>>,
    days30: seq<RankedRow<Group>>,
    days60: seq<RankedRow<Group>>,
    days90: seq<RankedRow<Group>>)

  /** The allow-listed rows ordered strictly after `now` minus `days` days. */
  function WindowRows(data: seq<Txn>, vendorList: seq<string>, now: int, days: nat): (r: seq<Txn>)
    ensures forall t :: multiset(r)[t] ==
                        if t.vendor in vendorList && t.orderDate > now - days * SecondsPerDay then multiset(data)[t] else 0
  {
    InWindow(AllowedRows(data, vendorList), now, days)
  }

  /** The report: for each window, the top ten SKUs of that window's rows. */
  function Report(data: seq<Txn>, vendorList: seq<string>, now: int): (r: SkuReport)
    ensures |r.days7| <= TopCount && |r.days30| <= TopCount && |r.days60| <= TopCount && |r.days90| <= TopCount
  {
    var r := SkuReport(
      TopSkus(WindowRows(data, vendorList, now, 7)),
      TopSkus(WindowRows(data, vendorList, now, 30)),
      TopSkus(WindowRows(data, vendorList, now, 60)),
      TopSkus(WindowRows(data, vendorList, now, 90)));
    TopSkusSize(WindowRows(data, vendorList, now, 7));
    TopSkusSize(WindowRows(data, vendorList, now, 30));
    TopSkusSize(WindowRows(data, vendorList, now, 60));
    TopSkusSize(WindowRows(data, vendorList, now, 90));
    r
  }

  /** With a single `now`, the windows nest: the 7-day rows are among the
      30-day rows, those among the 60-day rows, those among the 90-day rows;
      and each shorter window is the longer one cut down to its length. */
  lemma ReportWindowsNest(data: seq<Txn>, vendorList: seq<string>, now: int)
    ensures multiset(WindowRows(data, vendorList, now, 7)) <= multiset(WindowRows(data, vendorList, now, 30))
    ensures multiset(WindowRows(data, vendorList, now, 30)) <= multiset(WindowRows(data, vendorList, now, 60))
    ensures multiset(WindowRows(data, vendorList, now, 60)) <= multiset(WindowRows(data, vendorList, now, 90))
    ensures WindowRows(data, vendorList, now, 7) == InWindow(WindowRows(data, vendorList, now, 30), now, 7)
    ensures WindowRows(data, vendorList, now, 30) == InWindow(WindowRows(data, vendorList, now, 60), now, 30)
    ensures WindowRows(data, vendorList, now, 60) == InWindow(WindowRows(data, vendorList, now, 90), now, 60)
  {
    var allowed := AllowedRows(data, vendorList);
    WindowsNest(allowed, now, 7, 30);
    WindowsNest(allowed, now, 30, 60);
    WindowsNest(allowed, now, 60, 90);
  }

  /** A window's aggregate has one row per distinct SKU of the window; the
      group sums add up to the window's Total Sales and the group counts to
      its number of rows. */
  lemma WindowAggregation(data: seq<Txn>, vendorList: seq<string>, now: int, days: nat)
    ensures |GroupBy(WindowRows(data, vendorList, now, days), Sku)| == |KeySet(WindowRows(data, vendorList, now, days), Sku)|
    ensures DistinctKeys(GroupBy(WindowRows(data, vendorList, now, days), Sku), GroupKey)
    ensures GroupsTotal(GroupBy(WindowRows(data, vendorList, now, days), Sku)) == TotalSales(WindowRows(data, vendorList, now, days))
    ensures GroupsCount(GroupBy(WindowRows(data, vendorList, now, days), Sku)) == |WindowRows(data, vendorList, now, days)|
  {
    GroupCount(WindowRows(data, vendorList, now, days), Sku);
  }
}
