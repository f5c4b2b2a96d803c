/** The "top 10 sales" table both SKU reports build:
    `df.groupby('Sku')[sales].agg(['sum', 'count']).sort_values(by='sum',
    ascending=False)[:10]`, renamed, with a 1-based index. */
module TopSales {
  import opened Table
  import opened Aggregate
  import opened Ranking

  /** The ten best-selling SKUs of the rows, numbered from 1. */
  function TopSkus(rows: seq<Txn>): seq<RankedRow<Group>> {
    Numbered(Top(GroupBy(rows, Sku), GroupSales, Descending, TopCount))
  }

  /** The table has `min(10, number of distinct SKUs)` rows, numbered
      1..N, and each row is a SKU's aggregate: its Total Sales and row count. */
  lemma TopSkusRows(rows: seq<Txn>)
    ensures |TopSkus(rows)| == Min(TopCount, |KeySet(rows, Sku)|)
    ensures forall i :: 0 <= i < |TopSkus(rows)| ==>
      var g := TopSkus(rows)[i].row;
      && TopSkus(rows)[i].rank == i + 1
      && g.key in KeySet(rows, Sku)
      && g.sum == KeySum(rows, Sku, g.key)
      && g.count == KeyCount(rows, Sku, g.key)
  {
    var gs := GroupBy(rows, Sku);
    var top := Top(gs, GroupSales, Descending, TopCount);
    var t := TopSkus(rows);
    GroupCount(rows, Sku);
    TopSelects(gs, GroupSales, Descending, TopCount);
    forall i | 0 <= i < |t|
      ensures t[i].row.key in KeySet(rows, Sku)
      ensures t[i].row.sum == KeySum(rows, Sku, t[i].row.key)
      ensures t[i].row.count == KeyCount(rows, Sku, t[i].row.key)
    {
      assert t[i].row == top[i];
      assert top[i] in multiset(top);
      GroupRow(rows, Sku, t[i].row);
    }
  }

  /** The table has at most ten rows. */
  lemma TopSkusSize(rows: seq<Txn>)
    ensures |TopSkus(rows)| <= TopCount
  {
    TopSelects(GroupBy(rows, Sku), GroupSales, Descending, TopCount);
  }

  /** Sales do not increase down the table. */
  lemma TopSkusOrdered(rows: seq<Txn>)
    ensures forall i, j :: 0 <= i < j < |TopSkus(rows)| ==>
      TopSkus(rows)[i].row.sum >= TopSkus(rows)[j].row.sum
  {
    var gs := GroupBy(rows, Sku);
    var top := Top(gs, GroupSales, Descending, TopCount);
    var t := TopSkus(rows);
    NumberedRows(top);
    TopSelects(gs, GroupSales, Descending, TopCount);
    forall i, j | 0 <= i < j < |t| ensures t[i].row.sum >= t[j].row.sum {
      assert t[i].row == top[i] && t[j].row == top[j];
      assert InOrder(Descending, GroupSales(top[i]), GroupSales(top[j]));
    }
  }

  /** No SKU is listed twice. */
  lemma TopSkusDistinct(rows: seq<Txn>)
    ensures DistinctKeys(Rows(TopSkus(rows)), GroupKey)
  {
    var gs := GroupBy(rows, Sku);
    NumberedRows(Top(gs, GroupSales, Descending, TopCount));
    SortDistinct(gs, GroupSales, Descending, GroupKey);
    SliceDistinct(Sort(gs, GroupSales, Descending), GroupKey, 0, Min(TopCount, |gs|));
  }

  /** Every listed SKU sold at least as much as every SKU left out. */
  lemma TopSkusDominate(rows: seq<Txn>)
    ensures forall i, k :: 0 <= i < |TopSkus(rows)| && k in KeySet(rows, Sku) && k !in KeysOf(Rows(TopSkus(rows)), GroupKey) ==>
      TopSkus(rows)[i].row.sum >= KeySum(rows, Sku, k)
  {
    var gs := GroupBy(rows, Sku);
    var top := Top(gs, GroupSales, Descending, TopCount);
    var t := TopSkus(rows);
    NumberedRows(top);
    TopSelects(gs, GroupSales, Descending, TopCount);
    forall i, k | 0 <= i < |t| && k in KeySet(rows, Sku) && k !in KeysOf(top, GroupKey)
      ensures t[i].row.sum >= KeySum(rows, Sku, k)
    {
      var g := Group(k, KeySum(rows, Sku, k), KeyCount(rows, Sku, k));
      LeftOutGroup(rows, Sku, top, k);
      assert top[i] in top;
      assert InOrder(Descending, GroupSales(top[i]), GroupSales(g));
    }
  }
}
