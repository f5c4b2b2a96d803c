/** revenue_by_vendors.py: for every vendor, compare the SKUs sold in the
    previous month (November) with those sold in the current month
    (December): SKU movers, top sellers, and a summary line of counts, sales
    and churn/growth/overall rates. */
module RevenueByVendors {
  import opened Table
  import opened Aggregate
  import opened Ranking
  import opened TopSales

  /** A row of the inner join of the December and November per-SKU
      aggregates, with the `diff` column added. */
  datatype OverlapRow = OverlapRow(sku: string, salesDec: Money, countDec: nat, salesNov: Money, countNov: nat, diff: Money)

  function OverlapKey(o: OverlapRow): string {
    o.sku
  }

  /** The `diff` column, the measure the movers tables sort by. */
  function Diff(o: OverlapRow): real {
    o.diff
  }

  /** `pd.merge(dec, nov, how='inner', on='Sku')` followed by
      `diff = sales_dec - sales_nov`; rows follow the December table. The
      joined SKUs are exactly those of both months, each row pairing a
      December aggregate row with the November one of the same SKU. */
  function InnerJoin(dec: seq<Group>, nov: seq<Group>): (r: seq<OverlapRow>)
    ensures |r| <= |dec|
    ensures KeysOf(r, OverlapKey) == KeysOf(dec, GroupKey) * KeysOf(nov, GroupKey)
    ensures forall o :: o in r ==>
      && Group(o.sku, o.salesDec, o.countDec) in dec
      && Group(o.sku, o.salesNov, o.countNov) in nov
      && o.diff == o.salesDec - o.salesNov
  {
    if dec == [] then []
    else
      var rest := InnerJoin(dec[1..], nov);
      match Lookup(nov, dec[0].key)
      case None => rest
      case Some(p) =>
        var row := OverlapRow(dec[0].key, dec[0].sum, dec[0].count, p.sum, p.count, dec[0].sum - p.sum);
        assert ([row] + rest)[1..] == rest;
        [row] + rest
  }

  /** Joining tables whose SKUs are distinct gives distinct SKUs. */
  lemma {:induction false} JoinDistinct(dec: seq<Group>, nov: seq<Group>)
    requires DistinctKeys(dec, GroupKey)
    ensures DistinctKeys(InnerJoin(dec, nov), OverlapKey)
  {
    if dec != [] {
      DistinctKeysCons(dec, GroupKey);
      JoinDistinct(dec[1..], nov);
      var r := InnerJoin(dec, nov);
      if r != InnerJoin(dec[1..], nov) {
        assert r[1..] == InnerJoin(dec[1..], nov);
        DistinctKeysCons(r, OverlapKey);
      }
    }
  }

  /** There are no more overlapped SKUs than November SKUs. */
  lemma JoinBound(dec: seq<Group>, nov: seq<Group>)
    requires DistinctKeys(dec, GroupKey) && DistinctKeys(nov, GroupKey)
    ensures |InnerJoin(dec, nov)| <= |nov|
  {
    var r := InnerJoin(dec, nov);
    JoinDistinct(dec, nov);
    DistinctKeysCount(r, OverlapKey);
    DistinctKeysCount(nov, GroupKey);
    assert KeysOf(r, OverlapKey) <= KeysOf(nov, GroupKey);
    SubsetCard(KeysOf(r, OverlapKey), KeysOf(nov, GroupKey));
  }

  lemma {:induction false} SubsetCard(a: set<string>, b: set<string>)
    requires a <= b
    ensures |a| <= |b|
  {
    if a != {} {
      var x :| x in a;
      SubsetCard(a - {x}, b - {x});
    }
  }

  /** `overlap_data['sales_dec'].sum()` */
  function SumDec(r: seq<OverlapRow>): Money {
    if r == [] then 0.0 else r[0].salesDec + SumDec(r[1..])
  }

  /** `overlap_data['sales_nov'].sum()` */
  function SumNov(r: seq<OverlapRow>): Money {
    if r == [] then 0.0 else r[0].salesNov + SumNov(r[1..])
  }

  /** `overlap_data['diff'].sum()` */
  function SumDiff(r: seq<OverlapRow>): Money {
    if r == [] then 0.0 else r[0].diff + SumDiff(r[1..])
  }

  /** Total sales of the aggregate rows whose SKU is not in `keys`. */
  function SalesNotIn(gs: seq<Group>, keys: set<string>): Money {
    if gs == [] then 0.0 else (if gs[0].key in keys then 0.0 else gs[0].sum) + SalesNotIn(gs[1..], keys)
  }

  /** The total difference of the overlapped items is their December sales
      minus their November sales. */
  lemma {:induction false} DiffTotal(r: seq<OverlapRow>)
    requires forall o :: o in r ==> o.diff == o.salesDec - o.salesNov
    ensures SumDiff(r) == SumDec(r) - SumNov(r)
  {
    if r != [] {
      assert r[0] in r;
      DiffTotal(r[1..]);
    }
  }

  /** December sales split into the overlapped SKUs' sales and the sales of
      the SKUs that November does not have. */
  lemma {:induction false} DecemberSplit(dec: seq<Group>, nov: seq<Group>)
    ensures GroupsTotal(dec) == SumDec(InnerJoin(dec, nov)) + SalesNotIn(dec, KeysOf(nov, GroupKey))
  {
    if dec != [] {
      DecemberSplit(dec[1..], nov);
      var rest := InnerJoin(dec[1..], nov);
      var r := InnerJoin(dec, nov);
      if r != rest {
        assert r[1..] == rest;
      }
    }
  }

  /** Churn, growth and overall rates. */
  datatype Rates = Rates(churn: real, growth: real, overall: real)

  /** The three rates against the previous month's SKU count, and all three
      exactly 0 when the previous month has no SKUs. Churn is the share of
      previous SKUs not sold again, growth the number of new SKUs per previous
      SKU, and overall the relative change in SKU count, which is growth
      minus churn. */
  function ComputeRates(prevQty: nat, curQty: nat, overlapQty: nat): (r: Rates)
    ensures prevQty == 0 ==> r == Rates(0.0, 0.0, 0.0)
    ensures prevQty != 0 ==> r.churn * prevQty as real == (prevQty - overlapQty) as real
    ensures prevQty != 0 ==> r.growth * prevQty as real == (curQty - overlapQty) as real
    ensures prevQty != 0 ==> r.overall * prevQty as real == (curQty - prevQty) as real
    ensures prevQty != 0 ==> r.overall == r.growth - r.churn
    ensures prevQty != 0 && overlapQty <= prevQty ==> 0.0 <= r.churn <= 1.0
    ensures prevQty != 0 && overlapQty <= curQty ==> r.growth >= 0.0
  {
    if prevQty != 0 then
      var p := prevQty as real;
      Rates((prevQty - overlapQty) as real / p, (curQty - overlapQty) as real / p, (curQty - prevQty) as real / p)
    else
      Rates(0.0, 0.0, 0.0)
  }

  /** One line of the per-vendor summary file (`business_data`). */
  datatype VendorSummary = VendorSummary(
    vendor: string,
    prevSales: Money,
    curSales: Money,
    prevSkus: nat,
    curSkus: nat,
    overlapSkus: nat,
    newSkus: int,
    churnRate: real,
    growthRate: real,
    overallRate: real)

  /** The four tables of a vendor's worksheet. */
  datatype VendorSheet = VendorSheet(
    topNegative: seq<RankedRow<OverlapRow>>,
    topPositive: seq<RankedRow<OverlapRow>>,
    topSalesNov: seq<RankedRow<Group>>,
    topSalesDec: seq<RankedRow<Group>>)

  /** The figures the loop body computes for one vendor's summary line. */
  datatype VendorAnalysis = VendorAnalysis(
    overlap: seq<OverlapRow>,
    overlapItemSales: Money,
    newItemSales: Money,
    breakevenOverlapItems: Money,
    summary: VendorSummary)

  /** The vendor's per-SKU aggregate for one month. */
  function MonthAggregate(month: seq<Txn>, v: string): seq<Group> {
    GroupBy(VendorRows(month, v), Sku)
  }

  /** The overlapped SKUs of a vendor. */
  function Overlap(nov: seq<Txn>, dec: seq<Txn>, v: string): seq<OverlapRow> {
    InnerJoin(MonthAggregate(dec, v), MonthAggregate(nov, v))
  }

  /** The ten most negative movers, in ascending `diff` order. */
  function NegativeMovers(overlap: seq<OverlapRow>): seq<OverlapRow> {
    Top(overlap, Diff, Ascending, TopCount)
  }

  /** The last ten rows of the ascending `diff` order, re-sorted descending. */
  function PositiveMovers(overlap: seq<OverlapRow>): seq<OverlapRow> {
    Sort(Bottom(overlap, Diff, Ascending, TopCount), Diff, Descending)
  }

  /** The worksheet the loop body writes for vendor `v`: the overlap's ten
      most negative and ten most positive movers and each month's ten
      best-selling SKUs. */
  function VendorSheetOf(nov: seq<Txn>, dec: seq<Txn>, v: string): VendorSheet {
    var overlap := Overlap(nov, dec, v);
    VendorSheet(
      Numbered(NegativeMovers(overlap)),
      Numbered(PositiveMovers(overlap)),
      TopSkus(VendorRows(nov, v)),
      TopSkus(VendorRows(dec, v)))
  }

  /** The figures the loop body computes for vendor `v`. */
  function AnalyzeVendor(nov: seq<Txn>, dec: seq<Txn>, v: string): (a: VendorAnalysis)
    ensures a.summary.vendor == v
  {
    var novAgg := MonthAggregate(nov, v);
    var decAgg := MonthAggregate(dec, v);
    var overlap := InnerJoin(decAgg, novAgg);
    var novSales, decSales := GroupsTotal(novAgg), GroupsTotal(decAgg);
    var overlapItemSales := SumDec(overlap);
    var prevQty, curQty, overlapQty := |novAgg|, |decAgg|, |overlap|;
    var rates := ComputeRates(prevQty, curQty, overlapQty);
    VendorAnalysis(
      overlap, overlapItemSales, decSales - overlapItemSales, SumDiff(overlap),
      VendorSummary(v, novSales, decSales, prevQty, curQty, overlapQty, curQty - overlapQty,
                    rates.churn, rates.growth, rates.overall))
  }

  /** The month sales are the Total Sales of the vendor's rows of that month,
      and the SKU counts are the numbers of distinct SKUs it sold. */
  lemma MonthTotals(nov: seq<Txn>, dec: seq<Txn>, v: string)
    ensures AnalyzeVendor(nov, dec, v).summary.prevSales == TotalSales(VendorRows(nov, v))
    ensures AnalyzeVendor(nov, dec, v).summary.curSales == TotalSales(VendorRows(dec, v))
    ensures AnalyzeVendor(nov, dec, v).summary.prevSkus == |KeySet(VendorRows(nov, v), Sku)|
    ensures AnalyzeVendor(nov, dec, v).summary.curSkus == |KeySet(VendorRows(dec, v), Sku)|
  {
    GroupCount(VendorRows(nov, v), Sku);
    GroupCount(VendorRows(dec, v), Sku);
  }

  /** The overlap holds exactly the SKUs the vendor sold in both months,
      once each, with each month's Total Sales and row count of the SKU and
      their difference. */
  lemma OverlapRows(nov: seq<Txn>, dec: seq<Txn>, v: string)
    ensures KeysOf(Overlap(nov, dec, v), OverlapKey) == KeySet(VendorRows(dec, v), Sku) * KeySet(VendorRows(nov, v), Sku)
    ensures DistinctKeys(Overlap(nov, dec, v), OverlapKey)
    ensures forall o :: o in Overlap(nov, dec, v) ==>
      && o.salesDec == KeySum(VendorRows(dec, v), Sku, o.sku)
      && o.countDec == KeyCount(VendorRows(dec, v), Sku, o.sku)
      && o.salesNov == KeySum(VendorRows(nov, v), Sku, o.sku)
      && o.countNov == KeyCount(VendorRows(nov, v), Sku, o.sku)
      && o.diff == o.salesDec - o.salesNov
  {
    var decRows, novRows := VendorRows(dec, v), VendorRows(nov, v);
    JoinDistinct(MonthAggregate(dec, v), MonthAggregate(nov, v));
    forall o | o in Overlap(nov, dec, v)
      ensures o.salesDec == KeySum(decRows, Sku, o.sku) && o.countDec == KeyCount(decRows, Sku, o.sku)
      ensures o.salesNov == KeySum(novRows, Sku, o.sku) && o.countNov == KeyCount(novRows, Sku, o.sku)
    {
      GroupRow(decRows, Sku, Group(o.sku, o.salesDec, o.countDec));
      GroupRow(novRows, Sku, Group(o.sku, o.salesNov, o.countNov));
    }
  }

  /** An overlap row whose SKU is not among the rows of a selection is one
      of the rows the selection leaves out. */
  lemma LeftOut(overlap: seq<OverlapRow>, chosen: seq<OverlapRow>, o: OverlapRow)
    requires o in overlap
    requires o.sku !in KeysOf(chosen, OverlapKey)
    ensures o in multiset(overlap) - multiset(chosen)
  {
    if o in chosen {
      var q :| 0 <= q < |chosen| && chosen[q] == o;
      KeyInKeys(chosen, OverlapKey, q);
    }
  }

  /** `top10_negative`: `min(10, |overlap|)` overlap rows numbered 1..N in
      ascending `diff` order, none of them excluded rows' superior: every
      listed diff is at most every unlisted overlapped SKU's diff. */
  lemma NegativeMoversSelect(overlap: seq<OverlapRow>)
    ensures |Numbered(NegativeMovers(overlap))| == Min(TopCount, |overlap|)
    ensures forall i :: 0 <= i < |Numbered(NegativeMovers(overlap))| ==>
      Numbered(NegativeMovers(overlap))[i].rank == i + 1 && Numbered(NegativeMovers(overlap))[i].row in overlap
    ensures forall i, j :: 0 <= i < j < |NegativeMovers(overlap)| ==> NegativeMovers(overlap)[i].diff <= NegativeMovers(overlap)[j].diff
    ensures forall x, o :: x in NegativeMovers(overlap) && o in overlap && o.sku !in KeysOf(NegativeMovers(overlap), OverlapKey) ==>
      x.diff <= o.diff
    ensures multiset(NegativeMovers(overlap)) <= multiset(overlap)
    ensures DistinctKeys(overlap, OverlapKey) ==> DistinctKeys(NegativeMovers(overlap), OverlapKey)
  {
    NegativeMoversRanked(overlap);
    NegativeMoversDominate(overlap);
    NegativeMoversKept(overlap);
  }

  lemma NegativeMoversRanked(overlap: seq<OverlapRow>)
    ensures |Numbered(NegativeMovers(overlap))| == Min(TopCount, |overlap|)
    ensures forall i :: 0 <= i < |Numbered(NegativeMovers(overlap))| ==>
      Numbered(NegativeMovers(overlap))[i].rank == i + 1 && Numbered(NegativeMovers(overlap))[i].row in overlap
    ensures forall i, j :: 0 <= i < j < |NegativeMovers(overlap)| ==> NegativeMovers(overlap)[i].diff <= NegativeMovers(overlap)[j].diff
  {
    var neg := NegativeMovers(overlap);
    TopSelects(overlap, Diff, Ascending, TopCount);
    forall i | 0 <= i < |neg| ensures neg[i] in overlap {
      assert neg[i] in multiset(neg);
    }
    forall i, j | 0 <= i < j < |neg| ensures neg[i].diff <= neg[j].diff {
      assert InOrder(Ascending, Diff(neg[i]), Diff(neg[j]));
    }
  }

  lemma NegativeMoversDominate(overlap: seq<OverlapRow>)
    ensures forall x, o :: x in NegativeMovers(overlap) && o in overlap && o.sku !in KeysOf(NegativeMovers(overlap), OverlapKey) ==>
      x.diff <= o.diff
  {
    var neg := NegativeMovers(overlap);
    TopSelects(overlap, Diff, Ascending, TopCount);
    forall x, o | x in neg && o in overlap && o.sku !in KeysOf(neg, OverlapKey) ensures x.diff <= o.diff {
      LeftOut(overlap, neg, o);
      assert InOrder(Ascending, Diff(x), Diff(o));
    }
  }

  lemma NegativeMoversKept(overlap: seq<OverlapRow>)
    ensures multiset(NegativeMovers(overlap)) <= multiset(overlap)
    ensures DistinctKeys(overlap, OverlapKey) ==> DistinctKeys(NegativeMovers(overlap), OverlapKey)
  {
    TopSelects(overlap, Diff, Ascending, TopCount);
    if DistinctKeys(overlap, OverlapKey) {
      TopDistinct(overlap, Diff, Ascending, TopCount, OverlapKey);
    }
  }

  /** `top10_positive`: `min(10, |overlap|)` overlap rows numbered 1..N in
      descending `diff` order, the largest diffs: every listed diff is at
      least every unlisted overlapped SKU's diff. */
  lemma PositiveMoversSelect(overlap: seq<OverlapRow>)
    ensures |Numbered(PositiveMovers(overlap))| == Min(TopCount, |overlap|)
    ensures forall i :: 0 <= i < |Numbered(PositiveMovers(overlap))| ==>
      Numbered(PositiveMovers(overlap))[i].rank == i + 1 && Numbered(PositiveMovers(overlap))[i].row in overlap
    ensures forall i, j :: 0 <= i < j < |PositiveMovers(overlap)| ==> PositiveMovers(overlap)[i].diff >= PositiveMovers(overlap)[j].diff
    ensures forall x, o :: x in PositiveMovers(overlap) && o in overlap && o.sku !in KeysOf(PositiveMovers(overlap), OverlapKey) ==>
      x.diff >= o.diff
    ensures multiset(PositiveMovers(overlap)) <= multiset(overlap)
    ensures DistinctKeys(overlap, OverlapKey) ==> DistinctKeys(PositiveMovers(overlap), OverlapKey)
  {
    PositiveMoversRanked(overlap);
    PositiveMoversDominate(overlap);
    PositiveMoversKept(overlap);
  }

  lemma PositiveMoversRanked(overlap: seq<OverlapRow>)
    ensures |Numbered(PositiveMovers(overlap))| == Min(TopCount, |overlap|)
    ensures forall i :: 0 <= i < |Numbered(PositiveMovers(overlap))| ==>
      Numbered(PositiveMovers(overlap))[i].rank == i + 1 && Numbered(PositiveMovers(overlap))[i].row in overlap
    ensures forall i, j :: 0 <= i < j < |PositiveMovers(overlap)| ==> PositiveMovers(overlap)[i].diff >= PositiveMovers(overlap)[j].diff
  {
    var b := Bottom(overlap, Diff, Ascending, TopCount);
    var pos := PositiveMovers(overlap);
    BottomSelects(overlap, Diff, Ascending, TopCount);
    forall i | 0 <= i < |pos| ensures pos[i] in overlap {
      assert pos[i] in multiset(pos);
      assert pos[i] in multiset(b);
    }
    forall i, j | 0 <= i < j < |pos| ensures pos[i].diff >= pos[j].diff {
      assert InOrder(Descending, Diff(pos[i]), Diff(pos[j]));
    }
  }

  lemma PositiveMoversDominate(overlap: seq<OverlapRow>)
    ensures forall x, o :: x in PositiveMovers(overlap) && o in overlap && o.sku !in KeysOf(PositiveMovers(overlap), OverlapKey) ==>
      x.diff >= o.diff
  {
    var b := Bottom(overlap, Diff, Ascending, TopCount);
    var pos := PositiveMovers(overlap);
    BottomSelects(overlap, Diff, Ascending, TopCount);
    forall x, o | x in pos && o in overlap && o.sku !in KeysOf(pos, OverlapKey) ensures x.diff >= o.diff {
      LeftOut(overlap, pos, o);
      assert x in multiset(pos);
      assert x in b;
      assert InOrder(Ascending, Diff(o), Diff(x));
    }
  }

  lemma PositiveMoversKept(overlap: seq<OverlapRow>)
    ensures multiset(PositiveMovers(overlap)) <= multiset(overlap)
    ensures DistinctKeys(overlap, OverlapKey) ==> DistinctKeys(PositiveMovers(overlap), OverlapKey)
  {
    var b := Bottom(overlap, Diff, Ascending, TopCount);
    BottomSelects(overlap, Diff, Ascending, TopCount);
    if DistinctKeys(overlap, OverlapKey) {
      BottomDistinct(overlap, Diff, Ascending, TopCount, OverlapKey);
      SortDistinct(b, Diff, Descending, OverlapKey);
    }
  }

  /** With at most ten overlapped SKUs both movers tables list all of them
      (in opposite orders), so they share every row. */
  lemma FewOverlapsShared(overlap: seq<OverlapRow>)
    requires |overlap| <= TopCount
    ensures multiset(NegativeMovers(overlap)) == multiset(overlap)
    ensures multiset(PositiveMovers(overlap)) == multiset(overlap)
  {
    var t := Sort(overlap, Diff, Ascending);
    assert t[..|overlap|] == t;
    assert t[0..] == t;
  }

  /** Counts and sales of the summary: the overlap count is bounded by both
      months' SKU counts; the new SKUs are the current SKUs not overlapped;
      new-item sales are the December sales less the overlapped items' and
      equal the December sales of SKUs November does not have; the total
      difference of the overlapped items is their change in sales. */
  lemma CountsAndSales(nov: seq<Txn>, dec: seq<Txn>, v: string)
    ensures var s := AnalyzeVendor(nov, dec, v).summary;
      0 <= s.overlapSkus <= Min(s.prevSkus, s.curSkus) && s.newSkus == s.curSkus - s.overlapSkus >= 0
    ensures var a := AnalyzeVendor(nov, dec, v);
      && a.newItemSales == a.summary.curSales - a.overlapItemSales
      && a.newItemSales == SalesNotIn(MonthAggregate(dec, v), KeySet(VendorRows(nov, v), Sku))
      && a.overlapItemSales == SumDec(a.overlap)
      && a.breakevenOverlapItems == SumDec(a.overlap) - SumNov(a.overlap)
  {
    var novAgg, decAgg := MonthAggregate(nov, v), MonthAggregate(dec, v);
    JoinBound(decAgg, novAgg);
    DecemberSplit(decAgg, novAgg);
    DiffTotal(InnerJoin(decAgg, novAgg));
  }

  /** The summary's rates: all three exactly 0 without previous SKUs;
      otherwise churn lies in [0, 1], growth is not negative, and overall is
      growth minus churn. */
  lemma VendorRates(nov: seq<Txn>, dec: seq<Txn>, v: string)
    ensures var s := AnalyzeVendor(nov, dec, v).summary;
      s.prevSkus == 0 ==> s.churnRate == 0.0 && s.growthRate == 0.0 && s.overallRate == 0.0
    ensures var s := AnalyzeVendor(nov, dec, v).summary;
      s.prevSkus != 0 ==>
        && 0.0 <= s.churnRate <= 1.0
        && s.growthRate >= 0.0
        && s.overallRate == s.growthRate - s.churnRate
  {
    CountsAndSales(nov, dec, v);
  }

  /** The summary lines of the vendors `vs`, in order: one per vendor. */
  function Summaries(nov: seq<Txn>, dec: seq<Txn>, vs: seq<string>): (r: seq<VendorSummary>)
    ensures |r| == |vs|
  {
    if vs == [] then [] else Summaries(nov, dec, Init(vs)) + [AnalyzeVendor(nov, dec, Last(vs)).summary]
  }

  /** The worksheets of the vendors `vs`, in order: one per vendor. */
  function Sheets(nov: seq<Txn>, dec: seq<Txn>, vs: seq<string>): (r: seq<VendorSheet>)
    ensures |r| == |vs|
  {
    if vs == [] then [] else Sheets(nov, dec, Init(vs)) + [VendorSheetOf(nov, dec, Last(vs))]
  }

  /** The `i`-th summary line and worksheet are those of the `i`-th vendor. */
  lemma {:induction false} PerVendor(nov: seq<Txn>, dec: seq<Txn>, vs: seq<string>, i: nat)
    requires i < |vs|
    ensures Summaries(nov, dec, vs)[i] == AnalyzeVendor(nov, dec, vs[i]).summary
    ensures Summaries(nov, dec, vs)[i].vendor == vs[i]
    ensures Sheets(nov, dec, vs)[i] == VendorSheetOf(nov, dec, vs[i])
  {
    if i < |vs| - 1 {
      PerVendor(nov, dec, Init(vs), i);
    }
  }

  /** One more vendor of the list adds its worksheet and its summary line at
      the end. */
  lemma AppendVendor(nov: seq<Txn>, dec: seq<Txn>, vs: seq<string>, i: nat)
    requires i < |vs|
    ensures Sheets(nov, dec, vs[..i + 1]) == Sheets(nov, dec, vs[..i]) + [VendorSheetOf(nov, dec, vs[i])]
    ensures Summaries(nov, dec, vs[..i + 1]) == Summaries(nov, dec, vs[..i]) + [AnalyzeVendor(nov, dec, vs[i]).summary]
  {
    assert Init(vs[..i + 1]) == vs[..i];
  }

  /** The loop over `vendor_list`: a worksheet and a summary line
      (`info_list.append(business_data)`) for each vendor, in list order. */
  method AnalyzeAllVendors(nov: seq<Txn>, dec: seq<Txn>, vendorList: seq<string>)
    returns (sheets: seq<VendorSheet>, infoList: seq<VendorSummary>)
    ensures sheets == Sheets(nov, dec, vendorList)
    ensures infoList == Summaries(nov, dec, vendorList)
  {
    sheets, infoList := [], [];
    for i := 0 to |vendorList|
      invariant sheets == Sheets(nov, dec, vendorList[..i])
      invariant infoList == Summaries(nov, dec, vendorList[..i])
    {
      AppendVendor(nov, dec, vendorList, i);
      sheets := sheets + [VendorSheetOf(nov, dec, vendorList[i])];
      infoList := infoList + [AnalyzeVendor(nov, dec, vendorList[i]).summary];
    }
    assert vendorList[..|vendorList|] == vendorList;
  }
}
