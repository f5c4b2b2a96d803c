/** Group-by aggregation, `df.groupby(key)['Total Sales'].agg(['sum', 'count'])`:
    one row per distinct key with the sum of Total Sales and the row count. */
module Aggregate {
  import opened Table

  /** The column the rows are grouped by. */
  datatype KeyColumn = Sku | Vendor

  function KeyOf(col: KeyColumn, t: Txn): string {
    match col
    case Sku => t.sku
    case Vendor => t.vendor
  }

  /** The distinct key values of the rows. */
  function KeySet(rows: seq<Txn>, col: KeyColumn): set<string> {
    if rows == [] then {} else KeySet(Init(rows), col) + {KeyOf(col, Last(rows))}
  }

  /** Total Sales of the rows whose key is `k`. */
  function KeySum(rows: seq<Txn>, col: KeyColumn, k: string): Money {
    if rows == [] then 0.0
    else KeySum(Init(rows), col, k) + (if KeyOf(col, Last(rows)) == k then Last(rows).totalSales else 0.0)
  }

  /** Number of rows whose key is `k`. */
  function KeyCount(rows: seq<Txn>, col: KeyColumn, k: string): nat {
    if rows == [] then 0
    else KeyCount(Init(rows), col, k) + (if KeyOf(col, Last(rows)) == k then 1 else 0)
  }

  /** Appending a row adds its key, and adds its sales and one to its key's
      totals. */
  lemma KeysSnoc(rows: seq<Txn>, t: Txn, col: KeyColumn, k: string)
    ensures KeySet(rows + [t], col) == KeySet(rows, col) + {KeyOf(col, t)}
    ensures KeySum(rows + [t], col, k) == KeySum(rows, col, k) + (if KeyOf(col, t) == k then t.totalSales else 0.0)
    ensures KeyCount(rows + [t], col, k) == KeyCount(rows, col, k) + (if KeyOf(col, t) == k then 1 else 0)
    ensures TotalSales(rows + [t]) == TotalSales(rows) + t.totalSales
  {
    assert Init(rows + [t]) == rows;
  }

  /** A key is one of the rows' keys exactly when some row carries it, and
      then it is counted at least once. */
  lemma {:induction false} KeySetMembers(rows: seq<Txn>, col: KeyColumn, k: string)
    ensures k in KeySet(rows, col) <==> KeyCount(rows, col, k) >= 1
    ensures k in KeySet(rows, col) <==> exists t :: t in rows && KeyOf(col, t) == k
  {
    if rows != [] {
      KeySetMembers(Init(rows), col, k);
      assert rows == Init(rows) + [Last(rows)];
      if t :| t in rows && KeyOf(col, t) == k {
        assert t in Init(rows) || t == Last(rows);
      }
    }
  }

  /** One aggregate row: a key with its `sum` and `count`. */
  datatype Group = Group(key: string, sum: Money, count: nat)

  function GroupKey(g: Group): string {
    g.key
  }

  /** The sum column, the measure the sales rankings sort by. */
  function GroupSales(g: Group): real {
    g.sum
  }

  /** Sum of the `sum` column over the groups with key `k` (at most one when
      the keys are distinct). */
  function SumFor(gs: seq<Group>, k: string): Money {
    if gs == [] then 0.0 else (if gs[0].key == k then gs[0].sum else 0.0) + SumFor(gs[1..], k)
  }

  /** Sum of the `count` column over the groups with key `k`. */
  function CountFor(gs: seq<Group>, k: string): nat {
    if gs == [] then 0 else (if gs[0].key == k then gs[0].count else 0) + CountFor(gs[1..], k)
  }

  /** `agg['sum'].sum()` */
  function GroupsTotal(gs: seq<Group>): Money {
    if gs == [] then 0.0 else gs[0].sum + GroupsTotal(gs[1..])
  }

  /** `agg['count'].sum()` */
  function GroupsCount(gs: seq<Group>): nat {
    if gs == [] then 0 else gs[0].count + GroupsCount(gs[1..])
  }

  /** Adds one row with key `k` and sales `amount` to the groups: the group of
      `k` grows by the row, or a new group is appended for it. */
  function Accumulate(gs: seq<Group>, k: string, amount: Money): (r: seq<Group>)
    ensures KeysOf(r, GroupKey) == KeysOf(gs, GroupKey) + {k}
    ensures |r| == if k in KeysOf(gs, GroupKey) then |gs| else |gs| + 1
    ensures forall j :: SumFor(r, j) == SumFor(gs, j) + (if j == k then amount else 0.0)
    ensures forall j :: CountFor(r, j) == CountFor(gs, j) + (if j == k then 1 else 0)
    ensures GroupsTotal(r) == GroupsTotal(gs) + amount
    ensures GroupsCount(r) == GroupsCount(gs) + 1
    ensures (forall g :: g in gs ==> g.count >= 1) ==> forall g :: g in r ==> g.count >= 1
  {
    if gs == [] then [Group(k, amount, 1)]
    else if gs[0].key == k then [Group(k, gs[0].sum + amount, gs[0].count + 1)] + gs[1..]
    else [gs[0]] + Accumulate(gs[1..], k, amount)
  }

  lemma {:induction false} AccumulateDistinct(gs: seq<Group>, k: string, amount: Money)
    requires DistinctKeys(gs, GroupKey)
    ensures DistinctKeys(Accumulate(gs, k, amount), GroupKey)
  {
    var r := Accumulate(gs, k, amount);
    if gs == [] {
    } else if gs[0].key == k {
      DistinctKeysCons(gs, GroupKey);
      assert r[1..] == gs[1..];
      DistinctKeysCons(r, GroupKey);
    } else {
      DistinctKeysCons(gs, GroupKey);
      AccumulateDistinct(gs[1..], k, amount);
      assert r[1..] == Accumulate(gs[1..], k, amount);
      DistinctKeysCons(r, GroupKey);
    }
  }

  /** `groupby(col)['Total Sales'].agg(['sum', 'count'])`, groups in order of
      first appearance. Exactly one group per distinct key; the groups' sums
      and counts are the key's Total Sales and row count; together they add up
      to the rows' Total Sales and number of rows. */
  function GroupBy(rows: seq<Txn>, col: KeyColumn): (r: seq<Group>)
    ensures DistinctKeys(r, GroupKey)
    ensures KeysOf(r, GroupKey) == KeySet(rows, col)
    ensures forall k :: SumFor(r, k) == KeySum(rows, col, k)
    ensures forall k :: CountFor(r, k) == KeyCount(rows, col, k)
    ensures forall g :: g in r ==> g.count >= 1
    ensures GroupsTotal(r) == TotalSales(rows)
    ensures GroupsCount(r) == |rows|
  {
    if rows == [] then []
    else
      var prev := GroupBy(Init(rows), col);
      AccumulateDistinct(prev, KeyOf(col, Last(rows)), Last(rows).totalSales);
      Accumulate(prev, KeyOf(col, Last(rows)), Last(rows).totalSales)
  }

  /** A key that no group carries has nothing summed or counted for it. */
  lemma {:induction false} AbsentKey(gs: seq<Group>, k: string)
    requires k !in KeysOf(gs, GroupKey)
    ensures SumFor(gs, k) == 0.0 && CountFor(gs, k) == 0
  {
    if gs != [] {
      AbsentKey(gs[1..], k);
    }
  }

  /** With distinct keys, the totals for a group's key are that group's. */
  lemma {:induction false} GroupOfKey(gs: seq<Group>, g: Group)
    requires DistinctKeys(gs, GroupKey)
    requires g in gs
    ensures SumFor(gs, g.key) == g.sum && CountFor(gs, g.key) == g.count
  {
    DistinctKeysCons(gs, GroupKey);
    if gs[0] == g {
      AbsentKey(gs[1..], g.key);
    } else {
      GroupOfKey(gs[1..], g);
    }
  }

  /** Each aggregate row holds its key's Total Sales and row count, and that
      key occurs in the rows at least once. */
  lemma GroupRow(rows: seq<Txn>, col: KeyColumn, g: Group)
    requires g in GroupBy(rows, col)
    ensures g.key in KeySet(rows, col)
    ensures g.sum == KeySum(rows, col, g.key)
    ensures g.count == KeyCount(rows, col, g.key) >= 1
  {
    var gs := GroupBy(rows, col);
    GroupOfKey(gs, g);
    var i :| 0 <= i < |gs| && gs[i] == g;
    KeyInKeys(gs, GroupKey, i);
  }

  /** A key the rows carry that a selection of their groups leaves out has
      its group among the groups left out. */
  lemma LeftOutGroup(rows: seq<Txn>, col: KeyColumn, chosen: seq<Group>, k: string)
    requires multiset(chosen) <= multiset(GroupBy(rows, col))
    requires k in KeySet(rows, col) && k !in KeysOf(chosen, GroupKey)
    ensures Group(k, KeySum(rows, col, k), KeyCount(rows, col, k)) in multiset(GroupBy(rows, col)) - multiset(chosen)
  {
    var gs := GroupBy(rows, col);
    var p := KeyPosition(gs, GroupKey, k);
    GroupRow(rows, col, gs[p]);
    if gs[p] in chosen {
      var q :| 0 <= q < |chosen| && chosen[q] == gs[p];
      KeyInKeys(chosen, GroupKey, q);
    }
    assert gs[p] in multiset(gs);
  }

  /** There are exactly as many groups as distinct keys. */
  lemma GroupCount(rows: seq<Txn>, col: KeyColumn)
    ensures |GroupBy(rows, col)| == |KeySet(rows, col)|
  {
    DistinctKeysCount(GroupBy(rows, col), GroupKey);
  }

  /** The first group with key `k`, if any. */
  function Lookup(gs: seq<Group>, k: string): (r: Option<Group>)
    ensures r.Some? <==> k in KeysOf(gs, GroupKey)
    ensures r.Some? ==> r.value in gs && r.value.key == k
  {
    if gs == [] then None
    else if gs[0].key == k then Some(gs[0])
    else Lookup(gs[1..], k)
  }

  /** Looking a key up in an aggregate finds its group exactly when some row
      carries the key, and that group holds the key's sum and count. */
  lemma LookupGroupBy(rows: seq<Txn>, col: KeyColumn, k: string)
    ensures Lookup(GroupBy(rows, col), k) ==
      if k in KeySet(rows, col) then Some(Group(k, KeySum(rows, col, k), KeyCount(rows, col, k))) else None
  {
    var r := Lookup(GroupBy(rows, col), k);
    if r.Some? {
      GroupRow(rows, col, r.value);
    }
  }
}
