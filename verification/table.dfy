/** Transaction rows, the row filters the three reports apply to them, and
    sequences of rows that carry a string key (SKU or vendor). */
module Table {

  /** A currency amount (the Total Sales column), kept exact. */
  type Money = real

  datatype Option<T> = None | Some(value: T)

  /** One sale, reduced to the columns the reports read: Sku, the fulfillment
      channel name (the vendor), the order date as a timestamp in seconds,
      and Total Sales. */
  datatype Txn = Txn(sku: string, vendor: string, orderDate: int, totalSales: Money)

  const SecondsPerDay: int := 86400

  /** The boolean masks the reports select rows with. */
  datatype Criterion =
    | VendorIs(vendor: string)          // `df['Fulfillment Channel Name'] == v`
    | VendorIn(allowList: seq<string>)  // `df[...].isin(vendor_list)`
    | OrderedAfter(cutoff: int)         // `df['SalesOrderDate'] > cutoff`

  predicate Holds(c: Criterion, t: Txn) {
    match c
    case VendorIs(v) => t.vendor == v
    case VendorIn(vs) => t.vendor in vs
    case OrderedAfter(cutoff) => t.orderDate > cutoff
  }

  function Last<T>(s: seq<T>): T
    requires s != []
  {
    s[|s| - 1]
  }

  function Init<T>(s: seq<T>): seq<T>
    requires s != []
  {
    s[..|s| - 1]
  }

  /** Sum of Total Sales over the rows. */
  function TotalSales(rows: seq<Txn>): Money {
    if rows == [] then 0.0 else TotalSales(Init(rows)) + Last(rows).totalSales
  }

  /** Selection by a mask: the rows that satisfy `c`, in their original order.
      A row occurs in the result exactly as often as in the input when it
      satisfies the mask, and not at all otherwise. */
  function Where(rows: seq<Txn>, c: Criterion): (r: seq<Txn>)
    ensures |r| <= |rows|
    ensures forall t :: t in r ==> Holds(c, t)
    ensures forall t :: multiset(r)[t] == if Holds(c, t) then multiset(rows)[t] else 0
  {
    if rows == [] then []
    else
      assert rows == Init(rows) + [Last(rows)];
      Where(Init(rows), c) + (if Holds(c, Last(rows)) then [Last(rows)] else [])
  }

  /** The rows of one vendor (revenue_by_vendors.py, per-vendor filter). */
  function VendorRows(rows: seq<Txn>, v: string): (r: seq<Txn>)
    ensures forall t :: multiset(r)[t] == if t.vendor == v then multiset(rows)[t] else 0
  {
    Where(rows, VendorIs(v))
  }

  /** The rows whose vendor is on the allow-list. */
  function AllowedRows(rows: seq<Txn>, allowList: seq<string>): (r: seq<Txn>)
    ensures forall t :: multiset(r)[t] == if t.vendor in allowList then multiset(rows)[t] else 0
  {
    Where(rows, VendorIn(allowList))
  }

  /** The instant `days` days before `now`. */
  function Cutoff(now: int, days: nat): int {
    now - days * SecondsPerDay
  }

  /** The rows ordered strictly after `now - days`. */
  function InWindow(rows: seq<Txn>, now: int, days: nat): (r: seq<Txn>)
    ensures forall t :: multiset(r)[t] == if t.orderDate > now - days * SecondsPerDay then multiset(rows)[t] else 0
  {
    Where(rows, OrderedAfter(Cutoff(now, days)))
  }

  /** A mask every row satisfies selects all of them. */
  lemma {:induction false} WhereAll(rows: seq<Txn>, c: Criterion)
    requires forall t :: t in rows ==> Holds(c, t)
    ensures Where(rows, c) == rows
  {
    if rows != [] {
      assert rows == Init(rows) + [Last(rows)];
      WhereAll(Init(rows), c);
    }
  }

  lemma WhereSnoc(rows: seq<Txn>, t: Txn, c: Criterion)
    ensures Where(rows + [t], c) == Where(rows, c) + (if Holds(c, t) then [t] else [])
  {
    assert Init(rows + [t]) == rows;
  }

  /** A mask over two stretches of rows selects from each in turn: the kept
      rows stay in their input order. */
  lemma {:induction false} WhereConcat(a: seq<Txn>, b: seq<Txn>, c: Criterion)
    ensures Where(a + b, c) == Where(a, c) + Where(b, c)
  {
    if b == [] {
      assert a + b == a;
    } else {
      var front, l := Init(b), Last(b);
      assert front + [l] == b;
      assert (a + front) + [l] == a + b;
      WhereConcat(a, front, c);
      WhereSnoc(a + front, l, c);
      WhereSnoc(front, l, c);
      Regroup(Where(a + b, c), Where(a + front, c), Where(b, c), Where(a, c), Where(front, c),
              if Holds(c, l) then [l] else []);
    }
  }

  lemma Regroup<T>(whole: seq<T>, firstPart: seq<T>, secondPart: seq<T>, x: seq<T>, y: seq<T>, z: seq<T>)
    requires whole == firstPart + z && firstPart == x + y && secondPart == y + z
    ensures whole == x + secondPart
  {
  }

  /** Selecting with a wide mask and then a narrower one is selecting with
      the narrower one alone. */
  lemma {:induction false} WhereNarrows(rows: seq<Txn>, wide: Criterion, narrow: Criterion)
    requires forall t :: Holds(narrow, t) ==> Holds(wide, t)
    ensures Where(Where(rows, wide), narrow) == Where(rows, narrow)
  {
    if rows != [] {
      var w, l := Where(Init(rows), wide), Last(rows);
      WhereNarrows(Init(rows), wide, narrow);
      if Holds(wide, l) {
        WhereSnoc(w, l, narrow);
      } else {
        assert w + [] == w;
      }
    }
  }

  /** Trailing windows nest: a shorter window is the shorter filter applied
      to a longer window, so its rows are among the longer window's rows. */
  lemma WindowsNest(rows: seq<Txn>, now: int, shorter: nat, longer: nat)
    requires shorter <= longer
    ensures InWindow(InWindow(rows, now, longer), now, shorter) == InWindow(rows, now, shorter)
    ensures multiset(InWindow(rows, now, shorter)) <= multiset(InWindow(rows, now, longer))
  {
    WhereNarrows(rows, OrderedAfter(Cutoff(now, longer)), OrderedAfter(Cutoff(now, shorter)));
  }

  // ---------------------------------------------------------------------
  // Keyed sequences

  /** The set of keys of a sequence. */
  function KeysOf<T>(s: seq<T>, key: T -> string): set<string> {
    if s == [] then {} else {key(s[0])} + KeysOf(s[1..], key)
  }

  /** No key occurs twice. */
  predicate DistinctKeys<T>(s: seq<T>, key: T -> string) {
    forall i, j :: 0 <= i < j < |s| ==> key(s[i]) != key(s[j])
  }

  lemma {:induction false} KeyInKeys<T>(s: seq<T>, key: T -> string, i: nat)
    requires i < |s|
    ensures key(s[i]) in KeysOf(s, key)
  {
    if i > 0 {
      KeyInKeys(s[1..], key, i - 1);
    }
  }

  lemma {:induction false} KeyPosition<T>(s: seq<T>, key: T -> string, k: string) returns (i: nat)
    requires k in KeysOf(s, key)
    ensures i < |s| && key(s[i]) == k
  {
    if key(s[0]) == k {
      i := 0;
    } else {
      var j := KeyPosition(s[1..], key, k);
      i := j + 1;
    }
  }

  /** A sequence with distinct keys is a non-repeating key followed by a
      sequence with distinct keys. */
  lemma DistinctKeysCons<T>(s: seq<T>, key: T -> string)
    requires s != []
    ensures DistinctKeys(s, key) <==> key(s[0]) !in KeysOf(s[1..], key) && DistinctKeys(s[1..], key)
  {
    if key(s[0]) in KeysOf(s[1..], key) {
      var j := KeyPosition(s[1..], key, key(s[0]));
      assert s[1..][j] == s[j + 1];
    }
    if key(s[0]) !in KeysOf(s[1..], key) && DistinctKeys(s[1..], key) {
      forall i, j | 0 <= i < j < |s| ensures key(s[i]) != key(s[j]) {
        if i == 0 {
          KeyInKeys(s[1..], key, j - 1);
        } else {
          assert key(s[i]) == key(s[1..][i - 1]) && key(s[j]) == key(s[1..][j - 1]);
        }
      }
    }
  }

  /** With distinct keys there are as many keys as elements. */
  lemma {:induction false} DistinctKeysCount<T>(s: seq<T>, key: T -> string)
    requires DistinctKeys(s, key)
    ensures |KeysOf(s, key)| == |s|
  {
    if s != [] {
      DistinctKeysCons(s, key);
      DistinctKeysCount(s[1..], key);
    }
  }
}
