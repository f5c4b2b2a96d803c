/** Ranking: `sort_values` by one measure, then slicing the first or last N
    rows and numbering them from 1. The library's default sort is not stable,
    so nothing here promises a tie order: the contracts state sortedness, that
    the result is a rearrangement of the input, and which rows are selected. */
module Ranking {
  import opened Table

  /** The number of rows each ranked table keeps. */
  const TopCount: nat := 10

  datatype Direction = Ascending | Descending

  predicate InOrder(d: Direction, a: real, b: real) {
    match d
    case Ascending => a <= b
    case Descending => a >= b
  }

  predicate Sorted<T>(s: seq<T>, m: T -> real, d: Direction) {
    forall i, j :: 0 <= i < j < |s| ==> InOrder(d, m(s[i]), m(s[j]))
  }

  function Min(a: int, b: int): int {
    if a <= b then a else b
  }

  /** One step of insertion sort: `x` placed before the first row it may
      precede. */
  function Insert<T(==)>(x: T, s: seq<T>, m: T -> real, d: Direction): (r: seq<T>)
    ensures multiset(r) == multiset(s) + multiset{x}
  {
    if s == [] || InOrder(d, m(x), m(s[0])) then [x] + s
    else
      assert s == [s[0]] + s[1..];
      [s[0]] + Insert(x, s[1..], m, d)
  }

  /** A row that may precede every row of a sorted sequence starts a sorted
      sequence. */
  lemma ConsSorted<T>(a: T, rest: seq<T>, m: T -> real, d: Direction)
    requires Sorted(rest, m, d)
    requires forall y :: y in rest ==> InOrder(d, m(a), m(y))
    ensures Sorted([a] + rest, m, d)
  {
    var r := [a] + rest;
    forall i, j | 0 <= i < j < |r| ensures InOrder(d, m(r[i]), m(r[j])) {
      assert r[j] == rest[j - 1];
      if i > 0 {
        assert r[i] == rest[i - 1];
      }
    }
  }

  lemma {:induction false} InsertSorted<T>(x: T, s: seq<T>, m: T -> real, d: Direction)
    requires Sorted(s, m, d)
    ensures Sorted(Insert(x, s, m, d), m, d)
  {
    if s == [] || InOrder(d, m(x), m(s[0])) {
      ConsSorted(x, s, m, d);
    } else {
      var rest := Insert(x, s[1..], m, d);
      InsertSorted(x, s[1..], m, d);
      forall y | y in rest ensures InOrder(d, m(s[0]), m(y)) {
        assert y in multiset(rest);
        if y != x {
          assert y in multiset(s[1..]);
        }
      }
      ConsSorted(s[0], rest, m, d);
    }
  }

  /** `sort_values(by=m, ascending=(d == Ascending))`: the same rows, in order. */
  function Sort<T(==)>(s: seq<T>, m: T -> real, d: Direction): (r: seq<T>)
    ensures Sorted(r, m, d)
    ensures multiset(r) == multiset(s)
    ensures |r| == |s|
  {
    if s == [] then []
    else
      assert s == [s[0]] + s[1..];
      InsertSorted(s[0], Sort(s[1..], m, d), m, d);
      Insert(s[0], Sort(s[1..], m, d), m, d)
  }

  /** Inserting a row adds its key; into rows with distinct keys, a row with a
      new key keeps them distinct. */
  lemma {:induction false} InsertKeys<T>(x: T, s: seq<T>, m: T -> real, d: Direction, key: T -> string)
    ensures KeysOf(Insert(x, s, m, d), key) == KeysOf(s, key) + {key(x)}
    ensures DistinctKeys(s, key) && key(x) !in KeysOf(s, key) ==> DistinctKeys(Insert(x, s, m, d), key)
  {
    var r := Insert(x, s, m, d);
    if s == [] || InOrder(d, m(x), m(s[0])) {
      assert r[1..] == s;
      if s != [] {
        DistinctKeysCons(r, key);
      }
    } else {
      InsertKeys(x, s[1..], m, d, key);
      assert r[1..] == Insert(x, s[1..], m, d);
      DistinctKeysCons(s, key);
      DistinctKeysCons(r, key);
    }
  }

  /** Sorting keeps the set of keys. */
  lemma {:induction false} SortKeys<T>(s: seq<T>, m: T -> real, d: Direction, key: T -> string)
    ensures KeysOf(Sort(s, m, d), key) == KeysOf(s, key)
  {
    if s != [] {
      SortKeys(s[1..], m, d, key);
      InsertKeys(s[0], Sort(s[1..], m, d), m, d, key);
    }
  }

  /** Sorting rows with distinct keys keeps the keys distinct. */
  lemma {:induction false} SortDistinct<T>(s: seq<T>, m: T -> real, d: Direction, key: T -> string)
    requires DistinctKeys(s, key)
    ensures DistinctKeys(Sort(s, m, d), key)
  {
    if s != [] {
      DistinctKeysCons(s, key);
      SortDistinct(s[1..], m, d, key);
      SortKeys(s[1..], m, d, key);
      InsertKeys(s[0], Sort(s[1..], m, d), m, d, key);
    }
  }

  /** `sort_values(...)[:n]`: the first `n` rows in the given order. */
  function Top<T(==)>(s: seq<T>, m: T -> real, d: Direction, n: nat): seq<T> {
    Sort(s, m, d)[..Min(n, |s|)]
  }

  /** `sort_values(...)[-n:]`: the last `n` rows in the given order. */
  function Bottom<T(==)>(s: seq<T>, m: T -> real, d: Direction, n: nat): seq<T> {
    Sort(s, m, d)[|s| - Min(n, |s|)..]
  }

  /** The first `n` rows: `min(n, |s|)` of the input's rows, in order, each
      coming no later in the order than any row left out. */
  lemma TopSelects<T>(s: seq<T>, m: T -> real, d: Direction, n: nat)
    ensures |Top(s, m, d, n)| == Min(n, |s|)
    ensures Sorted(Top(s, m, d, n), m, d)
    ensures multiset(Top(s, m, d, n)) <= multiset(s)
    ensures forall x, y :: x in Top(s, m, d, n) && y in multiset(s) - multiset(Top(s, m, d, n)) ==> InOrder(d, m(x), m(y))
  {
    var t, k := Sort(s, m, d), Min(n, |s|);
    var r, rest := t[..k], t[k..];
    assert t == r + rest;
    assert multiset(s) == multiset(r) + multiset(rest);
    SplitOrdered(t, m, d, k);
    forall x, y | x in r && y in multiset(s) - multiset(r) ensures InOrder(d, m(x), m(y)) {
      assert y in rest;
    }
  }

  /** The last `n` rows: `min(n, |s|)` of the input's rows, in order, each
      coming no earlier in the order than any row left out. */
  lemma BottomSelects<T>(s: seq<T>, m: T -> real, d: Direction, n: nat)
    ensures |Bottom(s, m, d, n)| == Min(n, |s|)
    ensures Sorted(Bottom(s, m, d, n), m, d)
    ensures multiset(Bottom(s, m, d, n)) <= multiset(s)
    ensures forall x, y :: x in Bottom(s, m, d, n) && y in multiset(s) - multiset(Bottom(s, m, d, n)) ==> InOrder(d, m(y), m(x))
  {
    var t, k := Sort(s, m, d), |s| - Min(n, |s|);
    var rest, r := t[..k], t[k..];
    assert t == rest + r;
    assert multiset(s) == multiset(rest) + multiset(r);
    SplitOrdered(t, m, d, k);
    forall x, y | x in r && y in multiset(s) - multiset(r) ensures InOrder(d, m(y), m(x)) {
      assert y in rest;
    }
  }

  /** In sorted rows, every row before a cut comes no later in the order
      than every row after it. */
  lemma SplitOrdered<T>(t: seq<T>, m: T -> real, d: Direction, k: nat)
    requires Sorted(t, m, d) && k <= |t|
    ensures forall x, y :: x in t[..k] && y in t[k..] ==> InOrder(d, m(x), m(y))
  {
    forall x, y | x in t[..k] && y in t[k..] ensures InOrder(d, m(x), m(y)) {
      var i :| 0 <= i < k && t[..k][i] == x;
      var j :| 0 <= j < |t| - k && t[k..][j] == y;
      assert t[i] == x && t[k + j] == y;
    }
  }

  /** Slices of rows with distinct keys have distinct keys. */
  lemma SliceDistinct<T>(s: seq<T>, key: T -> string, lo: nat, hi: nat)
    requires lo <= hi <= |s|
    requires DistinctKeys(s, key)
    ensures DistinctKeys(s[lo..hi], key)
  {
    forall i, j | 0 <= i < j < hi - lo ensures key(s[lo..hi][i]) != key(s[lo..hi][j]) {
      assert s[lo..hi][i] == s[lo + i] && s[lo..hi][j] == s[lo + j];
    }
  }

  /** The first or last `n` of rows with distinct keys have distinct keys. */
  lemma TopDistinct<T>(s: seq<T>, m: T -> real, d: Direction, n: nat, key: T -> string)
    requires DistinctKeys(s, key)
    ensures DistinctKeys(Top(s, m, d, n), key)
  {
    var t := Sort(s, m, d);
    SortDistinct(s, m, d, key);
    SliceDistinct(t, key, 0, Min(n, |s|));
    assert t[..Min(n, |s|)] == t[0..Min(n, |s|)];
  }

  lemma BottomDistinct<T>(s: seq<T>, m: T -> real, d: Direction, n: nat, key: T -> string)
    requires DistinctKeys(s, key)
    ensures DistinctKeys(Bottom(s, m, d, n), key)
  {
    var t := Sort(s, m, d);
    SortDistinct(s, m, d, key);
    SliceDistinct(t, key, |s| - Min(n, |s|), |s|);
    assert t[|s| - Min(n, |s|)..] == t[|s| - Min(n, |s|)..|s|];
  }

  /** A row of a displayed table with its 1-based index. */
  datatype RankedRow<T> = RankedRow(rank: nat, row: T)

  /** `reset_index()` followed by `index += 1`, or `index = np.arange(1, N + 1)`. */
  function Numbered<T>(s: seq<T>): (r: seq<RankedRow<T>>)
    ensures |r| == |s|
    ensures forall i :: 0 <= i < |s| ==> r[i].rank == i + 1 && r[i].row == s[i]
  {
    if s == [] then [] else Numbered(Init(s)) + [RankedRow(|s|, Last(s))]
  }

  /** The rows of a numbered table, without their index. */
  function Rows<T>(r: seq<RankedRow<T>>): (s: seq<T>)
    ensures |s| == |r|
    ensures forall i :: 0 <= i < |r| ==> s[i] == r[i].row
  {
    if r == [] then [] else [r[0].row] + Rows(r[1..])
  }

  lemma NumberedRows<T>(s: seq<T>)
    ensures Rows(Numbered(s)) == s
  {
  }
}
