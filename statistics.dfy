/**
 * The statistics panel: `Counter.most_common(k)` on a weight table. `most_common` returns the
 * items sorted by score, highest first, keeping insertion order among equal scores; the tables
 * are filled for 1, 2, ..., n in that order, so equal scores are listed by ascending value.
 */
module Statistics {
  import opened Common
  import opened Sorting

  /** A table item as `most_common` reports it: the value and its score. */
  type Item = (int, real)

  /** `a` may be listed before `b`: a higher score, or the same score and a value no larger. */
  predicate ListedFirst(a: Item, b: Item)
  {
    a.1 > b.1 || (a.1 == b.1 && a.0 <= b.0)
  }

  /** `a` is listed strictly before `b`. */
  predicate Outranks(a: Item, b: Item)
  {
    a.1 > b.1 || (a.1 == b.1 && a.0 < b.0)
  }

  lemma ListedFirstIsTotalPreorder()
    ensures IsTotalPreorder(ListedFirst)
  {
  }

  /** The table's items in insertion order: `(1, t[1]), ..., (n, t[n])`. */
  function Items(t: map<int, real>, n: nat): (r: seq<Item>)
    requires forall v :: 1 <= v <= n ==> v in t
    ensures |r| == n
    ensures forall i :: 0 <= i < n ==> r[i] == (i + 1, t[i + 1])
  {
    if n == 0 then [] else Items(t, n - 1) + [(n, t[n])]
  }

  /** `t.most_common(k)` for a table whose keys were inserted as 1, ..., n. */
  function MostCommon(t: map<int, real>, n: nat, k: nat): seq<Item>
    requires forall v :: 1 <= v <= n ==> v in t
  {
    var sorted := SortBy(Items(t, n), ListedFirst);
    if k < n then sorted[..k] else sorted
  }

  /** `v` is one of the reported values. */
  predicate Reports(r: seq<Item>, v: int)
  {
    exists i :: 0 <= i < |r| && r[i].0 == v
  }

  /** The items, and so their sorted order, hold each value once. */
  lemma {:induction false} ItemsDistinct(t: map<int, real>, n: nat)
    requires forall v :: 1 <= v <= n ==> v in t
    ensures Distinct(Items(t, n)) && Distinct(SortBy(Items(t, n), ListedFirst))
  {
    var items := Items(t, n);
    forall i, j | 0 <= i < j < |items| ensures items[i] != items[j] {
      assert items[i].0 == i + 1 && items[j].0 == j + 1;
    }
    PermutationDistinct(items, SortBy(items, ListedFirst));
  }

  /** Sorting the items keeps each value once with its own score, in strictly decreasing rank. */
  lemma {:induction false} SortedItemsRank(t: map<int, real>, n: nat)
    requires forall v :: 1 <= v <= n ==> v in t
    ensures var sorted := SortBy(Items(t, n), ListedFirst);
      && (forall i :: 0 <= i < |sorted| ==> 1 <= sorted[i].0 <= n && sorted[i].1 == t[sorted[i].0])
      && (forall i, j :: 0 <= i < j < |sorted| ==> Outranks(sorted[i], sorted[j]))
  {
    var items := Items(t, n);
    var sorted := SortBy(items, ListedFirst);
    SortedItemsFromTable(t, n);
    ListedFirstIsTotalPreorder();
    SortBySorted(items, ListedFirst);
    ItemsDistinct(t, n);
    forall i, j | 0 <= i < j < |sorted| ensures Outranks(sorted[i], sorted[j]) {
      assert ListedFirst(sorted[i], sorted[j]);
      assert sorted[i] != sorted[j];
    }
  }

  /** Every sorted item is a value of the table with its own score. */
  lemma {:induction false} SortedItemsFromTable(t: map<int, real>, n: nat)
    requires forall v :: 1 <= v <= n ==> v in t
    ensures var sorted := SortBy(Items(t, n), ListedFirst);
      forall i :: 0 <= i < |sorted| ==> 1 <= sorted[i].0 <= n && sorted[i].1 == t[sorted[i].0]
  {
    var items := Items(t, n);
    var sorted := SortBy(items, ListedFirst);
    forall i | 0 <= i < |sorted| ensures 1 <= sorted[i].0 <= n && sorted[i].1 == t[sorted[i].0] {
      var m := PermutationIndex(items, sorted, i);
      assert items[m] == (m + 1, t[m + 1]);
    }
  }

  /** The first `k` sorted items, as `most_common(k)` returns them. */
  lemma MostCommonIsPrefix(t: map<int, real>, n: nat, k: nat)
    requires forall v :: 1 <= v <= n ==> v in t
    ensures var sorted := SortBy(Items(t, n), ListedFirst);
            var r := MostCommon(t, n, k);
            |r| == (if k < n then k else n) <= |sorted| && forall i :: 0 <= i < |r| ==> r[i] == sorted[i]
  {
  }

  /** A value `most_common(k)` leaves out ranks below every value it lists. */
  lemma {:induction false} UnreportedRanksBelow(t: map<int, real>, n: nat, k: nat, v: int)
    requires forall v :: 1 <= v <= n ==> v in t
    requires 1 <= v <= n
    ensures var r := MostCommon(t, n, k);
            Reports(r, v) || forall i :: 0 <= i < |r| ==> Outranks(r[i], (v, t[v]))
  {
    var items := Items(t, n);
    var sorted := SortBy(items, ListedFirst);
    var r := MostCommon(t, n, k);
    SortedItemsRank(t, n);
    MostCommonIsPrefix(t, n, k);
    assert items[v - 1] == (v, t[v]);
    var m := PermutationIndex(sorted, items, v - 1);
    if m < |r| {
      assert r[m].0 == v;
    } else {
      forall i | 0 <= i < |r| ensures Outranks(r[i], (v, t[v])) {
        assert Outranks(sorted[i], sorted[m]);
      }
    }
  }

  /**
   * `r` is a top-`k` report of the table: min(k, n) items, each value once and with its own
   * score, strictly by score and then by value; every value left out ranks below every one listed.
   */
  predicate IsTopK(t: map<int, real>, n: nat, k: nat, r: seq<Item>)
    requires forall v :: 1 <= v <= n ==> v in t
  {
    && |r| == (if k < n then k else n)
    && (forall i :: 0 <= i < |r| ==> 1 <= r[i].0 <= n && r[i].1 == t[r[i].0])
    && (forall i, j :: 0 <= i < j < |r| ==> Outranks(r[i], r[j]))
    && (forall v :: 1 <= v <= n && !Reports(r, v) ==>
          forall i :: 0 <= i < |r| ==> Outranks(r[i], (v, t[v])))
  }

  /** `most_common(k)` on a table with keys 1..n is its top-`k` report. */
  lemma {:induction false} MostCommonIsTopK(t: map<int, real>, n: nat, k: nat)
    requires forall v :: 1 <= v <= n ==> v in t
    ensures IsTopK(t, n, k, MostCommon(t, n, k))
  {
    var sorted := SortBy(Items(t, n), ListedFirst);
    var r := MostCommon(t, n, k);
    SortedItemsRank(t, n);
    MostCommonIsPrefix(t, n, k);
    forall i, j | 0 <= i < j < |r| ensures Outranks(r[i], r[j]) {
      assert Outranks(sorted[i], sorted[j]);
    }
    forall v | 1 <= v <= n ensures Reports(r, v) || forall i :: 0 <= i < |r| ==> Outranks(r[i], (v, t[v])) {
      UnreportedRanksBelow(t, n, k, v);
    }
  }
}
