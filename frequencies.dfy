/**
 * The weighting model of `load_data`: the sheet sorted newest first, the latest date, the
 * two-year recent window, the value counts over all draws and over the window, and the
 * combined weight `0.3 * all/N + 0.7 * recent/Nr` of every value of a universe.
 */
module Frequencies {
  import opened Common
  import opened Dates
  import opened Rows
  import opened Sorting

  /** `a` sorts before `b` under `sort_values('Date', ascending=False)`: its date string is not smaller. */
  predicate NewerOrSame(a: Draw, b: Draw)
  {
    StrLe(Iso(b.row.date), Iso(a.row.date))
  }

  lemma NewerOrSameIsChronological()
    ensures forall a: Draw, b: Draw :: NewerOrSame(a, b) == DateLe(b.row.date, a.row.date)
  {
    forall a: Draw, b: Draw ensures NewerOrSame(a, b) == DateLe(b.row.date, a.row.date) {
      IsoOrder(b.row.date, a.row.date);
    }
  }

  /** Line 22: the draws sorted by their date strings, newest first. */
  function SortNewestFirst(ds: seq<Draw>): (r: seq<Draw>)
    ensures multiset(r) == multiset(ds) && |r| == |ds|
  {
    SortBy(ds, NewerOrSame)
  }

  /** The sorted draws run from the latest date down to the earliest. */
  lemma NewestFirstOrder(ds: seq<Draw>)
    ensures var r := SortNewestFirst(ds);
            forall i, j :: 0 <= i < j < |r| ==> DateLe(r[j].row.date, r[i].row.date)
  {
    NewerOrSameIsChronological();
    assert IsTotalPreorder(NewerOrSame);
    SortBySorted(ds, NewerOrSame);
  }

  /** Line 24: `self.data['Date'].max()`, the greatest date string. */
  function LatestDate(ds: seq<Draw>): DrawDate
    requires |ds| > 0
  {
    if |ds| == 1 then ds[0].row.date
    else
      var rest := LatestDate(ds[1..]);
      if StrLe(Iso(ds[0].row.date), Iso(rest)) then rest else ds[0].row.date
  }

  /** The greatest date string is the date of some draw, and no draw is later. */
  lemma {:induction false} LatestDateIsLatest(ds: seq<Draw>)
    requires |ds| > 0
    ensures exists i :: 0 <= i < |ds| && ds[i].row.date == LatestDate(ds)
    ensures forall i :: 0 <= i < |ds| ==> DateLe(ds[i].row.date, LatestDate(ds))
  {
    if |ds| == 1 {
      assert ds[0].row.date == LatestDate(ds);
    } else {
      var rest := LatestDate(ds[1..]);
      LatestDateIsLatest(ds[1..]);
      IsoOrder(ds[0].row.date, rest);
      assert forall i :: 1 <= i < |ds| ==> ds[i] == ds[1..][i - 1];
      if StrLe(Iso(ds[0].row.date), Iso(rest)) {
        var j :| 0 <= j < |ds[1..]| && ds[1..][j].row.date == rest;
        assert ds[j + 1].row.date == LatestDate(ds);
      } else {
        assert ds[0].row.date == LatestDate(ds);
      }
    }
  }

  /** Line 25: the first date of the window, two years before the latest draw. */
  function WindowStart(ds: seq<Draw>): Date
    requires |ds| > 0
  {
    TwoYearsBefore(LatestDate(ds))
  }

  /** `ds[ds['Date'] >= start]`: the draws whose date string is not below that of `start`. */
  function DrawsFrom(ds: seq<Draw>, start: Date): (r: seq<Draw>)
    requires IsCalendarDate(start)
    ensures |r| <= |ds|
  {
    if ds == [] then []
    else (if StrLe(Iso(start), Iso(ds[0].row.date)) then [ds[0]] else []) + DrawsFrom(ds[1..], start)
  }

  lemma {:induction false} DrawsFromMembers(ds: seq<Draw>, start: Date)
    requires IsCalendarDate(start)
    ensures forall d :: d in DrawsFrom(ds, start) <==> d in ds && StrLe(Iso(start), Iso(d.row.date))
  {
    if ds != [] {
      DrawsFromMembers(ds[1..], start);
      assert forall d :: d in ds <==> d == ds[0] || d in ds[1..];
    }
  }

  /** The filter takes a sub-collection: no draw occurs in it more often than in the sheet. */
  lemma {:induction false} DrawsFromIsSubMultiset(ds: seq<Draw>, start: Date)
    requires IsCalendarDate(start)
    ensures multiset(DrawsFrom(ds, start)) <= multiset(ds)
  {
    if ds != [] {
      DrawsFromIsSubMultiset(ds[1..], start);
      assert ds == [ds[0]] + ds[1..];
    }
  }

  /** Line 26: the recent window, every draw dated on or after `WindowStart`. */
  function RecentDraws(ds: seq<Draw>): seq<Draw>
    requires |ds| > 0
  {
    DrawsFrom(ds, WindowStart(ds))
  }

  /** The window holds exactly the draws dated on or after its first date. */
  lemma RecentDrawsMembers(ds: seq<Draw>)
    requires |ds| > 0
    ensures forall d :: d in RecentDraws(ds) <==> d in ds && DateLe(WindowStart(ds), d.row.date)
  {
    var start := WindowStart(ds);
    DrawsFromMembers(ds, start);
    forall d: Draw ensures StrLe(Iso(start), Iso(d.row.date)) == DateLe(start, d.row.date) {
      IsoOrder(start, d.row.date);
    }
  }

  /** Lines 28-29 and 33-34: `[num for sublist in column for num in sublist]`. */
  function AllValues(ds: seq<Draw>, k: Kind): seq<int>
  {
    if ds == [] then [] else Values(ds[0], k) + AllValues(ds[1..], k)
  }

  /** How many times `v` occurs in `xs`: `Counter(xs)[v]`. */
  function CountIn(xs: seq<int>, v: int): (c: nat)
    ensures c <= |xs|
    ensures c > 0 <==> v in xs
  {
    if xs == [] then 0 else (if xs[0] == v then 1 else 0) + CountIn(xs[1..], v)
  }

  /** `Counter(xs)`: each value that occurs, with its number of occurrences. */
  function Counter(xs: seq<int>): map<int, nat>
  {
    map v | v in xs :: CountIn(xs, v)
  }

  /** `counter.get(v, 0)`. */
  function Get(m: map<int, nat>, v: int): nat
  {
    if v in m then m[v] else 0
  }

  lemma CounterGet(xs: seq<int>, v: int)
    ensures Get(Counter(xs), v) == CountIn(xs, v)
  {
  }

  /** Lines 47-52: the 30/70 blend of the all-time and the recent frequency, 0 unless both counts of draws are positive. */
  function CombinedWeight(count: nat, total: nat, recentCount: nat, totalRecent: nat): real
  {
    if total > 0 && totalRecent > 0 then
      (count as real / total as real) * 0.3 + (recentCount as real / totalRecent as real) * 0.7
    else
      0.0
  }

  /** The combined weight `load_data` gives value `v` of kind `k`, for a non-empty sheet. */
  function Weight(ds: seq<Draw>, k: Kind, v: int): real
    requires |ds| > 0
  {
    var recent := RecentDraws(ds);
    CombinedWeight(CountIn(AllValues(ds, k), v), |ds|, CountIn(AllValues(recent, k), v), |recent|)
  }

  /** The combined counter of kind `k` that `load_data` builds: keys 1..Highest(k). */
  function WeightTable(ds: seq<Draw>, k: Kind): map<int, real>
    requires |ds| > 0
  {
    map v | 1 <= v <= Highest(k) :: Weight(ds, k, v)
  }

  /** The combined counter holds exactly the values 1..Highest(k). */
  lemma WeightTableKeys(ds: seq<Draw>, k: Kind)
    requires |ds| > 0
    ensures forall v :: v in WeightTable(ds, k) <==> 1 <= v <= Highest(k)
  {
  }

  /**
   * Lines 44-52 (numbers) and 54-62 (stars): the combined counter filled one value at a
   * time from the two counters and the two numbers of draws.
   */
  method BuildWeights(freq: map<int, nat>, recentFreq: map<int, nat>, total: nat, totalRecent: nat, k: Kind)
    returns (combined: map<int, real>)
    ensures forall v :: v in combined <==> 1 <= v <= Highest(k)
    ensures forall v :: 1 <= v <= Highest(k) ==>
              combined[v] == CombinedWeight(Get(freq, v), total, Get(recentFreq, v), totalRecent)
  {
    combined := map[];
    var v := 1;
    while v <= Highest(k)
      invariant 1 <= v <= Highest(k) + 1
      invariant forall u :: u in combined <==> 1 <= u < v
      invariant forall u :: 1 <= u < v ==>
                  combined[u] == CombinedWeight(Get(freq, u), total, Get(recentFreq, u), totalRecent)
    {
      var historicalCount := Get(freq, v);
      var recentCount := Get(recentFreq, v);
      if total > 0 && totalRecent > 0 {
        var historicalWeight := (historicalCount as real / total as real) * 0.3;
        var recentWeight := (recentCount as real / totalRecent as real) * 0.7;
        combined := combined[v := historicalWeight + recentWeight];
      } else {
        combined := combined[v := 0.0];
      }
      v := v + 1;
    }
  }

  /** Filled from the counters of a non-empty sheet, `BuildWeights` yields that sheet's weight table. */
  lemma CountersGiveWeightTable(ds: seq<Draw>, k: Kind, combined: map<int, real>)
    requires |ds| > 0
    requires forall v :: v in combined <==> 1 <= v <= Highest(k)
    requires var recent := RecentDraws(ds);
             forall v :: 1 <= v <= Highest(k) ==>
               combined[v] == CombinedWeight(Get(Counter(AllValues(ds, k)), v), |ds|,
                                             Get(Counter(AllValues(recent, k)), v), |recent|)
    ensures combined == WeightTable(ds, k)
  {
    var recent := RecentDraws(ds);
    forall v | 1 <= v <= Highest(k) ensures combined[v] == Weight(ds, k, v) {
      CounterGet(AllValues(ds, k), v);
      CounterGet(AllValues(recent, k), v);
    }
  }

  // ---------------------------------------------------------------------------
  // The recent window

  /** A non-empty sheet has a non-empty window: the latest draws always belong to it. */
  lemma RecentHoldsLatest(ds: seq<Draw>)
    requires |ds| > 0
    ensures forall i :: 0 <= i < |ds| && ds[i].row.date == LatestDate(ds) ==> ds[i] in RecentDraws(ds)
    ensures |RecentDraws(ds)| >= 1
  {
    var latest := LatestDate(ds);
    LatestDateIsLatest(ds);
    RecentDrawsMembers(ds);
    var i :| 0 <= i < |ds| && ds[i].row.date == latest;
    assert ds[i] in RecentDraws(ds);
  }

  lemma CountAppend(a: seq<int>, b: seq<int>, v: int)
    ensures CountIn(a + b, v) == CountIn(a, v) + CountIn(b, v)
  {
    if a != [] {
      assert (a + b)[1..] == a[1..] + b;
      CountAppend(a[1..], b, v);
    } else {
      assert a + b == b;
    }
  }

  lemma {:induction false} DrawsFromCountsFewer(ds: seq<Draw>, start: Date, k: Kind, v: int)
    requires IsCalendarDate(start)
    ensures CountIn(AllValues(DrawsFrom(ds, start), k), v) <= CountIn(AllValues(ds, k), v)
  {
    if ds != [] {
      DrawsFromCountsFewer(ds[1..], start, k, v);
      CountAppend(Values(ds[0], k), AllValues(ds[1..], k), v);
      if StrLe(Iso(start), Iso(ds[0].row.date)) {
        assert DrawsFrom(ds, start) == [ds[0]] + DrawsFrom(ds[1..], start);
        assert ([ds[0]] + DrawsFrom(ds[1..], start))[1..] == DrawsFrom(ds[1..], start);
        CountAppend(Values(ds[0], k), AllValues(DrawsFrom(ds[1..], start), k), v);
      } else {
        assert DrawsFrom(ds, start) == DrawsFrom(ds[1..], start);
      }
    }
  }

  /** The window is part of the sheet, so no value occurs more often in it than in the whole sheet. */
  lemma RecentCountAtMostAll(ds: seq<Draw>, k: Kind, v: int)
    requires |ds| > 0
    ensures CountIn(AllValues(RecentDraws(ds), k), v) <= CountIn(AllValues(ds, k), v)
  {
    DrawsFromCountsFewer(ds, WindowStart(ds), k, v);
  }

  // ---------------------------------------------------------------------------
  // The combined weights

  /** On a non-empty sheet the zero branch is never taken: every weight is the 30/70 blend. */
  lemma WeightIsBlend(ds: seq<Draw>, k: Kind, v: int)
    requires |ds| > 0
    ensures |RecentDraws(ds)| > 0
    ensures var recent := RecentDraws(ds);
            Weight(ds, k, v) == (CountIn(AllValues(ds, k), v) as real / |ds| as real) * 0.3
                              + (CountIn(AllValues(recent, k), v) as real / |recent| as real) * 0.7
  {
    var recent := RecentDraws(ds);
    assert |recent| > 0 by {
      RecentHoldsLatest(ds);
    }
    assert Weight(ds, k, v) == CombinedWeight(CountIn(AllValues(ds, k), v), |ds|, CountIn(AllValues(recent, k), v), |recent|);
  }

  lemma AllValuesHas(ds: seq<Draw>, k: Kind, v: int)
    ensures v in AllValues(ds, k) <==> exists i :: 0 <= i < |ds| && v in Values(ds[i], k)
  {
    if ds != [] {
      AllValuesHas(ds[1..], k, v);
      if v in Values(ds[0], k) {
      } else if v in AllValues(ds[1..], k) {
        var i :| 0 <= i < |ds[1..]| && v in Values(ds[1..][i], k);
        assert v in Values(ds[i + 1], k);
      } else {
        forall i | 0 <= i < |ds| ensures v !in Values(ds[i], k) {
          if i > 0 { assert ds[i] == ds[1..][i - 1]; }
        }
      }
    }
  }

  lemma BlendSign(h: nat, n: nat, r: nat, nr: nat)
    requires n > 0 && nr > 0 && r <= h
    ensures var w := (h as real / n as real) * 0.3 + (r as real / nr as real) * 0.7;
            w >= 0.0 && (w > 0.0 <==> h > 0)
  {
    assert h as real / n as real >= 0.0 && r as real / nr as real >= 0.0;
    if h > 0 {
      assert h as real / n as real > 0.0;
    }
  }

  /**
   * Every weight is non-negative, and a weight is positive exactly when the value occurs in
   * some draw of the sheet: a value never drawn has weight 0.
   */
  lemma WeightPositiveIffDrawn(ds: seq<Draw>, k: Kind, v: int)
    requires |ds| > 0
    ensures Weight(ds, k, v) >= 0.0
    ensures Weight(ds, k, v) > 0.0 <==> exists i :: 0 <= i < |ds| && v in Values(ds[i], k)
  {
    var recent := RecentDraws(ds);
    WeightIsBlend(ds, k, v);
    assert |recent| > 0 by {
      RecentHoldsLatest(ds);
    }
    RecentCountAtMostAll(ds, k, v);
    AllValuesHas(ds, k, v);
    BlendSign(CountIn(AllValues(ds, k), v), |ds|, CountIn(AllValues(recent, k), v), |recent|);
  }

  // ---------------------------------------------------------------------------
  // The weights of a universe add up to the number of values drawn per draw

  /** `SumCounts(xs, n)` is the sum of `CountIn(xs, v)` for v = 1..n. */
  function SumCounts(xs: seq<int>, n: int): nat
    decreases n
  {
    if n < 1 then 0 else SumCounts(xs, n - 1) + CountIn(xs, n)
  }

  lemma {:induction false} SumCountsCons(x: int, xs: seq<int>, n: int)
    ensures SumCounts([x] + xs, n) == SumCounts(xs, n) + (if 1 <= x <= n then 1 else 0)
    decreases n
  {
    assert ([x] + xs)[1..] == xs;
    if n >= 1 {
      SumCountsCons(x, xs, n - 1);
    }
  }

  /** When every element lies in 1..n, the counts of 1..n add up to the length. */
  lemma {:induction false} SumCountsCoversAll(xs: seq<int>, n: int)
    requires forall i :: 0 <= i < |xs| ==> 1 <= xs[i] <= n
    ensures SumCounts(xs, n) == |xs|
  {
    if xs == [] {
      SumCountsZero(n);
    } else {
      assert xs == [xs[0]] + xs[1..];
      SumCountsCons(xs[0], xs[1..], n);
      SumCountsCoversAll(xs[1..], n);
    }
  }

  lemma {:induction false} SumCountsZero(n: int)
    ensures SumCounts([], n) == 0
    decreases n
  {
    if n >= 1 {
      SumCountsZero(n - 1);
    }
  }

  lemma {:induction false} AllValuesLength(ds: seq<Draw>, k: Kind)
    requires forall i :: 0 <= i < |ds| ==> InRange(ds[i], k)
    ensures |AllValues(ds, k)| == PerDraw(k) * |ds|
    ensures forall j :: 0 <= j < |AllValues(ds, k)| ==> 1 <= AllValues(ds, k)[j] <= Highest(k)
  {
    if ds != [] {
      AllValuesLength(ds[1..], k);
      var head, rest := Values(ds[0], k), AllValues(ds[1..], k);
      assert AllValues(ds, k) == head + rest;
      forall j | 0 <= j < |head + rest| ensures 1 <= (head + rest)[j] <= Highest(k) {
        if j >= |head| {
          assert (head + rest)[j] == rest[j - |head|];
        }
      }
    }
  }

  /** `SumBlend(...)` is the sum of the blends of the counts of 1..n. */
  function SumBlend(all: seq<int>, total: nat, part: seq<int>, totalRecent: nat, n: int): real
    decreases n
  {
    if n < 1 then 0.0
    else SumBlend(all, total, part, totalRecent, n - 1) + CombinedWeight(CountIn(all, n), total, CountIn(part, n), totalRecent)
  }

  /** Blends add up: the blend of two counts is the sum of their blends. */
  lemma BlendAdd(a: nat, b: nat, h: nat, r: nat, n: nat, nr: nat)
    requires n > 0 && nr > 0
    ensures CombinedWeight(a, n, b, nr) + CombinedWeight(h, n, r, nr) == CombinedWeight(a + h, n, b + r, nr)
  {
    assert (a + h) as real / n as real == a as real / n as real + h as real / n as real;
    assert (b + r) as real / nr as real == b as real / nr as real + r as real / nr as real;
  }

  lemma {:induction false} SumBlendSplit(all: seq<int>, total: nat, part: seq<int>, totalRecent: nat, n: int)
    requires total > 0 && totalRecent > 0
    ensures SumBlend(all, total, part, totalRecent, n)
            == CombinedWeight(SumCounts(all, n), total, SumCounts(part, n), totalRecent)
    decreases n
  {
    if n >= 1 {
      SumBlendSplit(all, total, part, totalRecent, n - 1);
      BlendAdd(SumCounts(all, n - 1), SumCounts(part, n - 1), CountIn(all, n), CountIn(part, n), total, totalRecent);
    }
  }

  /** The sum of the entries 1..n of a table. */
  function SumTo(t: map<int, real>, n: int): real
    decreases n
  {
    if n < 1 then 0.0 else SumTo(t, n - 1) + (if n in t then t[n] else 0.0)
  }

  lemma {:induction false} TableSum(ds: seq<Draw>, k: Kind, n: int)
    requires |ds| > 0 && n <= Highest(k)
    ensures var recent := RecentDraws(ds);
            SumTo(WeightTable(ds, k), n) == SumBlend(AllValues(ds, k), |ds|, AllValues(recent, k), |recent|, n)
    decreases n
  {
    if n >= 1 {
      TableSum(ds, k, n - 1);
      assert WeightTable(ds, k)[n] == Weight(ds, k, n);
    }
  }

  lemma MultipleDiv(m: nat, n: nat)
    requires n > 0
    ensures (m * n) as real / n as real == m as real
  {
    assert (m * n) as real == m as real * n as real;
  }

  lemma RecentInRange(ds: seq<Draw>, k: Kind)
    requires |ds| > 0
    requires forall i :: 0 <= i < |ds| ==> InRange(ds[i], k)
    ensures forall i :: 0 <= i < |RecentDraws(ds)| ==> InRange(RecentDraws(ds)[i], k)
  {
    var recent := RecentDraws(ds);
    RecentDrawsMembers(ds);
    forall i | 0 <= i < |recent| ensures InRange(recent[i], k) {
      assert recent[i] in recent;
      var j :| 0 <= j < |ds| && ds[j] == recent[i];
    }
  }

  /**
   * When every draw holds `PerDraw(k)` values in 1..`Highest(k)`, the weights of the universe
   * add up to exactly `PerDraw(k)`: 5 for the numbers and 2 for the stars.
   */
  lemma WeightsSumToPerDraw(ds: seq<Draw>, k: Kind)
    requires |ds| > 0
    requires forall i :: 0 <= i < |ds| ==> InRange(ds[i], k)
    ensures SumTo(WeightTable(ds, k), Highest(k)) == PerDraw(k) as real
  {
    var recent := RecentDraws(ds);
    assert |recent| > 0 by {
      RecentHoldsLatest(ds);
    }
    RecentInRange(ds, k);
    var all, part := AllValues(ds, k), AllValues(recent, k);
    AllValuesLength(ds, k);
    AllValuesLength(recent, k);
    SumCountsCoversAll(all, Highest(k));
    SumCountsCoversAll(part, Highest(k));
    TableSum(ds, k, Highest(k));
    SumBlendSplit(all, |ds|, part, |recent|, Highest(k));
    MultipleDiv(PerDraw(k), |ds|);
    MultipleDiv(PerDraw(k), |recent|);
    assert CombinedWeight(PerDraw(k) * |ds|, |ds|, PerDraw(k) * |recent|, |recent|) == PerDraw(k) as real;
  }
}
