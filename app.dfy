/**
 * The application object: the spreadsheet it reads and writes, the loaded draws, the six
 * counters `load_data` fills, and the three operations that use them: loading, generating
 * five bets, and adding a draw typed in by hand.
 */
module App {
  import opened Common
  import opened Dates
  import opened Sorting
  import opened Rows
  import opened Frequencies
  import opened Sampling
  import opened Statistics

  /** One bet: five numbers and two stars, each list in ascending order. */
  datatype Bet = Bet(numbers: seq<int>, stars: seq<int>)

  /** The six counters `load_data` sets, as one value. */
  datatype Tables = Tables(
    numberFreq: map<int, nat>,
    starFreq: map<int, nat>,
    recentNumberFreq: map<int, nat>,
    recentStarFreq: map<int, nat>,
    combinedNumberFreq: map<int, real>,
    combinedStarFreq: map<int, real>)

  /** Lines 24-62: the counters of a non-empty sheet sorted newest first. */
  function TablesFor(ds: seq<Draw>): Tables
    requires |ds| > 0
  {
    var recent := RecentDraws(ds);
    Tables(
      Counter(AllValues(ds, Numbers)), Counter(AllValues(ds, Stars)),
      Counter(AllValues(recent, Numbers)), Counter(AllValues(recent, Stars)),
      WeightTable(ds, Numbers), WeightTable(ds, Stars))
  }

  /** `counter[v]`: a `Counter` gives 0 for a value it does not hold. */
  function Lookup(t: map<int, real>, v: int): real
  {
    if v in t then t[v] else 0.0
  }

  /** Lines 28-62 on a non-empty sheet sorted newest first: the six counters, filled in the order of the source. */
  method BuildTables(ds: seq<Draw>) returns (t: Tables)
    requires |ds| > 0
    ensures t == TablesFor(ds)
  {
    var recent := RecentDraws(ds);
    var numberFreq := Counter(AllValues(ds, Numbers));
    var starFreq := Counter(AllValues(ds, Stars));
    var recentNumberFreq := Counter(AllValues(recent, Numbers));
    var recentStarFreq := Counter(AllValues(recent, Stars));
    var combinedNumberFreq := BuildWeights(numberFreq, recentNumberFreq, |ds|, |recent|, Numbers);
    var combinedStarFreq := BuildWeights(starFreq, recentStarFreq, |ds|, |recent|, Stars);
    CountersGiveWeightTable(ds, Numbers, combinedNumberFreq);
    CountersGiveWeightTable(ds, Stars, combinedStarFreq);
    t := Tables(numberFreq, starFreq, recentNumberFreq, recentStarFreq, combinedNumberFreq, combinedStarFreq);
  }

  /** Every draw loaded from a sheet comes from its own row. */
  lemma SortedDrawsLoadBack(rows: seq<Row>)
    requires ParseRows(rows).Ok?
    ensures forall d :: d in SortNewestFirst(ParseRows(rows).value) ==> ParseRow(d.row) == Ok(d)
  {
    var parsed := ParseRows(rows).value;
    var sorted := SortNewestFirst(parsed);
    forall k | 0 <= k < |sorted| ensures ParseRow(sorted[k].row) == Ok(sorted[k]) {
      var i := PermutationIndex(parsed, sorted, k);
    }
  }

  /** Lines 69 and 73: `[table[v] for v in range(1, n + 1)]`. */
  function WeightList(t: map<int, real>, n: nat): (w: seq<real>)
    ensures |w| == n && forall i :: 0 <= i < n ==> w[i] == Lookup(t, i + 1)
  {
    seq(n, i => Lookup(t, i + 1))
  }

  /** Lines 70 and 74: the probability of each value 1..n under a combined counter. */
  function Odds(t: map<int, real>, n: nat): (p: seq<real>)
    ensures |p| == n
  {
    Probabilities(WeightList(t, n))
  }

  /** `a` sorts before `b` when the sheet is sorted at line 184: its date string is not smaller. */
  predicate RowNewerOrSame(a: Row, b: Row)
  {
    StrLe(Iso(b.date), Iso(a.date))
  }

  /** The sorting at line 184: rows by their date strings, newest first. */
  function SortRowsNewestFirst(rows: seq<Row>): (r: seq<Row>)
    ensures multiset(r) == multiset(rows) && |r| == |rows|
  {
    SortBy(rows, RowNewerOrSame)
  }

  /** The rewritten sheet runs from the latest date down to the earliest. */
  lemma RowsNewestFirstOrder(rows: seq<Row>)
    ensures var r := SortRowsNewestFirst(rows);
            forall i, j :: 0 <= i < j < |r| ==> DateLe(r[j].date, r[i].date)
  {
    forall a: Row, b: Row ensures RowNewerOrSame(a, b) == DateLe(b.date, a.date) {
      IsoOrder(b.date, a.date);
    }
    assert IsTotalPreorder(RowNewerOrSame);
    SortBySorted(rows, RowNewerOrSame);
  }

  class EuroMillionsWeb {
    /** The spreadsheet at `data_path`. */
    var sheet: seq<Row>
    /** `self.data`: the loaded draws, newest first. */
    var data: seq<Draw>
    /** Whether `self.data` has been set: some load got past parsing the sheet. */
    var hasData: bool
    /** Whether a load has built the counters (before that, `generate_bets` has nothing to read). */
    var loaded: bool
    /**
     * `self.number_freq`, `self.star_freq`, `self.recent_number_freq`, `self.recent_star_freq`,
     * `self.combined_number_freq` and `self.combined_star_freq`, which a load sets together.
     */
    var counters: Tables
    /** The draws the counters were last built from. */
    ghost var loadedFrom: seq<Draw>

    /** Every loaded draw comes from its own row. */
    ghost predicate RowsParsed()
      reads this`data
    {
      forall d :: d in data ==> ParseRow(d.row) == Ok(d)
    }

    /** Built counters are those of the draws they came from. */
    ghost predicate Built()
      reads this`loaded, this`loadedFrom, this`counters
    {
      loaded ==> |loadedFrom| > 0 && counters == TablesFor(loadedFrom)
    }

    ghost predicate Valid()
      reads this`data, this`loaded, this`loadedFrom, this`counters
    {
      RowsParsed() && Built()
    }

    /** Lines 11-13: the object reads its spreadsheet at once. */
    constructor(spreadsheet: seq<Row>)
      ensures Valid()
      ensures sheet == spreadsheet
      ensures hasData <==> ParseRows(spreadsheet).Ok?
      ensures ParseRows(spreadsheet).Ok? ==> data == SortNewestFirst(ParseRows(spreadsheet).value)
      ensures loaded <==> ParseRows(spreadsheet).Ok? && |spreadsheet| > 0
      ensures loaded ==> loadedFrom == data && counters == TablesFor(data)
    {
      sheet := spreadsheet;
      data, hasData := [], false;
      loaded := false;
      counters := Tables(map[], map[], map[], map[], map[], map[]);
      loadedFrom := [];
      new;
      var _ := LoadData();
    }

    /**
     * Lines 16-62. A cell that is not a list of integers leaves everything as it was. Otherwise
     * the draws are sorted newest first; an empty sheet then has no latest date and the counters
     * stay as they were; a non-empty one gets all six counters rebuilt from its draws.
     */
    method LoadData() returns (r: Result<()>)
      modifies this
      ensures sheet == old(sheet)
      ensures ParseRows(sheet).Err? ==> r == Err(NotAnInteger) && unchanged(this)
      ensures ParseRows(sheet).Ok? ==> hasData && data == SortNewestFirst(ParseRows(sheet).value)
      ensures ParseRows(sheet).Ok? && |sheet| == 0 ==>
                && r == Err(NoDraws) && loaded == old(loaded)
                && counters == old(counters) && loadedFrom == old(loadedFrom)
      ensures ParseRows(sheet).Ok? && |sheet| > 0 ==>
                r == Ok(()) && Valid() && loaded && loadedFrom == data && counters == TablesFor(data)
    {
      var parsed := ParseRows(sheet);
      if parsed.Err? {
        return Err(parsed.error);
      }
      var draws := SortNewestFirst(parsed.value);
      SortedDrawsLoadBack(sheet);
      data, hasData := draws, true;
      if |draws| == 0 {
        return Err(NoDraws);
      }
      var tables := BuildTables(draws);
      assert RowsParsed();
      SetCounters(tables, draws);
      return Ok(());
    }

    /** Lines 30-62 as assignments: the six counter attributes take the counters of `from`. */
    method SetCounters(t: Tables, ghost from: seq<Draw>)
      requires |from| > 0 && t == TablesFor(from)
      modifies this
      ensures Built() && loaded && loadedFrom == from
      ensures sheet == old(sheet) && data == old(data) && hasData == old(hasData)
    {
      counters, loaded, loadedFrom := t, true, from;
    }

    /**
     * Lines 66-80: five bets, each drawn without replacement by the combined weights. Drawing
     * fails exactly when fewer than five numbers or fewer than two stars have positive
     * probability; otherwise every bet holds five and two distinct values, ascending, each of
     * positive probability.
     */
    method GenerateBets() returns (r: Result<seq<Bet>>)
      requires Built()
      ensures !loaded ==> r == Err(NotLoaded)
      ensures loaded ==>
                var numberOdds := Odds(counters.combinedNumberFreq, 50);
                var starOdds := Odds(counters.combinedStarFreq, 12);
                && (r.Ok? <==> |PositiveIndices(numberOdds)| >= 5 && |PositiveIndices(starOdds)| >= 2)
                && (r.Err? ==> r.error == FewerNonZeroEntries)
                && (r.Ok? ==> |r.value| == 5 && forall b :: b in r.value ==>
                                IsPick(b.numbers, numberOdds, 5) && IsPick(b.stars, starOdds, 2))
      ensures loaded && (forall i :: 0 <= i < |loadedFrom| ==> WellFormed(loadedFrom[i])) ==> r.Ok?
    {
      if !loaded {
        return Err(NotLoaded);
      }
      var numberOdds := Odds(counters.combinedNumberFreq, 50);
      var starOdds := Odds(counters.combinedStarFreq, 12);
      OddsAreDistribution(loadedFrom, Numbers);
      OddsAreDistribution(loadedFrom, Stars);
      if forall i :: 0 <= i < |loadedFrom| ==> WellFormed(loadedFrom[i]) {
        WellFormedSheetCanBet(loadedFrom, Numbers);
        WellFormedSheetCanBet(loadedFrom, Stars);
      }
      r := DrawBets(numberOdds, starOdds);
    }

    /**
     * Line 197: `combined_number_freq.most_common(10)`, the ten numbers shown as most frequent.
     * Before any load has built the counters the attribute does not exist and the line raises.
     * A load fills the counter for every number 1..50 (`WeightTableKeys`).
     */
    function TopNumbers(): (r: Result<seq<Item>>)
      reads this`loaded, this`loadedFrom, this`counters
      requires Built()
      ensures !loaded ==> r == Err(NotLoaded)
      ensures loaded ==> && (forall v :: 1 <= v <= 50 ==> v in counters.combinedNumberFreq)
                         && r.Ok? && IsTopK(counters.combinedNumberFreq, 50, 10, r.value)
    {
      if !loaded then Err(NotLoaded)
      else
        WeightTableKeys(loadedFrom, Numbers);
        MostCommonIsTopK(counters.combinedNumberFreq, 50, 10);
        Ok(MostCommon(counters.combinedNumberFreq, 50, 10))
    }

    /**
     * Line 202: `combined_star_freq.most_common(5)`, the five stars shown as most frequent,
     * raising in the same way before any load has built the counters.
     */
    function TopStars(): (r: Result<seq<Item>>)
      reads this`loaded, this`loadedFrom, this`counters
      requires Built()
      ensures !loaded ==> r == Err(NotLoaded)
      ensures loaded ==> && (forall v :: 1 <= v <= 12 ==> v in counters.combinedStarFreq)
                         && r.Ok? && IsTopK(counters.combinedStarFreq, 12, 5, r.value)
    {
      if !loaded then Err(NotLoaded)
      else
        WeightTableKeys(loadedFrom, Stars);
        MostCommonIsTopK(counters.combinedStarFreq, 12, 5);
        Ok(MostCommon(counters.combinedStarFreq, 12, 5))
    }

    /**
     * Lines 174-186: a draw typed in by hand. Text that is not five and two comma-separated
     * integers changes nothing, and so does an object whose `self.data` was never set (the
     * access at line 184 raises). Otherwise the row is put in front of the loaded rows, the sheet
     * is rewritten sorted newest first and reloaded: the loaded draws are then the old ones plus
     * the new one, and the counters are rebuilt from them.
     */
    method AddDraw(date: DrawDate, numbersText: string, starsText: string) returns (r: Result<()>)
      requires Valid()
      modifies this
      ensures Valid()
      ensures ParseEntry(numbersText, starsText).Err? ==>
                r == Err(ParseEntry(numbersText, starsText).error) && unchanged(this)
      ensures ParseEntry(numbersText, starsText).Ok? && !old(hasData) ==> r == Err(NotLoaded) && unchanged(this)
      ensures ParseEntry(numbersText, starsText).Ok? && old(hasData) ==>
                var (numbers, stars) := ParseEntry(numbersText, starsText).value;
                var added := Draw(NewRow(date, numbers, stars), numbers, stars);
                && r == Ok(())
                && sheet == SortRowsNewestFirst([added.row] + RowsOf(old(data)))
                && multiset(data) == multiset(old(data)) + multiset{added}
                && (forall i, j :: 0 <= i < j < |data| ==> DateLe(data[j].row.date, data[i].row.date))
                && hasData && loaded && loadedFrom == data && counters == TablesFor(data)
    {
      var entry := ParseEntry(numbersText, starsText);
      if entry.Err? {
        return Err(entry.error);
      }
      if !hasData {
        return Err(NotLoaded);
      }
      var (numbers, stars) := entry.value;
      NewRowLoadsBack(date, numbersText, starsText);
      var added := Draw(NewRow(date, numbers, stars), numbers, stars);
      sheet := SortRowsNewestFirst([added.row] + RowsOf(data));
      AddedSheetLoads(data, added);
      ghost var loading := ParseRows(sheet).value;
      r := LoadData();
      assert data == SortNewestFirst(loading);
      NewestFirstOrder(loading);
    }
  }

  /** The rewritten sheet of line 184 loads as the loaded draws plus the added one. */
  lemma AddedSheetLoads(ds: seq<Draw>, added: Draw)
    requires forall d :: d in ds ==> ParseRow(d.row) == Ok(d)
    requires ParseRow(added.row) == Ok(added)
    ensures var sheet := SortRowsNewestFirst([added.row] + RowsOf(ds));
            && |sheet| > 0 && ParseRows(sheet).Ok?
            && multiset(ParseRows(sheet).value) == multiset(ds) + multiset{added}
  {
    var draws := [added] + ds;
    assert RowsOf(draws) == [added.row] + RowsOf(ds);
    assert multiset(draws) == multiset(ds) + multiset{added};
    ConsMembers(added, ds);
    SheetLoadsAsDraws(draws, SortRowsNewestFirst(RowsOf(draws)));
  }

  /**
   * Lines 75-80: five times, five numbers and then two stars drawn by the given
   * probabilities; the first draw that fails ends the loop with its error.
   */
  method DrawBets(numberOdds: seq<real>, starOdds: seq<real>) returns (r: Result<seq<Bet>>)
    requires |numberOdds| == 50 && NonNegative(numberOdds) && Sum(numberOdds) == 1.0
    requires |starOdds| == 12 && NonNegative(starOdds) && Sum(starOdds) == 1.0
    ensures r.Ok? <==> |PositiveIndices(numberOdds)| >= 5 && |PositiveIndices(starOdds)| >= 2
    ensures r.Err? ==> r.error == FewerNonZeroEntries
    ensures r.Ok? ==> |r.value| == 5 && forall b :: b in r.value ==>
                        IsPick(b.numbers, numberOdds, 5) && IsPick(b.stars, starOdds, 2)
  {
    var bets: seq<Bet> := [];
    var i := 0;
    while i < 5
      invariant 0 <= i <= 5 && |bets| == i
      invariant i > 0 ==> |PositiveIndices(numberOdds)| >= 5 && |PositiveIndices(starOdds)| >= 2
      invariant forall b :: b in bets ==> IsPick(b.numbers, numberOdds, 5) && IsPick(b.stars, starOdds, 2)
    {
      var numbers := SortedChoice(numberOdds, 5);
      if numbers.Err? {
        return Err(numbers.error);
      }
      var stars := SortedChoice(starOdds, 2);
      if stars.Err? {
        return Err(stars.error);
      }
      bets := bets + [Bet(numbers.value, stars.value)];
      i := i + 1;
    }
    return Ok(bets);
  }

  /** The probabilities a loaded sheet gives are a distribution, so numpy accepts them. */
  lemma OddsAreDistribution(ds: seq<Draw>, k: Kind)
    requires |ds| > 0
    ensures var p := Odds(WeightTable(ds, k), Highest(k));
            NonNegative(p) && Sum(p) == 1.0
  {
    var w := WeightList(WeightTable(ds, k), Highest(k));
    forall i | 0 <= i < |w| ensures w[i] >= 0.0 {
      WeightPositiveIffDrawn(ds, k, i + 1);
    }
    ProbabilitiesAreDistribution(w);
  }

  /** Some draw holds value `j + 1` of kind `k`. */
  predicate DrawnAt(ds: seq<Draw>, k: Kind, j: int)
  {
    exists i :: 0 <= i < |ds| && j + 1 in Values(ds[i], k)
  }

  /** The indices `v - 1` of the values of kind `k` in 1..Highest(k) that some draw holds. */
  function DrawnIndices(ds: seq<Draw>, k: Kind): set<int>
  {
    set j | 0 <= j < Highest(k) && DrawnAt(ds, k, j)
  }

  /** The weight list of a loaded sheet is non-negative, and positive exactly at the drawn values. */
  lemma WeightsPositiveWhereDrawn(ds: seq<Draw>, k: Kind)
    requires |ds| > 0
    ensures var w := WeightList(WeightTable(ds, k), Highest(k));
            NonNegative(w) && PositiveIndices(w) == DrawnIndices(ds, k)
  {
    var w := WeightList(WeightTable(ds, k), Highest(k));
    forall j | 0 <= j < |w| ensures w[j] >= 0.0 && (w[j] > 0.0 <==> j in DrawnIndices(ds, k)) {
      WeightPositiveIffDrawn(ds, k, j + 1);
    }
  }

  /**
   * Lines 69-74: a value has positive probability exactly when some draw holds it, or, when no
   * draw holds any value of the range, every value has (the uniform fallback).
   */
  lemma OddsPositiveWhereDrawn(ds: seq<Draw>, k: Kind)
    requires |ds| > 0
    ensures var positive := PositiveIndices(Odds(WeightTable(ds, k), Highest(k)));
            && (DrawnIndices(ds, k) != {} ==> positive == DrawnIndices(ds, k))
            && (DrawnIndices(ds, k) == {} ==> forall j :: 0 <= j < Highest(k) <==> j in positive)
  {
    WeightsPositiveWhereDrawn(ds, k);
    PositiveWhereWeighted(WeightList(WeightTable(ds, k), Highest(k)));
  }

  /** In a sheet of lottery draws, the first draw alone holds five numbers and two stars. */
  lemma WellFormedSheetDrawsEnough(ds: seq<Draw>, k: Kind)
    requires |ds| > 0 && forall i :: 0 <= i < |ds| ==> WellFormed(ds[i])
    ensures |DrawnIndices(ds, k)| >= PerDraw(k) > 0
  {
    var values := Values(ds[0], k);
    assert InRange(ds[0], k) && Distinct(values) by {
      assert WellFormed(ds[0]);
    }
    var shifted := seq(|values|, i requires 0 <= i < |values| => values[i] - 1);
    var drawn := DrawnIndices(ds, k);
    forall i | 0 <= i < |shifted| ensures shifted[i] in drawn {
      assert shifted[i] + 1 == values[i] && 1 <= values[i] <= Highest(k);
      assert DrawnAt(ds, k, shifted[i]) by {
        assert values[i] in Values(ds[0], k);
      }
    }
    assert Distinct(shifted) by {
      forall i, j | 0 <= i < j < |shifted| ensures shifted[i] != shifted[j] {
        assert values[i] != values[j];
      }
    }
    DistinctInSet(shifted, drawn);
  }

  /** A sheet of lottery draws gives at least five numbers and two stars positive probability. */
  lemma WellFormedSheetCanBet(ds: seq<Draw>, k: Kind)
    requires |ds| > 0 && forall i :: 0 <= i < |ds| ==> WellFormed(ds[i])
    ensures |PositiveIndices(Odds(WeightTable(ds, k), Highest(k)))| >= PerDraw(k)
  {
    WellFormedSheetDrawsEnough(ds, k);
    OddsPositiveWhereDrawn(ds, k);
  }

  /**
   * The entry check lets "x,x,x,x,x" through; a sheet holding only that draw gives one number
   * positive probability, fewer than the five each bet needs, so generating bets fails.
   */
  lemma RepeatedNumbersStarveBets(d: Draw, x: int)
    requires d.numbers == [x, x, x, x, x] && 1 <= x <= 50
    ensures |PositiveIndices(Odds(WeightTable([d], Numbers), 50))| == 1
  {
    forall j | j in DrawnIndices([d], Numbers) ensures j == x - 1 {
      var i :| 0 <= i < 1 && j + 1 in Values([d][i], Numbers);
    }
    assert DrawnAt([d], Numbers, x - 1) by {
      assert x in Values([d][0], Numbers);
    }
    assert DrawnIndices([d], Numbers) == {x - 1};
    OddsPositiveWhereDrawn([d], Numbers);
  }
}
