/**
 * Spreadsheet rows, the draws parsed from them, and the check applied to a draw entered by
 * hand before it is appended to the spreadsheet.
 */
module Rows {
  import opened Common
  import opened Text
  import opened Dates
  import opened Sorting

  /** One spreadsheet row: `Date`, `Lucky Numbers` and `Lucky Stars` (the last two comma-separated). */
  datatype Row = Row(date: DrawDate, luckyNumbers: string, luckyStars: string)

  /** A loaded row: the spreadsheet row with its `Numbers` and `Stars` columns parsed from the cells. */
  datatype Draw = Draw(row: Row, numbers: seq<int>, stars: seq<int>)

  /** The two universes: main numbers 1..50, five per draw, and stars 1..12, two per draw. */
  datatype Kind = Numbers | Stars

  function Values(d: Draw, k: Kind): seq<int>
  {
    match k
    case Numbers => d.numbers
    case Stars => d.stars
  }

  function Highest(k: Kind): int
  {
    match k
    case Numbers => 50
    case Stars => 12
  }

  function PerDraw(k: Kind): nat
  {
    match k
    case Numbers => 5
    case Stars => 2
  }

  /** The draw holds `PerDraw(k)` values of kind `k`, each in 1..`Highest(k)`. */
  predicate InRange(d: Draw, k: Kind)
  {
    && |Values(d, k)| == PerDraw(k)
    && forall i :: 0 <= i < |Values(d, k)| ==> 1 <= Values(d, k)[i] <= Highest(k)
  }

  /** A draw as the lottery makes it: five distinct numbers in 1..50 and two distinct stars in 1..12. */
  predicate WellFormed(d: Draw)
  {
    forall k: Kind :: InRange(d, k) && Distinct(Values(d, k))
  }

  /** Lines 20-21 for one row: both cells through `[int(n) for n in x.split(',')]`. */
  function ParseRow(r: Row): (res: Result<Draw>)
    ensures res.Ok? <==> ParseIntList(r.luckyNumbers).Ok? && ParseIntList(r.luckyStars).Ok?
    ensures res.Ok? ==> && res.value.row == r
                        && ParseIntList(r.luckyNumbers) == Ok(res.value.numbers)
                        && ParseIntList(r.luckyStars) == Ok(res.value.stars)
    ensures res.Err? ==> res.error == NotAnInteger
  {
    match ParseIntList(r.luckyNumbers)
    case Err(e) => Err(e)
    case Ok(numbers) =>
      match ParseIntList(r.luckyStars)
      case Err(e) => Err(e)
      case Ok(stars) => Ok(Draw(r, numbers, stars))
  }

  /** Lines 20-21 for the whole sheet: one cell that is not a list of integers fails the load. */
  function ParseRows(rows: seq<Row>): (res: Result<seq<Draw>>)
    ensures res.Ok? <==> forall i :: 0 <= i < |rows| ==> ParseRow(rows[i]).Ok?
    ensures res.Ok? ==> |res.value| == |rows| && forall i :: 0 <= i < |rows| ==> ParseRow(rows[i]) == Ok(res.value[i])
    ensures res.Err? ==> res.error == NotAnInteger
  {
    MapResult(rows, ParseRow)
  }

  /**
   * Lines 175-178: both fields are parsed as comma-separated integers, and the entry is
   * accepted only with exactly five numbers and two stars. Ranges and repeats are not checked.
   */
  function ParseEntry(numbersText: string, starsText: string): (r: Result<(seq<int>, seq<int>)>)
    ensures r.Ok? <==> && ParseIntList(numbersText).Ok? && |ParseIntList(numbersText).value| == 5
                       && ParseIntList(starsText).Ok? && |ParseIntList(starsText).value| == 2
    ensures r.Ok? ==> ParseIntList(numbersText) == Ok(r.value.0) && ParseIntList(starsText) == Ok(r.value.1)
    ensures r.Err? && ParseIntList(numbersText).Ok? && ParseIntList(starsText).Ok? ==> r.error == WrongCount
  {
    match ParseIntList(numbersText)
    case Err(e) => Err(e)
    case Ok(numbers) =>
      match ParseIntList(starsText)
      case Err(e) => Err(e)
      case Ok(stars) =>
        if |numbers| != 5 || |stars| != 2 then Err(WrongCount) else Ok((numbers, stars))
  }

  /** Lines 179-183: the row written for an accepted entry, both lists joined with commas. */
  function NewRow(date: DrawDate, numbers: seq<int>, stars: seq<int>): Row
  {
    Row(date, FormatIntList(numbers), FormatIntList(stars))
  }

  /** The row written for an accepted entry loads back as exactly the entered draw. */
  lemma NewRowLoadsBack(date: DrawDate, numbersText: string, starsText: string)
    requires ParseEntry(numbersText, starsText).Ok?
    ensures var (numbers, stars) := ParseEntry(numbersText, starsText).value;
            ParseRow(NewRow(date, numbers, stars)) == Ok(Draw(NewRow(date, numbers, stars), numbers, stars))
  {
    var (numbers, stars) := ParseEntry(numbersText, starsText).value;
    FormatParse(numbers);
    FormatParse(stars);
  }

  /**
   * The entry check counts values only: any five integers and any two integers written with
   * commas are accepted, repeated or out of range (say five times 1, or 0 and 99).
   */
  lemma EntryChecksCountsOnly(numbers: seq<int>, stars: seq<int>)
    requires |numbers| == 5 && |stars| == 2
    ensures ParseEntry(FormatIntList(numbers), FormatIntList(stars)) == Ok((numbers, stars))
  {
    FormatParse(numbers);
    FormatParse(stars);
  }

  /** Well-formed integer lists of the wrong length are refused with the count error. */
  lemma EntryRejectsWrongCount(numbers: seq<int>, stars: seq<int>)
    requires |numbers| >= 1 && |stars| >= 1
    requires |numbers| != 5 || |stars| != 2
    ensures ParseEntry(FormatIntList(numbers), FormatIntList(stars)) == Err(WrongCount)
  {
    FormatParse(numbers);
    FormatParse(stars);
  }

  function RowOf(d: Draw): Row
  {
    d.row
  }

  /** The `Date`, `Lucky Numbers` and `Lucky Stars` columns of loaded draws, as written back to the sheet. */
  function RowsOf(ds: seq<Draw>): (rows: seq<Row>)
    ensures |rows| == |ds| && forall i :: 0 <= i < |ds| ==> rows[i] == ds[i].row
  {
    MapSeqAll(ds, RowOf);
    MapSeq(ds, RowOf)
  }

  /** The draw a row loads as; a row that does not parse is given empty lists here. */
  ghost function LoadedDraw(r: Row): Draw
  {
    match ParseRow(r)
    case Ok(d) => d
    case Err(_) => Draw(r, [], [])
  }

  /** The draws loaded from a sheet give back its rows, and each is the draw its own row loads as. */
  lemma LoadedRows(rows: seq<Row>)
    requires ParseRows(rows).Ok?
    ensures RowsOf(ParseRows(rows).value) == rows
    ensures forall d :: d in ParseRows(rows).value ==> LoadedDraw(RowOf(d)) == d
  {
    var loaded := ParseRows(rows).value;
    assert RowsOf(loaded) == rows;
    forall d | d in loaded ensures LoadedDraw(RowOf(d)) == d {
      var i :| 0 <= i < |loaded| && loaded[i] == d;
    }
  }

  /** A sheet holding, in any order, the rows of draws that each load back from their row loads as those draws. */
  lemma SheetLoadsAsDraws(ds: seq<Draw>, rows: seq<Row>)
    requires forall d :: d in ds ==> ParseRow(d.row) == Ok(d)
    requires multiset(rows) == multiset(RowsOf(ds))
    ensures ParseRows(rows).Ok?
    ensures multiset(ParseRows(rows).value) == multiset(ds)
  {
    forall i | 0 <= i < |rows| ensures ParseRow(rows[i]).Ok? {
      var j := PermutationIndex(RowsOf(ds), rows, i);
      assert ds[j] in ds;
    }
    var loaded := ParseRows(rows).value;
    LoadedRows(rows);
    MapInverse(loaded, RowOf, LoadedDraw);
    MapInverse(ds, RowOf, LoadedDraw);
    PermutationMap(rows, RowsOf(ds), LoadedDraw);
  }
}
