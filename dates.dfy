/**
 * Draw dates. The application turns every date into its `%Y-%m-%d` text and then compares
 * those texts as Python strings (sorting, the latest date, the two-year window); this module
 * shows that for calendar dates the string order is the chronological order.
 */
module Dates {
  import Text

  datatype Date = Date(year: int, month: int, day: int)

  /** Draw dates stay within these years, so that they and the date two years earlier are pandas Timestamps. */
  const FirstYear := 1680
  const LastYear := 2261

  predicate IsLeapYear(y: int)
  {
    y % 4 == 0 && (y % 100 != 0 || y % 400 == 0)
  }

  function DaysInMonth(y: int, m: int): (n: int)
    requires 1 <= m <= 12
    ensures 28 <= n <= 31
  {
    if m == 2 then (if IsLeapYear(y) then 29 else 28)
    else if m == 4 || m == 6 || m == 9 || m == 11 then 30
    else 31
  }

  /** A real day of the Gregorian calendar whose year has at most four digits. */
  predicate IsCalendarDate(d: Date)
  {
    0 <= d.year <= 9999 && 1 <= d.month <= 12 && 1 <= d.day <= DaysInMonth(d.year, d.month)
  }

  predicate IsDrawDate(d: Date)
  {
    IsCalendarDate(d) && FirstYear <= d.year <= LastYear
  }

  type DrawDate = d: Date | IsDrawDate(d) witness Date(2004, 2, 13)

  /** Chronological order: `a` is on or before `b`. */
  predicate DateLe(a: Date, b: Date)
  {
    a.year < b.year || (a.year == b.year && (a.month < b.month || (a.month == b.month && a.day <= b.day)))
  }

  function Pow10(w: nat): (p: nat)
    ensures p >= 1
  {
    if w == 0 then 1 else 10 * Pow10(w - 1)
  }

  /** `n` written with exactly `w` decimal digits, zero-padded on the left. */
  function Pad(n: nat, w: nat): (s: string)
    requires n < Pow10(w)
    ensures |s| == w
  {
    if w == 0 then []
    else
      var p := Pow10(w - 1);
      assert n / p < 10 by { DivBelow(n, p, 10); }
      [Text.DigitChar(n / p)] + Pad(n % p, w - 1)
  }

  lemma DivBelow(n: nat, p: nat, k: nat)
    requires p > 0 && n < k * p
    ensures n / p < k
  {
  }

  lemma MulLe(p: nat, x: nat, y: nat)
    requires x <= y
    ensures p * x <= p * y
  {
    assert p * y == p * x + p * (y - x);
  }

  /** `date.strftime('%Y-%m-%d')`. */
  function Iso(d: Date): (s: string)
    requires IsCalendarDate(d)
    ensures |s| == 10
  {
    Pad(d.year, 4) + ("-" + (Pad(d.month, 2) + ("-" + Pad(d.day, 2))))
  }

  /** Python's `a <= b` on strings: code points compared left to right, a prefix first. */
  predicate StrLe(a: string, b: string)
  {
    a == [] || (b != [] && (a[0] < b[0] || (a[0] == b[0] && StrLe(a[1..], b[1..]))))
  }

  lemma StrLeCons(c: char, d: char, s: string, t: string)
    ensures StrLe([c] + s, [d] + t) == (c < d || (c == d && StrLe(s, t)))
  {
    assert ([c] + s)[0] == c && ([c] + s)[1..] == s;
    assert ([d] + t)[0] == d && ([d] + t)[1..] == t;
  }

  /** Numbers written as quotient and remainder by the same `p` compare by quotient, then remainder. */
  lemma SplitOrder(qa: nat, ra: nat, qb: nat, rb: nat, p: nat)
    requires ra < p && rb < p
    ensures p * qa + ra < p * qb + rb <==> (qa < qb || (qa == qb && ra < rb))
    ensures p * qa + ra == p * qb + rb <==> (qa == qb && ra == rb)
  {
    if qa < qb {
      MulLe(p, qa + 1, qb);
      assert p * (qa + 1) == p * qa + p;
    } else if qb < qa {
      MulLe(p, qb + 1, qa);
      assert p * (qb + 1) == p * qb + p;
    }
  }

  lemma DivModOrder(a: nat, b: nat, p: nat)
    requires p > 0
    ensures a < b <==> (a / p < b / p || (a / p == b / p && a % p < b % p))
    ensures a == b <==> (a / p == b / p && a % p == b % p)
  {
    SplitOrder(a / p, a % p, b / p, b % p, p);
  }

  lemma DigitCharOrder(x: int, y: int)
    requires 0 <= x < 10 && 0 <= y < 10
    ensures Text.DigitChar(x) < Text.DigitChar(y) <==> x < y
    ensures Text.DigitChar(x) == Text.DigitChar(y) <==> x == y
  {
  }

  lemma PadHead(n: nat, w: nat)
    requires w > 0 && n < Pow10(w)
    ensures 0 <= n / Pow10(w - 1) < 10 && 0 <= n % Pow10(w - 1) < Pow10(w - 1)
    ensures Pad(n, w) == [Text.DigitChar(n / Pow10(w - 1))] + Pad(n % Pow10(w - 1), w - 1)
  {
    DivBelow(n, Pow10(w - 1), 10);
  }

  /** Comparing two zero-padded fields of equal width compares their values first. */
  lemma {:induction false} PadCompare(a: nat, b: nat, w: nat, s: string, t: string)
    requires a < Pow10(w) && b < Pow10(w)
    ensures StrLe(Pad(a, w) + s, Pad(b, w) + t) == (a < b || (a == b && StrLe(s, t)))
    decreases w
  {
    if w == 0 {
      assert Pad(a, w) + s == s && Pad(b, w) + t == t;
    } else {
      var p := Pow10(w - 1);
      PadHead(a, w);
      PadHead(b, w);
      var qa, ra, qb, rb := a / p, a % p, b / p, b % p;
      var ca, cb := Text.DigitChar(qa), Text.DigitChar(qb);
      var restA, restB := Pad(ra, w - 1) + s, Pad(rb, w - 1) + t;
      assert Pad(a, w) + s == [ca] + restA;
      assert Pad(b, w) + t == [cb] + restB;
      StrLeCons(ca, cb, restA, restB);
      PadCompare(ra, rb, w - 1, s, t);
      DigitCharOrder(qa, qb);
      DivModOrder(a, b, p);
    }
  }

  /** On calendar dates, comparing the `%Y-%m-%d` strings is comparing the dates. */
  lemma IsoOrder(a: Date, b: Date)
    requires IsCalendarDate(a) && IsCalendarDate(b)
    ensures StrLe(Iso(a), Iso(b)) == DateLe(a, b)
  {
    assert Pow10(2) == 100 && Pow10(4) == 10000;
    var dayA, dayB := Pad(a.day, 2), Pad(b.day, 2);
    var monthA, monthB := Pad(a.month, 2) + ("-" + dayA), Pad(b.month, 2) + ("-" + dayB);
    PadCompare(a.year, b.year, 4, "-" + monthA, "-" + monthB);
    StrLeCons('-', '-', monthA, monthB);
    PadCompare(a.month, b.month, 2, "-" + dayA, "-" + dayB);
    StrLeCons('-', '-', dayA, dayB);
    PadCompare(a.day, b.day, 2, "", "");
    assert dayA + "" == dayA && dayB + "" == dayB;
  }

  function Min(a: int, b: int): int
  {
    if a <= b then a else b
  }

  /**
   * `date - pd.DateOffset(years=2)`: the same month and day two years earlier. Only 29 February
   * has no counterpart, because two years before a leap year is never a leap year; it becomes
   * 28 February.
   */
  function TwoYearsBefore(d: DrawDate): (r: Date)
    ensures IsCalendarDate(r)
    ensures r.year == d.year - 2 && r.month == d.month
    ensures r.day == Min(d.day, DaysInMonth(d.year - 2, d.month))
    ensures DateLe(r, d) && r != d
  {
    if d.month == 2 && d.day == 29 then Date(d.year - 2, 2, 28) else Date(d.year - 2, d.month, d.day)
  }
}
