/**
 * The text conversions the application applies to draw cells: Python's `int(...)` on a
 * piece of text, `str(n)` on an integer, `str.split(',')` and `','.join(...)`.
 */
module Text {
  import opened Common

  predicate IsDigit(c: char)
  {
    '0' <= c <= '9'
  }

  /**
   * The characters of Python's `str.isspace()`: those `str.strip()` removes and `int(...)`
   * skips before and after the digits.
   */
  predicate IsSpace(c: char)
  {
    || c == ' ' || '\t' <= c <= '\r' || '\U{001C}' <= c <= '\U{001F}'
    || c == '\U{0085}' || c == '\U{00A0}' || c == '\U{1680}' || '\U{2000}' <= c <= '\U{200A}'
    || c == '\U{2028}' || c == '\U{2029}' || c == '\U{202F}' || c == '\U{205F}' || c == '\U{3000}'
  }

  predicate AllDigits(s: string)
  {
    |s| >= 1 && forall i :: 0 <= i < |s| ==> IsDigit(s[i])
  }

  function DigitChar(d: int): (c: char)
    requires 0 <= d < 10
    ensures IsDigit(c)
  {
    ('0' as int + d) as char
  }

  function DigitValue(c: char): (d: int)
    requires IsDigit(c)
    ensures 0 <= d < 10 && DigitChar(d) == c
  {
    c as int - '0' as int
  }

  /** The value of a string of decimal digits, most significant first (leading zeros allowed). */
  function DigitsValue(s: string): nat
    requires forall i :: 0 <= i < |s| ==> IsDigit(s[i])
  {
    if s == [] then 0 else DigitsValue(s[..|s| - 1]) * 10 + DigitValue(s[|s| - 1])
  }

  /** `str(n)` for a non-negative integer: its decimal digits without leading zeros. */
  function NatStr(n: nat): (s: string)
    ensures AllDigits(s)
    ensures s[0] == '0' ==> s == "0"
    decreases n
  {
    if n < 10 then [DigitChar(n)] else NatStr(n / 10) + [DigitChar(n % 10)]
  }

  /** `str(n)` for any integer. */
  function Str(n: int): (s: string)
    ensures |s| >= 1 && IsDigit(s[|s| - 1])
    ensures n < 0 <==> s[0] == '-'
    ensures ',' !in s
  {
    if n < 0 then "-" + NatStr(-n) else NatStr(n)
  }

  function TrimLeft(s: string): (t: string)
    ensures |t| <= |s|
  {
    if s != [] && IsSpace(s[0]) then TrimLeft(s[1..]) else s
  }

  function TrimRight(s: string): (t: string)
    ensures |t| <= |s|
  {
    if s != [] && IsSpace(s[|s| - 1]) then TrimRight(s[..|s| - 1]) else s
  }

  /** `s.strip()`: drops leading and trailing whitespace. */
  function Strip(s: string): string
  {
    TrimRight(TrimLeft(s))
  }

  /**
   * `int(s)`: surrounding whitespace is ignored; what is left must be an optional sign
   * followed by one or more decimal digits, otherwise `int` raises `ValueError`.
   */
  function ParseInt(s: string): Result<int>
  {
    var t := Strip(s);
    if |t| >= 1 && (t[0] == '-' || t[0] == '+') && AllDigits(t[1..]) then
      var magnitude: int := DigitsValue(t[1..]);
      Ok(if t[0] == '-' then -magnitude else magnitude)
    else if AllDigits(t) then
      Ok(DigitsValue(t))
    else
      Err(NotAnInteger)
  }

  lemma {:induction false} NatStrValue(n: nat)
    ensures DigitsValue(NatStr(n)) == n
    decreases n
  {
    if n >= 10 {
      var s := NatStr(n);
      assert s[..|s| - 1] == NatStr(n / 10);
      NatStrValue(n / 10);
    }
  }

  /** Text that starts and ends with something other than whitespace is left as it is by `strip`. */
  lemma StripKeeps(s: string)
    requires |s| >= 1 && !IsSpace(s[0]) && !IsSpace(s[|s| - 1])
    ensures Strip(s) == s
  {
  }

  /** `int(str(n)) == n` for every integer. */
  lemma ParseStr(n: int)
    ensures ParseInt(Str(n)) == Ok(n)
  {
    if n < 0 {
      ParseNegative(n);
    } else {
      ParseNonNegative(n);
    }
  }

  lemma ParseNegative(n: int)
    requires n < 0
    ensures ParseInt(Str(n)) == Ok(n)
  {
    var digits := NatStr(-n);
    NatStrValue(-n);
    ParseSigned(digits);
    assert 0 - DigitsValue(digits) == n;
  }

  lemma ParseNonNegative(n: int)
    requires n >= 0
    ensures ParseInt(Str(n)) == Ok(n)
  {
    var digits := NatStr(n);
    assert Str(n) == digits;
    NatStrValue(n);
    ParseUnsigned(digits);
  }

  lemma ParseSigned(digits: string)
    requires AllDigits(digits)
    ensures ParseInt("-" + digits) == Ok(0 - DigitsValue(digits))
  {
    var t := "-" + digits;
    assert t[1..] == digits && t[|t| - 1] == digits[|digits| - 1];
    StripKeeps(t);
  }

  lemma ParseUnsigned(digits: string)
    requires AllDigits(digits)
    ensures ParseInt(digits) == Ok(DigitsValue(digits))
  {
    assert IsDigit(digits[0]) && IsDigit(digits[|digits| - 1]);
    StripKeeps(digits);
  }

  /** Text made only of whitespace strips to nothing. */
  lemma {:induction false} TrimBlank(s: string)
    requires forall i :: 0 <= i < |s| ==> IsSpace(s[i])
    ensures TrimLeft(s) == [] && Strip(s) == []
  {
    if s != [] {
      assert forall i :: 0 <= i < |s[1..]| ==> IsSpace(s[1..][i]) by {
        assert forall i :: 0 <= i < |s[1..]| ==> s[1..][i] == s[i + 1];
      }
      TrimBlank(s[1..]);
    }
  }

  /** `int` raises on an empty or blank piece (as in "1,,2" or "1, ,2"): it is not a number. */
  lemma ParseEmptyFails(s: string)
    requires forall i :: 0 <= i < |s| ==> IsSpace(s[i])
    ensures ParseInt(s) == Err(NotAnInteger)
  {
    TrimBlank(s);
  }

  /** `s.split(sep)`: the pieces between separators, always at least one. */
  function Split(s: string, sep: char): (parts: seq<string>)
    ensures |parts| >= 1
    ensures forall i :: 0 <= i < |parts| ==> sep !in parts[i]
  {
    if s == [] then [[]]
    else
      var rest := Split(s[1..], sep);
      if s[0] == sep then [[]] + rest else [[s[0]] + rest[0]] + rest[1..]
  }

  /** `sep.join(parts)`. */
  function Join(parts: seq<string>, sep: char): string
  {
    if parts == [] then ""
    else if |parts| == 1 then parts[0]
    else parts[0] + [sep] + Join(parts[1..], sep)
  }

  /** Text without the separator splits into one piece, and a prefix without it extends the first piece. */
  lemma {:induction false} SplitPrefix(w: string, t: string, sep: char)
    requires sep !in w
    ensures Split(w + t, sep) == [w + Split(t, sep)[0]] + Split(t, sep)[1..]
  {
    if w != [] {
      assert (w + t)[1..] == w[1..] + t;
      SplitPrefix(w[1..], t, sep);
      assert [w[0]] + (w[1..] + Split(t, sep)[0]) == w + Split(t, sep)[0];
    } else {
      assert w + t == t;
      assert w + Split(t, sep)[0] == Split(t, sep)[0];
      assert Split(t, sep) == [Split(t, sep)[0]] + Split(t, sep)[1..];
    }
  }

  /** Splitting a join gives back the pieces when no piece contains the separator. */
  lemma {:induction false} SplitJoin(parts: seq<string>, sep: char)
    requires |parts| >= 1
    requires forall i :: 0 <= i < |parts| ==> sep !in parts[i]
    ensures Split(Join(parts, sep), sep) == parts
  {
    if |parts| == 1 {
      SplitPrefix(parts[0], "", sep);
      assert parts[0] + "" == parts[0];
    } else {
      var rest := Join(parts[1..], sep);
      SplitJoin(parts[1..], sep);
      assert Join(parts, sep) == parts[0] + ([sep] + rest);
      SplitPrefix(parts[0], [sep] + rest, sep);
      assert ([sep] + rest)[0] == sep && ([sep] + rest)[1..] == rest;
      assert Split([sep] + rest, sep) == [[]] + parts[1..];
      assert parts[0] + Split([sep] + rest, sep)[0] == parts[0];
      assert parts == [parts[0]] + parts[1..];
    }
  }

  /** Joining the pieces of a split gives back the text. */
  lemma {:induction false} JoinSplit(s: string, sep: char)
    ensures Join(Split(s, sep), sep) == s
  {
    if s != [] {
      JoinSplit(s[1..], sep);
      if s[0] == sep {
        JoinSplitAtSeparator(s, sep);
      } else {
        JoinSplitInPiece(s, sep);
      }
    }
  }

  lemma JoinSplitAtSeparator(s: string, sep: char)
    requires s != [] && s[0] == sep
    requires Join(Split(s[1..], sep), sep) == s[1..]
    ensures Join(Split(s, sep), sep) == s
  {
    var rest := Split(s[1..], sep);
    assert Split(s, sep) == [[]] + rest;
    assert Join(Split(s, sep), sep) == [] + [sep] + Join(rest, sep);
    assert s == [s[0]] + s[1..];
  }

  lemma JoinSplitInPiece(s: string, sep: char)
    requires s != [] && s[0] != sep
    requires Join(Split(s[1..], sep), sep) == s[1..]
    ensures Join(Split(s, sep), sep) == s
  {
    var rest := Split(s[1..], sep);
    var parts := Split(s, sep);
    assert parts == [[s[0]] + rest[0]] + rest[1..];
    if |rest| == 1 {
      assert Join(parts, sep) == [s[0]] + rest[0];
    } else {
      assert parts[1..] == rest[1..];
      assert Join(rest, sep) == rest[0] + [sep] + Join(rest[1..], sep);
      assert Join(parts, sep) == ([s[0]] + rest[0]) + [sep] + Join(rest[1..], sep);
    }
    assert s == [s[0]] + s[1..];
  }

  /** `[int(n) for n in pieces]`: the first piece that is not an integer raises. */
  function ParseAll(pieces: seq<string>): (r: Result<seq<int>>)
    ensures r.Ok? ==> |r.value| == |pieces|
    ensures r.Err? ==> r.error == NotAnInteger
    ensures r.Ok? <==> forall i :: 0 <= i < |pieces| ==> ParseInt(pieces[i]).Ok?
    ensures r.Ok? ==> forall i :: 0 <= i < |pieces| ==> ParseInt(pieces[i]) == Ok(r.value[i])
  {
    MapResult(pieces, ParseInt)
  }

  /** A comma-separated cell as a list of integers: `[int(n) for n in x.split(',')]`. */
  function ParseIntList(text: string): (r: Result<seq<int>>)
    ensures r.Ok? ==> |r.value| == |Split(text, ',')| >= 1
  {
    ParseAll(Split(text, ','))
  }

  function StrAll(xs: seq<int>): (pieces: seq<string>)
    ensures |pieces| == |xs|
    ensures forall i :: 0 <= i < |xs| ==> pieces[i] == Str(xs[i])
  {
    if xs == [] then [] else [Str(xs[0])] + StrAll(xs[1..])
  }

  /** `','.join(map(str, xs))`. */
  function FormatIntList(xs: seq<int>): string
  {
    Join(StrAll(xs), ',')
  }

  /** Parsing the comma-joined form of a non-empty list gives back the list. */
  lemma FormatParse(xs: seq<int>)
    requires |xs| >= 1
    ensures ParseIntList(FormatIntList(xs)) == Ok(xs)
  {
    var pieces := StrAll(xs);
    SplitJoin(pieces, ',');
    forall i | 0 <= i < |xs| ensures ParseInt(pieces[i]) == Ok(xs[i]) {
      ParseStr(xs[i]);
    }
    var r := ParseIntList(FormatIntList(xs));
    assert r.Ok? && |r.value| == |xs|;
    assert r.value == xs;
  }

  /** The empty list joins to "", which does not parse back: the round trip needs one element. */
  lemma FormatEmptyDoesNotParse()
    ensures FormatIntList([]) == ""
    ensures ParseIntList(FormatIntList([])).Err?
  {
    assert Split("", ',') == [""];
    ParseEmptyFails("");
  }
}
