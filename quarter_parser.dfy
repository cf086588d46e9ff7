/**
 * Fiscal-quarter labels ("2025Q1") and their parser, src/helpers.py `_split_quarter`.
 *
 * The parser takes the first four characters of the label as the year and the
 * last character as the quarter number, each converted by Python's int(); any
 * failure, or a cell that is not text at all, yields a missing pair. Python's
 * int() is modelled for ASCII text: surrounding whitespace is skipped, one
 * leading sign is allowed, and digits may be separated by single underscores.
 */
module QuarterParser {
  import opened Wrappers

  /** A spreadsheet cell expected to hold a quarter label: text, or a value of any other type (a number, an empty cell). */
  datatype Cell = Text(text: string) | NotText

  /** A parsed label: the year and the quarter number. */
  datatype YearQuarter = YearQuarter(year: int, quarter: int)

  /** Periods compare by year, then by quarter number. */
  predicate PeriodLt(a: YearQuarter, b: YearQuarter)
  {
    a.year < b.year || (a.year == b.year && a.quarter < b.quarter)
  }

  predicate IsDigit(c: char)
  {
    '0' <= c <= '9'
  }

  function DigitValue(c: char): nat
    requires IsDigit(c)
  {
    (c as int) - ('0' as int)
  }

  /** The ASCII characters Python treats as whitespace around a number given to int(). */
  predicate IsSpace(c: char)
  {
    c == ' ' || 9 <= c as int <= 13 || 28 <= c as int <= 31
  }

  function TrimLeft(s: string): (r: string)
    ensures |r| <= |s|
  {
    if s != [] && IsSpace(s[0]) then TrimLeft(s[1..]) else s
  }

  function TrimRight(s: string): (r: string)
    ensures |r| <= |s|
  {
    if s != [] && IsSpace(s[|s| - 1]) then TrimRight(s[..|s| - 1]) else s
  }

  function Strip(s: string): (r: string)
    ensures |r| <= |s|
  {
    TrimRight(TrimLeft(s))
  }

  /** One or more digits, with single underscores allowed between two digits. */
  predicate WellFormedDigits(s: string)
  {
    && |s| > 0
    && IsDigit(s[0])
    && IsDigit(s[|s| - 1])
    && (forall i :: 0 <= i < |s| ==> IsDigit(s[i]) || s[i] == '_')
    && (forall i :: 0 <= i < |s| - 1 ==> IsDigit(s[i]) || IsDigit(s[i + 1]))
  }

  /** The decimal value of the digits of s, underscores ignored. */
  function DigitsValue(s: string): nat
    requires forall i :: 0 <= i < |s| ==> IsDigit(s[i]) || s[i] == '_'
  {
    if s == [] then 0
    else if s[|s| - 1] == '_' then DigitsValue(s[..|s| - 1])
    else 10 * DigitsValue(s[..|s| - 1]) + DigitValue(s[|s| - 1])
  }

  /** Python's int(s) in base 10: the integer, or None where int() raises ValueError. */
  function ParseInt(s: string): Option<int>
  {
    var t := Strip(s);
    if |t| > 0 && (t[0] == '+' || t[0] == '-') then
      if WellFormedDigits(t[1..]) then
        var magnitude: int := DigitsValue(t[1..]);
        Some(if t[0] == '-' then -magnitude else magnitude)
      else None
    else if WellFormedDigits(t) then Some(DigitsValue(t))
    else None
  }

  /** Python's s[:n]. */
  function Take(s: string, n: nat): (r: string)
    ensures |r| <= n
  {
    if |s| <= n then s else s[..n]
  }

  /**
   * `_split_quarter`: (int(label[:4]), int(label[-1])), or missing when the
   * cell is not text or either conversion fails (an empty label fails both).
   * Neither the letter between year and quarter nor the range 1-4 of the
   * quarter is checked, so a quarter is any single digit.
   */
  function SplitQuarter(cell: Cell): (r: Option<YearQuarter>)
    ensures r.Some? ==> 0 <= r.value.quarter <= 9 && -999 <= r.value.year <= 9999
    ensures r.Some? <==>
      cell.Text? && |cell.text| > 0 && ParseInt(Take(cell.text, 4)).Some? && IsDigit(cell.text[|cell.text| - 1])
    ensures r.Some? ==>
      && ParseInt(Take(cell.text, 4)) == Some(r.value.year)
      && r.value.quarter == DigitValue(cell.text[|cell.text| - 1])
  {
    match cell
    case NotText => None
    case Text(s) =>
      var year := ParseInt(Take(s, 4));
      if year.None? || s == [] then None
      else
        ParseIntOneChar(s[|s| - 1]);
        var quarter := ParseInt([s[|s| - 1]]);
        if quarter.None? then None
        else
          ParseIntBounds(Take(s, 4));
          Some(YearQuarter(year.value, quarter.value))
  }

  function Pow10(n: nat): nat
  {
    if n == 0 then 1 else 10 * Pow10(n - 1)
  }

  lemma {:induction false} DigitsValueBelow(s: string)
    requires forall i :: 0 <= i < |s| ==> IsDigit(s[i]) || s[i] == '_'
    ensures DigitsValue(s) < Pow10(|s|)
  {
    if s != [] {
      DigitsValueBelow(s[..|s| - 1]);
    }
  }

  /** A number of at most four characters lies between -999 and 9999. */
  lemma ParseIntBounds(s: string)
    requires |s| <= 4
    ensures ParseInt(s).Some? ==> -999 <= ParseInt(s).value <= 9999
  {
    var t := Strip(s);
    if |t| > 0 && (t[0] == '+' || t[0] == '-') {
      if WellFormedDigits(t[1..]) {
        DigitsValueBelow(t[1..]);
        assert Pow10(|t[1..]|) <= 1000 by {
          assert |t[1..]| <= 3;
          if |t[1..]| == 3 {} else if |t[1..]| == 2 {} else if |t[1..]| == 1 {} else {}
        }
      }
    } else if WellFormedDigits(t) {
      DigitsValueBelow(t);
      assert Pow10(|t|) <= 10000 by {
        if |t| == 4 {} else if |t| == 3 {} else if |t| == 2 {} else if |t| == 1 {} else {}
      }
    }
  }

  /** A single character converts exactly when it is a digit, to that digit. */
  lemma ParseIntOneChar(c: char)
    ensures ParseInt([c]).Some? <==> IsDigit(c)
    ensures IsDigit(c) ==> ParseInt([c]) == Some(DigitValue(c))
  {
    var s := [c];
    if IsSpace(c) {
      assert TrimLeft(s[1..]) == [];
      assert Strip(s) == [];
    } else {
      assert TrimLeft(s) == s;
      assert TrimRight(s) == s;
      if IsDigit(c) {
        assert DigitsValue(s) == 10 * DigitsValue([]) + DigitValue(c);
      }
    }
  }

  lemma TrimOfDigitStart(s: string)
    requires |s| > 0 && IsDigit(s[0]) && IsDigit(s[|s| - 1])
    ensures Strip(s) == s
  {
    assert TrimLeft(s) == s;
    assert TrimRight(s) == s;
  }

  /**
   * A label whose first four characters and last character are digits parses
   * to the year those four digits spell and the quarter the last digit gives
   * (the middle character is not looked at).
   */
  lemma SplitQuarterOfDigits(s: string)
    requires |s| >= 4
    requires forall i :: 0 <= i < 4 ==> IsDigit(s[i])
    requires IsDigit(s[|s| - 1])
    ensures SplitQuarter(Text(s)) == Some(YearQuarter(
      1000 * DigitValue(s[0]) + 100 * DigitValue(s[1]) + 10 * DigitValue(s[2]) + DigitValue(s[3]),
      DigitValue(s[|s| - 1])))
  {
    var y := s[..4];
    assert Take(s, 4) == y;
    TrimOfDigitStart(y);
    assert WellFormedDigits(y);
    assert DigitsValue(y) == 1000 * DigitValue(s[0]) + 100 * DigitValue(s[1]) + 10 * DigitValue(s[2]) + DigitValue(s[3]) by {
      assert y[..3] == s[..3] && y[..3][..2] == s[..2] && y[..3][..2][..1] == s[..1] && s[..1][..0] == [];
      assert DigitsValue(s[..1]) == DigitValue(s[0]);
      assert DigitsValue(s[..2]) == 10 * DigitValue(s[0]) + DigitValue(s[1]);
      assert DigitsValue(s[..3]) == 100 * DigitValue(s[0]) + 10 * DigitValue(s[1]) + DigitValue(s[2]);
    }
    ParseIntOneChar(s[|s| - 1]);
  }

  /** A label that starts with anything but a digit, a sign or whitespace is unparseable. */
  lemma SplitQuarterRejectsBadStart(s: string)
    requires |s| > 0 && !IsDigit(s[0]) && !IsSpace(s[0]) && s[0] != '+' && s[0] != '-'
    ensures SplitQuarter(Text(s)) == None
  {
    var y := Take(s, 4);
    assert y[0] == s[0];
    assert TrimLeft(y) == y;
    assert |TrimRight(y)| > 0 ==> TrimRight(y)[0] == y[0] by {
      TrimRightKeepsHead(y);
    }
  }

  lemma {:induction false} TrimRightKeepsHead(s: string)
    ensures |TrimRight(s)| > 0 ==> TrimRight(s) == s[..|TrimRight(s)|]
  {
    if s != [] && IsSpace(s[|s| - 1]) {
      TrimRightKeepsHead(s[..|s| - 1]);
    }
  }

  /** Well-formed labels in the register's YYYYQn form. */
  lemma SplitQuarterExamples()
    ensures SplitQuarter(Text("2025Q1")) == Some(YearQuarter(2025, 1))
    ensures SplitQuarter(Text("2025Q4")) == Some(YearQuarter(2025, 4))
  {
    SplitQuarterOfDigits("2025Q1");
    SplitQuarterOfDigits("2025Q4");
  }

  /** A label in another layout, an empty label and a non-text cell all come back missing rather than raising. */
  lemma SplitQuarterRejections()
    ensures SplitQuarter(Text("Q1-2025")) == None
    ensures SplitQuarter(Text("")) == None
    ensures SplitQuarter(NotText) == None
  {
    SplitQuarterRejectsBadStart("Q1-2025");
  }
}
