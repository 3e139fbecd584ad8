/**
 * Calendar dates as `datetime.strptime(token, "%Y-%m-%d")` accepts them and
 * `date.strftime("%Y-%m-%d")` writes them.
 *
 * The accepted token grammar is the one CPython's `_strptime` compiles the
 * format into, matched against the whole token:
 *   year  = \d\d\d\d
 *   month = 1[0-2] | 0[1-9] | [1-9]
 *   day   = 3[01] | [12]\d | 0[1-9] | [1-9] | " "[1-9]
 * followed by the `datetime` range check: year 1..9999, month 1..12 and a day
 * that exists in that month of that (proleptic Gregorian) year.
 */
module Dates {
  import opened Optional

  datatype Date = Date(year: int, month: int, day: int)

  predicate IsLeapYear(y: int) {
    y % 4 == 0 && (y % 100 != 0 || y % 400 == 0)
  }

  function DaysInMonth(y: int, m: int): (n: int)
    requires 1 <= m <= 12
    ensures 28 <= n <= 31
    ensures m == 2 ==> (n == 29 <==> IsLeapYear(y))
  {
    if m == 2 then (if IsLeapYear(y) then 29 else 28)
    else if m == 4 || m == 6 || m == 9 || m == 11 then 30
    else 31
  }

  /** The dates a Python `datetime` can hold (MINYEAR = 1, MAXYEAR = 9999). */
  predicate IsValid(d: Date) {
    && 1 <= d.year <= 9999
    && 1 <= d.month <= 12
    && 1 <= d.day <= DaysInMonth(d.year, d.month)
  }

  predicate IsDigit(c: char) { '0' <= c <= '9' }

  function DigitValue(c: char): (n: int)
    requires IsDigit(c)
    ensures 0 <= n <= 9
  {
    c as int - '0' as int
  }

  function Digit(n: int): (c: char)
    requires 0 <= n <= 9
    ensures IsDigit(c) && DigitValue(c) == n
  {
    ('0' as int + n) as char
  }

  /** `%Y`: exactly four digits. */
  function YearField(s: string): (r: Option<int>)
    ensures r.Some? ==> 0 <= r.value <= 9999
  {
    if |s| == 4 && IsDigit(s[0]) && IsDigit(s[1]) && IsDigit(s[2]) && IsDigit(s[3]) then
      Some(1000 * DigitValue(s[0]) + 100 * DigitValue(s[1]) + 10 * DigitValue(s[2]) + DigitValue(s[3]))
    else None
  }

  /** `%m`: `1[0-2]|0[1-9]|[1-9]`. */
  function MonthField(s: string): (r: Option<int>)
    ensures r.Some? ==> 1 <= r.value <= 12
  {
    if |s| == 1 && '1' <= s[0] <= '9' then Some(DigitValue(s[0]))
    else if |s| == 2 && s[0] == '1' && '0' <= s[1] <= '2' then Some(10 + DigitValue(s[1]))
    else if |s| == 2 && s[0] == '0' && '1' <= s[1] <= '9' then Some(DigitValue(s[1]))
    else None
  }

  /** `%d`: `3[01]|[12]\d|0[1-9]|[1-9]| [1-9]`. */
  function DayField(s: string): (r: Option<int>)
    ensures r.Some? ==> 1 <= r.value <= 31
  {
    if |s| == 1 && '1' <= s[0] <= '9' then Some(DigitValue(s[0]))
    else if |s| == 2 && s[0] == '3' && '0' <= s[1] <= '1' then Some(30 + DigitValue(s[1]))
    else if |s| == 2 && '1' <= s[0] <= '2' && IsDigit(s[1]) then Some(10 * DigitValue(s[0]) + DigitValue(s[1]))
    else if |s| == 2 && (s[0] == '0' || s[0] == ' ') && '1' <= s[1] <= '9' then Some(DigitValue(s[1]))
    else None
  }

  /**
   * `datetime.strptime(tok, "%Y-%m-%d")`: `None` stands for the `ValueError`.
   * The month has one or two characters and none of them is `-`, so the
   * second separator is at index 6 or 7.
   */
  function ParseDate(tok: string): (r: Option<Date>)
    ensures r.Some? ==> IsValid(r.value)
    ensures r.Some? ==> 8 <= |tok| <= 10 && tok[4] == '-'
  {
    if |tok| < 8 || tok[4] != '-' then None
    else
      var k := if tok[6] == '-' then 6 else 7;
      if tok[k] != '-' then None
      else
        match (YearField(tok[..4]), MonthField(tok[5..k]), DayField(tok[k + 1..]))
        case (Some(y), Some(m), Some(d)) =>
          if IsValid(Date(y, m, d)) then Some(Date(y, m, d)) else None
        case _ => None
  }

  /** `n` written with exactly two digits, zero-padded on the left. */
  function Pad2(n: int): (s: string)
    requires 0 <= n <= 99
    ensures |s| == 2 && IsDigit(s[0]) && IsDigit(s[1])
    ensures 10 * DigitValue(s[0]) + DigitValue(s[1]) == n
  {
    [Digit(n / 10), Digit(n % 10)]
  }

  /** `n` written with exactly four digits, zero-padded on the left. */
  function Pad4(n: int): (s: string)
    requires 0 <= n <= 9999
    ensures |s| == 4 && forall k :: 0 <= k < 4 ==> IsDigit(s[k])
    ensures YearField(s) == Some(n)
  {
    var hi, lo := Pad2(n / 100), Pad2(n % 100);
    var s := hi + lo;
    assert s[0] == hi[0] && s[1] == hi[1] && s[2] == lo[0] && s[3] == lo[1];
    s
  }

  /** `strftime("%Y-%m-%d")`: zero-padded year, month and day. */
  function FormatDate(d: Date): (s: string)
    requires IsValid(d)
    ensures |s| == 10 && s[4] == '-' && s[7] == '-'
    ensures forall k :: 0 <= k < 10 && k != 4 && k != 7 ==> IsDigit(s[k])
  {
    Pad4(d.year) + "-" + Pad2(d.month) + "-" + Pad2(d.day)
  }

  /** The spellings of month `m` that `%m` accepts: two digits, or one digit below 10. */
  predicate MonthSpelling(s: string, m: int)
    requires 1 <= m <= 12
  {
    s == Pad2(m) || (m <= 9 && s == [Digit(m)])
  }

  /** The spellings of day `d` that `%d` accepts: two digits, or one digit below 10, bare or after a blank. */
  predicate DaySpelling(s: string, d: int)
    requires 1 <= d <= 31
  {
    s == Pad2(d) || (d <= 9 && (s == [Digit(d)] || s == " " + [Digit(d)]))
  }

  /** `%m` accepts exactly the spellings of the months. */
  lemma MonthFieldSpelling(s: string, m: int)
    requires 1 <= m <= 12
    ensures MonthField(s) == Some(m) <==> MonthSpelling(s, m)
  {
    if MonthField(s) == Some(m) && |s| == 2 {
      PairFieldPadded(s, m);
    }
  }

  /** `%d` accepts exactly the spellings of the days. */
  lemma DayFieldSpelling(s: string, d: int)
    requires 1 <= d <= 31
    ensures DayField(s) == Some(d) <==> DaySpelling(s, d)
  {
    if DayField(s) == Some(d) && |s| == 2 && s[0] != ' ' {
      PairFieldPadded(s, d);
    }
  }

  /**
   * Every spelling the grammar accepts, for fields in the grammar's ranges,
   * parses exactly when it names a day of the calendar, and then to that day:
   * `2025-5-1` and `2025-05- 1` give the same date as `2025-05-01`, while
   * `2025-02-30` and `0000-01-01` match the pattern and are still rejected.
   */
  lemma ParseSpelled(y: int, m: int, d: int, ms: string, ds: string)
    requires 0 <= y <= 9999 && 1 <= m <= 12 && 1 <= d <= 31
    requires MonthSpelling(ms, m) && DaySpelling(ds, d)
    ensures ParseDate(Pad4(y) + "-" + ms + "-" + ds) ==
      if IsValid(Date(y, m, d)) then Some(Date(y, m, d)) else None
  {
    var s := Pad4(y) + "-" + ms + "-" + ds;
    var k := 5 + |ms|;
    assert s[..4] == Pad4(y);
    assert s[5..k] == ms;
    assert s[k] == '-';
    assert s[k + 1..] == ds;
    MonthFieldSpelling(ms, m);
    DayFieldSpelling(ds, d);
  }

  /** Conversely, every accepted token is a spelling of the date it parses to. */
  lemma ParsedSpelling(tok: string)
    requires ParseDate(tok).Some?
    ensures var d := ParseDate(tok).value;
      var k := if tok[6] == '-' then 6 else 7;
      && tok == Pad4(d.year) + "-" + tok[5..k] + "-" + tok[k + 1..]
      && MonthSpelling(tok[5..k], d.month) && DaySpelling(tok[k + 1..], d.day)
  {
    var d := ParseDate(tok).value;
    var k := if tok[6] == '-' then 6 else 7;
    YearFieldPadded(tok[..4]);
    MonthFieldSpelling(tok[5..k], d.month);
    DayFieldSpelling(tok[k + 1..], d.day);
    assert tok == tok[..4] + "-" + tok[5..k] + "-" + tok[k + 1..];
  }

  /** Parsing what is formatted gives the date back. */
  lemma ParseFormat(d: Date)
    requires IsValid(d)
    ensures ParseDate(FormatDate(d)) == Some(d)
  {
    ParseSpelled(d.year, d.month, d.day, Pad2(d.month), Pad2(d.day));
  }

  lemma YearFieldPadded(s: string)
    requires YearField(s).Some?
    ensures Pad4(YearField(s).value) == s
  {
    var n := YearField(s).value;
    var hi := 10 * DigitValue(s[0]) + DigitValue(s[1]);
    var lo := 10 * DigitValue(s[2]) + DigitValue(s[3]);
    assert n == 100 * hi + lo && 0 <= lo < 100;
    assert n / 100 == hi && n % 100 == lo;
    PairFieldPadded(s[..2], hi);
    PairFieldPadded(s[2..], lo);
    assert s == s[..2] + s[2..];
  }

  lemma PairFieldPadded(s: string, n: int)
    requires 0 <= n <= 99 && |s| == 2 && IsDigit(s[0]) && IsDigit(s[1])
    requires n == 10 * DigitValue(s[0]) + DigitValue(s[1])
    ensures Pad2(n) == s
  {
    var p := Pad2(n);
    assert p[0] == s[0] && p[1] == s[1];
  }

  /**
   * A token in the zero-padded form (ten characters, no blank) is exactly the
   * formatting of the date it parses to; shorter or blank-padded tokens are
   * the leniency of `strptime` that canonicalisation removes.
   */
  lemma FormatParse(tok: string)
    requires ParseDate(tok).Some?
    requires |tok| == 10 && ' ' !in tok
    ensures FormatDate(ParseDate(tok).value) == tok
  {
    var d := ParseDate(tok).value;
    assert tok[6] != '-';
    assert tok[8] != ' ';
    YearFieldPadded(tok[..4]);
    PairFieldPadded(tok[5..7], d.month);
    PairFieldPadded(tok[8..], d.day);
    assert tok == tok[..4] + "-" + tok[5..7] + "-" + tok[8..];
  }
}
