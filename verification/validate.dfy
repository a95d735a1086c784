/** The "MM-YYYY" date token of the HTTP interface: `parseDate` in
    internal/utils/validate.go, which calls Go's `time.Parse` with the layout
    "01-2006". */
module Validate {
  import opened Wrappers
  import opened Dates

  /** The two failures of `parseDate`, "date is empty" and "date is invalid";
      the detail that Go's `time.Parse` error adds to the latter is dropped. */
  datatype DateError = EmptyDate | InvalidDate

  predicate IsDigit(c: char) {
    '0' <= c <= '9'
  }

  function DigitValue(c: char): (v: int)
    requires IsDigit(c)
    ensures 0 <= v <= 9
  {
    c as int - '0' as int
  }

  function DigitChar(v: int): (c: char)
    requires 0 <= v <= 9
    ensures IsDigit(c) && DigitValue(c) == v
  {
    ('0' as int + v) as char
  }

  /** A date the layout "01-2006" can both produce and read back: the first
      of a month whose year has at most four digits. */
  predicate Formattable(d: Date) {
    d.day == 1 && 1 <= d.month <= 12 && 0 <= d.year <= 9999
  }

  /** `time.Format("01-2006")`: two-digit month, hyphen, four-digit year. */
  function FormatDate(d: Date): (s: string)
    requires Formattable(d)
    ensures |s| == 7 && s[2] == '-'
  {
    [DigitChar(d.month / 10), DigitChar(d.month % 10), '-',
     DigitChar(d.year / 1000), DigitChar(d.year / 100 % 10),
     DigitChar(d.year / 10 % 10), DigitChar(d.year % 10)]
  }

  /** `parseDate`: the empty token is its own error; otherwise the token must
      be exactly two digits naming a month 01..12, a hyphen and exactly four
      digits, with nothing after them. The result is the first of that month. */
  function ParseDate(s: string): (r: Result<CivilDate, DateError>)
    ensures r.Failure? ==> (r.error == EmptyDate <==> s == "")
    ensures r.Success? ==> Formattable(r.value) && |s| == 7 && s[2] == '-'
  {
    if s == "" then Failure(EmptyDate)
    else if |s| != 7 || !IsDigit(s[0]) || !IsDigit(s[1]) || s[2] != '-'
            || !IsDigit(s[3]) || !IsDigit(s[4]) || !IsDigit(s[5]) || !IsDigit(s[6])
    then Failure(InvalidDate)
    else
      var month := DigitValue(s[0]) * 10 + DigitValue(s[1]);
      var year := DigitValue(s[3]) * 1000 + DigitValue(s[4]) * 100
                  + DigitValue(s[5]) * 10 + DigitValue(s[6]);
      if 1 <= month <= 12 then Success(Date(year, month, 1))
      else Failure(InvalidDate)
  }

  /** Decimal digits of a number below 100 and below 10000. */
  lemma TwoDigits(a: int, b: int)
    requires 0 <= a <= 9 && 0 <= b <= 9
    ensures (a * 10 + b) / 10 == a && (a * 10 + b) % 10 == b
  {
  }

  /** Division by 10, 100 and 1000 recovers quotient and remainder. */
  lemma DivMod10(q: int, r: int)
    requires 0 <= r < 10
    ensures (q * 10 + r) / 10 == q && (q * 10 + r) % 10 == r
  {
  }

  lemma DivMod100(q: int, r: int)
    requires 0 <= r < 100
    ensures (q * 100 + r) / 100 == q
  {
  }

  lemma DivMod1000(q: int, r: int)
    requires 0 <= r < 1000
    ensures (q * 1000 + r) / 1000 == q
  {
  }

  lemma FourDigits(a: int, b: int, c: int, e: int)
    requires 0 <= a <= 9 && 0 <= b <= 9 && 0 <= c <= 9 && 0 <= e <= 9
    ensures var y := a * 1000 + b * 100 + c * 10 + e;
      y / 1000 == a && y / 100 % 10 == b && y / 10 % 10 == c && y % 10 == e
  {
    var y := a * 1000 + b * 100 + c * 10 + e;
    DivMod1000(a, b * 100 + c * 10 + e);
    assert y == (a * 10 + b) * 100 + (c * 10 + e);
    DivMod100(a * 10 + b, c * 10 + e);
    DivMod10(a, b);
    assert y == (a * 100 + b * 10 + c) * 10 + e;
    DivMod10(a * 100 + b * 10 + c, e);
    DivMod10(a * 10 + b, c);
  }

  lemma DigitsOfNumber(y: int)
    requires 0 <= y <= 9999
    ensures y == y / 1000 * 1000 + y / 100 % 10 * 100 + y / 10 % 10 * 10 + y % 10
  {
  }

  lemma DigitRoundTrip(c: char)
    requires IsDigit(c)
    ensures DigitChar(DigitValue(c)) == c
  {
  }

  /** Every accepted token is the formatting of its own result. */
  lemma ParseThenFormat(s: string)
    requires ParseDate(s).Success?
    ensures FormatDate(ParseDate(s).value) == s
  {
    var d := ParseDate(s).value;
    var m0, m1 := DigitValue(s[0]), DigitValue(s[1]);
    var y0, y1, y2, y3 := DigitValue(s[3]), DigitValue(s[4]), DigitValue(s[5]), DigitValue(s[6]);
    assert d.month == m0 * 10 + m1;
    assert d.year == y0 * 1000 + y1 * 100 + y2 * 10 + y3;
    TwoDigits(m0, m1);
    FourDigits(y0, y1, y2, y3);
    DigitRoundTrip(s[0]); DigitRoundTrip(s[1]); DigitRoundTrip(s[3]);
    DigitRoundTrip(s[4]); DigitRoundTrip(s[5]); DigitRoundTrip(s[6]);
    var f := FormatDate(d);
    assert f == [s[0], s[1], '-', s[3], s[4], s[5], s[6]];
    assert s == [s[0], s[1], '-', s[3], s[4], s[5], s[6]];
  }

  /** Every first-of-month date with a four-digit year is read back from its
      own formatting. */
  lemma FormatThenParse(d: CivilDate)
    requires Formattable(d)
    ensures ParseDate(FormatDate(d)) == Success(d)
  {
    var f := FormatDate(d);
    DigitsOfNumber(d.year);
    assert d.month == d.month / 10 * 10 + d.month % 10;
    assert DigitValue(f[0]) * 10 + DigitValue(f[1]) == d.month;
    assert DigitValue(f[3]) * 1000 + DigitValue(f[4]) * 100
           + DigitValue(f[5]) * 10 + DigitValue(f[6]) == d.year;
  }

  /** The accepted tokens are exactly the formattings of first-of-month dates
      with years 0000..9999, and each parses to the date it formats. */
  lemma ParseDateCharacterization(s: string, d: CivilDate)
    ensures ParseDate(s) == Success(d) <==> Formattable(d) && s == FormatDate(d)
  {
    if ParseDate(s) == Success(d) {
      ParseThenFormat(s);
    }
    if Formattable(d) && s == FormatDate(d) {
      FormatThenParse(d);
    }
  }

  lemma ParseExample()
    ensures ParseDate("03-2025") == Success(Date(2025, 3, 1))
    ensures MonthIndex(ParseDate("03-2025").value) == 2025 * 12 + 3
    ensures ParseDate("") == Failure(EmptyDate)
    ensures ParseDate("3-2025") == Failure(InvalidDate)
    ensures ParseDate("13-2025") == Failure(InvalidDate)
    ensures ParseDate("00-2025") == Failure(InvalidDate)
    ensures ParseDate("03-2025 ") == Failure(InvalidDate)
  {
  }
}
