/** Calendar dates without a time component, the strict `YYYY-MM-DD` format
    the handlers validate dates against, and the calendar-aware "minus one
    day/week/month/year" step of the summary window. Dates are proleptic
    Gregorian triples; time zones and the wall clock play no part. */
module Calendar {
  import opened Replies

  datatype CalDate = CalDate(year: int, month: int, day: int)

  predicate IsLeapYear(y: int)
  {
    y % 4 == 0 && (y % 100 != 0 || y % 400 == 0)
  }

  function DaysInMonth(y: int, m: int): (n: int)
    requires 1 <= m <= 12
    ensures 28 <= n <= 31
  {
    if m == 2 then (if IsLeapYear(y) then 29 else 28)
    else if m == 4 || m == 6 || m == 9 || m == 11 then 30
    else 31
  }

  /** A real Gregorian date. */
  predicate Valid(d: CalDate)
  {
    1 <= d.month <= 12 && 1 <= d.day <= DaysInMonth(d.year, d.month)
  }

  /** Chronological order of dates (lexicographic on the triple). */
  predicate Before(a: CalDate, b: CalDate)
  {
    a.year < b.year
    || (a.year == b.year && (a.month < b.month || (a.month == b.month && a.day < b.day)))
  }

  /** `a >= b`, the comparison of the summary's `$gte` query. */
  predicate AtOrAfter(a: CalDate, b: CalDate)
  {
    !Before(a, b)
  }

  // ---------------------------------------------------------------------
  // Day steps
  // ---------------------------------------------------------------------

  function NextDay(d: CalDate): (r: CalDate)
    requires Valid(d)
    ensures Valid(r) && Before(d, r)
  {
    if d.day < DaysInMonth(d.year, d.month) then CalDate(d.year, d.month, d.day + 1)
    else if d.month < 12 then CalDate(d.year, d.month + 1, 1)
    else CalDate(d.year + 1, 1, 1)
  }

  /** The day before `d`; `NextDay` undoes it. */
  function PrevDay(d: CalDate): (r: CalDate)
    requires Valid(d)
    ensures Valid(r) && Before(r, d)
    ensures NextDay(r) == d
  {
    if d.day > 1 then CalDate(d.year, d.month, d.day - 1)
    else if d.month > 1 then CalDate(d.year, d.month - 1, DaysInMonth(d.year, d.month - 1))
    else CalDate(d.year - 1, 12, 31)
  }

  /** `n` applications of `NextDay`. */
  function PlusDays(d: CalDate, n: nat): (r: CalDate)
    requires Valid(d)
    ensures Valid(r)
  {
    if n == 0 then d else NextDay(PlusDays(d, n - 1))
  }

  /** The date `n` days before `d`: walking `n` days forward from it
      comes back to `d`. */
  function MinusDays(d: CalDate, n: nat): (r: CalDate)
    requires Valid(d)
    ensures Valid(r)
    ensures n > 0 ==> Before(r, d)
    ensures PlusDays(r, n) == d
    decreases n
  {
    if n == 0 then d else MinusDays(PrevDay(d), n - 1)
  }

  // ---------------------------------------------------------------------
  // Window units (moment's `subtract(1, unit)`)
  // ---------------------------------------------------------------------

  datatype Unit = Day | Week | Month | Year

  /** moment's month arithmetic: move to the target month and keep the
      day of the month, clamped to the target month's length. */
  function ClampedDate(y: int, m: int, day: int): (r: CalDate)
    requires 1 <= m <= 12 && 1 <= day
    ensures Valid(r) && r.year == y && r.month == m
    ensures r.day <= day && (r.day == day || r.day == DaysInMonth(y, m))
  {
    CalDate(y, m, if day <= DaysInMonth(y, m) then day else DaysInMonth(y, m))
  }

  /** `moment(d).subtract(1, unit)` on a calendar date. */
  function SubtractUnit(d: CalDate, u: Unit): (r: CalDate)
    requires Valid(d)
    ensures Valid(r) && Before(r, d)
    ensures u == Day ==> NextDay(r) == d
    ensures u == Week ==> PlusDays(r, 7) == d
    ensures u == Month ==>
              if d.month == 1 then r.year == d.year - 1 && r.month == 12
              else r.year == d.year && r.month == d.month - 1
    ensures u == Year ==> r.year == d.year - 1 && r.month == d.month
    ensures u == Month || u == Year ==>
              r.day <= d.day && (r.day == d.day || r.day == DaysInMonth(r.year, r.month))
  {
    match u
    case Day => PrevDay(d)
    case Week => MinusDays(d, 7)
    case Month =>
      if d.month == 1 then ClampedDate(d.year - 1, 12, d.day)
      else ClampedDate(d.year, d.month - 1, d.day)
    case Year => ClampedDate(d.year - 1, d.month, d.day)
  }

  /** A year back from February 29 lands on February 28: the year before a
      leap year is never one. */
  lemma YearBackFromLeapDay(d: CalDate)
    requires Valid(d) && d.month == 2 && d.day == 29
    ensures SubtractUnit(d, Year) == CalDate(d.year - 1, 2, 28)
  {
    assert IsLeapYear(d.year);
    assert (d.year - 1) % 4 == 3;
  }

  /** A month back from the 31st of a month that follows a 30-day month, or
      from March 29-31, lands on that month's last day. */
  lemma MonthBackClampsExamples()
    ensures SubtractUnit(CalDate(2022, 10, 2), Month) == CalDate(2022, 9, 2)
    ensures SubtractUnit(CalDate(2022, 3, 31), Month) == CalDate(2022, 2, 28)
    ensures SubtractUnit(CalDate(2024, 3, 31), Month) == CalDate(2024, 2, 29)
    ensures SubtractUnit(CalDate(2022, 1, 15), Month) == CalDate(2021, 12, 15)
  {
  }

  // ---------------------------------------------------------------------
  // Strict `YYYY-MM-DD`
  // ---------------------------------------------------------------------

  predicate IsDigit(c: char)
  {
    '0' <= c <= '9'
  }

  predicate AllDigits(s: string)
  {
    forall i :: 0 <= i < |s| ==> IsDigit(s[i])
  }

  function DigitValue(c: char): (n: nat)
    requires IsDigit(c)
    ensures n <= 9
  {
    c as int - '0' as int
  }

  function DigitChar(n: nat): (c: char)
    requires n <= 9
    ensures IsDigit(c) && DigitValue(c) == n
  {
    ('0' as int + n) as char
  }

  function Pow10(n: nat): (p: nat)
    ensures p >= 1
  {
    if n == 0 then 1 else 10 * Pow10(n - 1)
  }

  /** The decimal value of a digit string, most significant digit first. */
  function NumberOf(s: string): (n: nat)
    requires AllDigits(s)
    ensures n < Pow10(|s|)
  {
    if |s| == 0 then 0
    else 10 * NumberOf(s[..|s| - 1]) + DigitValue(s[|s| - 1])
  }

  /** `n` written with exactly `width` digits, zero-padded on the left
      (the digits above `width` are dropped). */
  function Pad(n: nat, width: nat): (s: string)
    ensures |s| == width && AllDigits(s)
  {
    if width == 0 then "" else Pad(n / 10, width - 1) + [DigitChar(n % 10)]
  }

  lemma {:induction false} NumberOfPad(n: nat, width: nat)
    requires n < Pow10(width)
    ensures NumberOf(Pad(n, width)) == n
  {
    if width > 0 {
      NumberOfPad(n / 10, width - 1);
      var s := Pad(n, width);
      assert s[..|s| - 1] == Pad(n / 10, width - 1);
      assert s[|s| - 1] == DigitChar(n % 10);
    }
  }

  lemma {:induction false} PadNumberOf(s: string)
    requires AllDigits(s)
    ensures Pad(NumberOf(s), |s|) == s
  {
    if |s| > 0 {
      var p := s[..|s| - 1];
      PadNumberOf(p);
      var n := NumberOf(s);
      assert n / 10 == NumberOf(p) && n % 10 == DigitValue(s[|s| - 1]);
      assert DigitChar(n % 10) == s[|s| - 1];
      assert s == p + [s[|s| - 1]];
    }
  }

  /** Ten characters: four digits, a hyphen, two digits, a hyphen, two digits. */
  predicate Shaped(s: string)
  {
    && |s| == 10
    && s[4] == '-' && s[7] == '-'
    && AllDigits(s[0..4]) && AllDigits(s[5..7]) && AllDigits(s[8..10])
  }

  /** `moment(s, "YYYY-MM-DD", true)`: the date `s` denotes when it has
      exactly that shape and names a real date, and nothing otherwise. */
  function ParseDate(s: string): (r: Option<CalDate>)
    ensures r.Some? ==> Valid(r.value) && 0 <= r.value.year <= 9999
    ensures r.Some? ==> Shaped(s)
  {
    if Shaped(s) then
      var d := CalDate(NumberOf(s[0..4]), NumberOf(s[5..7]), NumberOf(s[8..10]));
      if Valid(d) then Some(d) else None
    else None
  }

  /** The refusal every handler gives for a date that fails `StrictDate`. */
  const DateFormatMessage: string := "Date must be in a format of YYYY-MM-DD"

  /** The strict validity test shared by the summary, income and expense
      handlers. */
  predicate StrictDate(s: string)
  {
    ParseDate(s).Some?
  }

  /** `format('YYYY-MM-DD')` of a date with a four-digit year. */
  function FormatDate(d: CalDate): (s: string)
    requires Valid(d) && 0 <= d.year <= 9999
    ensures |s| == 10
  {
    Pad(d.year, 4) + "-" + Pad(d.month, 2) + "-" + Pad(d.day, 2)
  }

  /** Formatting a date and parsing it back gives the date again. */
  lemma FormatThenParse(d: CalDate)
    requires Valid(d) && 0 <= d.year <= 9999
    ensures ParseDate(FormatDate(d)) == Some(d)
  {
    var s := FormatDate(d);
    assert Pow10(4) == 10000 && Pow10(2) == 100;
    NumberOfPad(d.year, 4);
    NumberOfPad(d.month, 2);
    NumberOfPad(d.day, 2);
    assert s[0..4] == Pad(d.year, 4);
    assert s[5..7] == Pad(d.month, 2);
    assert s[8..10] == Pad(d.day, 2);
  }

  /** A string the strict parser accepts is the canonical spelling of its
      date, so `moment(end).format('YYYY-MM-DD')` returns `end` itself. */
  lemma ParseThenFormat(s: string)
    requires StrictDate(s)
    ensures FormatDate(ParseDate(s).value) == s
  {
    PadNumberOf(s[0..4]);
    PadNumberOf(s[5..7]);
    PadNumberOf(s[8..10]);
    assert s == s[0..4] + "-" + s[5..7] + "-" + s[8..10];
  }

  /** Inputs the strict parser refuses: a one-digit month or day, a
      day-first order, month 13 and February 30. */
  lemma StrictRejectsMalformed()
    ensures !StrictDate("2022-9-3")
    ensures !StrictDate("09-30-2022")
  {
    assert "09-30-2022"[4] == '0';
  }

  lemma StrictRejectsMonth13()
    ensures !StrictDate("2022-13-01")
  {
    var s := "2022-13-01";
    assert s[5..7] == "13";
    assert NumberOf("13") == 13;
  }

  lemma StrictRejectsFebruary30()
    ensures !StrictDate("2022-02-30")
  {
    var s := "2022-02-30";
    assert s[0..4] == "2022" && s[5..7] == "02" && s[8..10] == "30";
    assert NumberOf("02") == 2 && NumberOf("30") == 30;
  }

  lemma StrictAcceptsExample()
    ensures ParseDate("2022-09-30") == Some(CalDate(2022, 9, 30))
  {
    FormatThenParse(CalDate(2022, 9, 30));
    assert FormatDate(CalDate(2022, 9, 30)) == "2022-09-30";
  }
}
