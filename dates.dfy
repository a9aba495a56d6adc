/**
 * Calendar dates as Python's `datetime` reads and writes them with the
 * format "%Y-%m-%d": `datetime.strptime` to validate and parse,
 * `strftime` to render.
 */
module Dates {
  import opened Wrappers
  import opened Text

  datatype Date = Date(year: int, month: int, day: int)

  /** Gregorian leap years. */
  predicate IsLeapYear(y: int) {
    y % 4 == 0 && (y % 100 != 0 || y % 400 == 0)
  }

  function DaysInMonth(year: int, month: int): (n: int)
    requires 1 <= month <= 12
    ensures 28 <= n <= 31
    ensures month == 2 ==> (n == 29 <==> IsLeapYear(year))
  {
    if month == 2 then (if IsLeapYear(year) then 29 else 28)
    else if month == 4 || month == 6 || month == 9 || month == 11 then 30
    else 31
  }

  /** A date `datetime` can hold: years 1 to 9999, a real day of a real month. */
  predicate ValidDate(d: Date) {
    1 <= d.year <= 9999 && 1 <= d.month <= 12 && 1 <= d.day <= DaysInMonth(d.year, d.month)
  }

  /** `%Y` in strptime: exactly four digits. */
  function YearField(t: string): (r: Option<int>)
    ensures r.Some? ==> 0 <= r.value <= 9999
  {
    if |t| == 4 && IsDigit(t[0]) && IsDigit(t[1]) && IsDigit(t[2]) && IsDigit(t[3]) then
      Some(1000 * DigitValue(t[0]) + 100 * DigitValue(t[1]) + 10 * DigitValue(t[2]) + DigitValue(t[3]))
    else None
  }

  /** `%m` in strptime: `1[0-2]`, `0[1-9]` or `[1-9]`. */
  function MonthField(t: string): (r: Option<int>)
    ensures r.Some? ==> 1 <= r.value <= 12
  {
    if |t| == 2 && t[0] == '1' && '0' <= t[1] <= '2' then Some(10 + DigitValue(t[1]))
    else if |t| == 2 && t[0] == '0' && '1' <= t[1] <= '9' then Some(DigitValue(t[1]))
    else if |t| == 1 && '1' <= t[0] <= '9' then Some(DigitValue(t[0]))
    else None
  }

  /** `%d` in strptime: `3[01]`, `[12]\d`, `0[1-9]`, `[1-9]` or a space and `[1-9]`. */
  function DayField(t: string): (r: Option<int>)
    ensures r.Some? ==> 1 <= r.value <= 31
  {
    if |t| == 2 && t[0] == '3' && '0' <= t[1] <= '1' then Some(30 + DigitValue(t[1]))
    else if |t| == 2 && '1' <= t[0] <= '2' && IsDigit(t[1]) then Some(10 * DigitValue(t[0]) + DigitValue(t[1]))
    else if |t| == 2 && (t[0] == '0' || t[0] == ' ') && '1' <= t[1] <= '9' then Some(DigitValue(t[1]))
    else if |t| == 1 && '1' <= t[0] <= '9' then Some(DigitValue(t[0]))
    else None
  }

  /**
   * `datetime.strptime(s, "%Y-%m-%d")`: `None` where Python raises ValueError.
   * The month field holds no '-', so it ends at position 6 or 7; the whole
   * string must be consumed, and the date must exist.
   */
  function ParseYmd(s: string): (r: Option<Date>)
    ensures r.Some? ==> ValidDate(r.value)
    ensures r.Some? ==> 8 <= |s| <= 10 && s[4] == '-' && YearField(s[..4]) == Some(r.value.year)
  {
    if |s| < 8 || s[4] != '-' then None
    else
      var cut := if s[6] == '-' then 6 else 7;
      if s[cut] != '-' then None
      else
        match (YearField(s[..4]), MonthField(s[5..cut]), DayField(s[cut + 1..]))
        case (Some(y), Some(m), Some(d)) =>
          if 1 <= y && d <= DaysInMonth(y, m) then Some(Date(y, m, d)) else None
        case _ => None
  }

  /** `s` is a year field, '-', a month field, '-' and a day field that read as `d`. */
  predicate FieldsReadAs(s: string, ys: string, ms: string, ds: string, d: Date) {
    && s == ys + "-" + ms + "-" + ds
    && YearField(ys) == Some(d.year) && MonthField(ms) == Some(d.month) && DayField(ds) == Some(d.day)
  }

  /** The text matches strptime's pattern for "%Y-%m-%d" with the fields of `d`. */
  ghost predicate ReadsAs(s: string, d: Date) {
    exists ys, ms, ds :: FieldsReadAs(s, ys, ms, ds, d)
  }

  /** Every month and day is accepted zero-padded and unpadded; a day below 10 also after a space. */
  lemma FieldsAcceptEveryNumber(m: int, day: int)
    requires 1 <= m <= 12 && 1 <= day <= 31
    ensures MonthField(Pad2(m)) == Some(m) && DayField(Pad2(day)) == Some(day)
    ensures m < 10 ==> MonthField([DigitChar(m)]) == Some(m)
    ensures day < 10 ==> DayField([DigitChar(day)]) == Some(day) && DayField([' ', DigitChar(day)]) == Some(day)
  {
  }

  /** strptime accepts every text of the pattern whose date exists. */
  lemma ParseYmdComplete(ys: string, ms: string, ds: string, d: Date)
    requires FieldsReadAs(ys + "-" + ms + "-" + ds, ys, ms, ds, d) && ValidDate(d)
    ensures ParseYmd(ys + "-" + ms + "-" + ds) == Some(d)
  {
    var s := ys + "-" + ms + "-" + ds;
    var cut := 5 + |ms|;
    assert |ys| == 4 && 1 <= |ms| <= 2 && 1 <= |ds|;
    assert s[4] == '-' && s[cut] == '-';
    assert |ms| == 2 ==> s[6] == ms[1] && s[6] != '-';
    assert s[..4] == ys && s[5..cut] == ms && s[cut + 1..] == ds;
  }

  /** Whatever strptime accepts has the pattern's shape, with the fields of the parsed date. */
  lemma ParseYmdSound(s: string, d: Date)
    requires ParseYmd(s) == Some(d)
    ensures ValidDate(d) && ReadsAs(s, d)
  {
    var cut := if s[6] == '-' then 6 else 7;
    var ys, ms, ds := s[..4], s[5..cut], s[cut + 1..];
    assert YearField(ys) == Some(d.year) && MonthField(ms) == Some(d.month) && DayField(ds) == Some(d.day);
    assert s == ys + "-" + ms + "-" + ds by {
      assert s == s[..4] + [s[4]] + s[5..cut] + [s[cut]] + s[cut + 1..];
    }
    assert FieldsReadAs(s, ys, ms, ds, d);
  }

  /** strptime "%Y-%m-%d" accepts exactly the texts of its pattern whose date exists, and reads their fields. */
  lemma ParseYmdExactly(s: string, d: Date)
    ensures ParseYmd(s) == Some(d) <==> ValidDate(d) && ReadsAs(s, d)
  {
    if ParseYmd(s) == Some(d) {
      ParseYmdSound(s, d);
    }
    if ValidDate(d) && ReadsAs(s, d) {
      var ys, ms, ds :| FieldsReadAs(s, ys, ms, ds, d);
      ParseYmdComplete(ys, ms, ds, d);
    }
  }

  /** The shape `strftime("%Y-%m-%d")` writes: `DDDD-DD-DD`. */
  predicate IsCanonicalText(s: string) {
    && |s| == 10 && s[4] == '-' && s[7] == '-'
    && (forall i :: 0 <= i < 10 && i != 4 && i != 7 ==> IsDigit(s[i]))
  }

  function Pad2(n: int): (s: string)
    requires 0 <= n <= 99
    ensures |s| == 2 && IsDigit(s[0]) && IsDigit(s[1])
    ensures 10 * DigitValue(s[0]) + DigitValue(s[1]) == n
  {
    [DigitChar(n / 10), DigitChar(n % 10)]
  }

  function Pad4(n: int): (s: string)
    requires 0 <= n <= 9999
    ensures |s| == 4 && YearField(s) == Some(n)
  {
    var a, b, c, e := n / 1000, n / 100 % 10, n / 10 % 10, n % 10;
    assert n / 10 == 10 * (n / 100) + c;
    assert n / 100 == 10 * (n / 1000) + b;
    assert n == 1000 * a + 100 * b + 10 * c + e;
    [DigitChar(a), DigitChar(b), DigitChar(c), DigitChar(e)]
  }

  /** `strftime("%Y-%m-%d")`: zero-padded year, month and day. */
  function FormatYmd(d: Date): (s: string)
    requires ValidDate(d)
    ensures IsCanonicalText(s)
  {
    Pad4(d.year) + "-" + Pad2(d.month) + "-" + Pad2(d.day)
  }

  /** strptime reads back every date strftime writes. */
  lemma FormatThenParse(d: Date)
    requires ValidDate(d)
    ensures ParseYmd(FormatYmd(d)) == Some(d)
  {
    FieldsAcceptEveryNumber(d.month, d.day);
    ParseYmdComplete(Pad4(d.year), Pad2(d.month), Pad2(d.day), d);
  }

  /** Two-digit fields that spell the same number are the same text. */
  lemma Pad2OfDigits(t: string)
    requires |t| == 2 && IsDigit(t[0]) && IsDigit(t[1])
    ensures Pad2(10 * DigitValue(t[0]) + DigitValue(t[1])) == t
  {
    DigitCharOfValue(t[0]);
    DigitCharOfValue(t[1]);
  }

  lemma Pad4OfDigits(t: string)
    requires YearField(t).Some?
    ensures Pad4(YearField(t).value) == t
  {
    var a, b, c, e := DigitValue(t[0]), DigitValue(t[1]), DigitValue(t[2]), DigitValue(t[3]);
    var n := 1000 * a + 100 * b + 10 * c + e;
    assert n / 10 == 100 * a + 10 * b + c && n % 10 == e;
    assert n / 100 == 10 * a + b && n / 10 % 10 == c;
    assert n / 1000 == a && n / 100 % 10 == b;
    DigitCharOfValue(t[0]);
    DigitCharOfValue(t[1]);
    DigitCharOfValue(t[2]);
    DigitCharOfValue(t[3]);
  }

  /**
   * A string strptime accepts is exactly what strftime writes for the parsed
   * date if and only if it has the zero-padded shape `DDDD-DD-DD`.
   */
  lemma ParseMatchesFormatIffCanonical(s: string, d: Date)
    requires ParseYmd(s) == Some(d)
    ensures FormatYmd(d) == s <==> IsCanonicalText(s)
  {
    if IsCanonicalText(s) {
      Pad4OfDigits(s[..4]);
      Pad2OfDigits(s[5..7]);
      Pad2OfDigits(s[8..]);
      assert s == s[..4] + "-" + s[5..7] + "-" + s[8..];
    }
  }

  /** strptime accepts fields without zero padding, which strftime never writes. */
  lemma UnpaddedDateAccepted()
    ensures ParseYmd("2024-3-5") == Some(Date(2024, 3, 5))
    ensures FormatYmd(Date(2024, 3, 5)) == "2024-03-05"
  {
    assert YearField("2024") == Some(2024);
    FieldsAcceptEveryNumber(3, 5);
    assert "2024-3-5" == "2024" + "-" + "3" + "-" + "5";
    ParseYmdComplete("2024", "3", "5", Date(2024, 3, 5));
    assert Pad4(2024) == "2024" && Pad2(3) == "03" && Pad2(5) == "05";
  }

  /** The Gregorian leap-year rule decides whether 29 February exists. */
  lemma LeapDayExamples()
    ensures ParseYmd("2024-02-29") == Some(Date(2024, 2, 29))
    ensures ParseYmd("2023-02-29") == None
    ensures ParseYmd("1900-02-29") == None
    ensures ParseYmd("2000-02-29") == Some(Date(2000, 2, 29))
  {
    LeapDayParse("2024-02-29", 2024);
    LeapDayParse("2023-02-29", 2023);
    LeapDayParse("1900-02-29", 1900);
    LeapDayParse("2000-02-29", 2000);
  }

  lemma LeapDayParse(s: string, y: int)
    requires |s| == 10 && YearField(s[..4]) == Some(y) && 1 <= y && s[4..] == "-02-29"
    ensures ParseYmd(s) == (if IsLeapYear(y) then Some(Date(y, 2, 29)) else None)
  {
    assert s[4] == '-' && s[6] == '2' && s[7] == '-';
    assert s[5..7] == "02" && s[8..] == "29";
  }
}
