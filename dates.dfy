/**
  Naive Python `datetime` values, the order Python gives them, and the conversion
  `datetime.strptime(s, '%Y-%m-%d')` that both resume services use to read dates.
 */
module Dates {
  import opened Wrappers

  /** A naive `datetime`. `tick` is the time of day (microseconds since midnight): a date read by
      `strptime` is at midnight, while `datetime.now()` carries the current time of day. */
  datatype DateTime = DateTime(year: int, month: int, day: int, tick: nat)

  /** The exception `strptime` raises for an argument that is not a string, such as `None`. */
  datatype Error = TypeError

  /** `a < b` on naive datetimes: the fields are compared in order. */
  predicate Before(a: DateTime, b: DateTime)
  {
    || a.year < b.year
    || (a.year == b.year && a.month < b.month)
    || (a.year == b.year && a.month == b.month && a.day < b.day)
    || (a.year == b.year && a.month == b.month && a.day == b.day && a.tick < b.tick)
  }

  /** `a <= b` on naive datetimes. */
  predicate AtOrBefore(a: DateTime, b: DateTime)
  {
    Before(a, b) || a == b
  }

  /** Python's `max(a, b)`: the first argument unless the second is strictly greater. */
  function Max(a: DateTime, b: DateTime): (r: DateTime)
    ensures AtOrBefore(a, r) && AtOrBefore(b, r)
    ensures r == a || r == b
  {
    if Before(a, b) then b else a
  }

  /** The whole-month difference used for work experience: only the year and month fields count. */
  function MonthDelta(from: DateTime, to: DateTime): int
  {
    (to.year - from.year) * 12 + to.month - from.month
  }

  lemma MonthDeltaIgnoresDayAndTime(a: DateTime, b: DateTime, a': DateTime, b': DateTime)
    requires a.year == a'.year && a.month == a'.month
    requires b.year == b'.year && b.month == b'.month
    ensures MonthDelta(a, b) == MonthDelta(a', b')
  {
  }

  /** A later datetime never lies in an earlier month. */
  lemma MonthDeltaMonotone(a: DateTime, b: DateTime)
    requires IsDateTime(a) && IsDateTime(b)
    requires AtOrBefore(a, b)
    ensures MonthDelta(a, b) >= 0
  {
    if a.year < b.year {
      assert (b.year - a.year) * 12 >= 12;
    }
  }

  // ---------------------------------------------------------------------------------------------
  // Calendar

  predicate IsLeapYear(y: int)
  {
    y % 4 == 0 && (y % 100 != 0 || y % 400 == 0)
  }

  function DaysInMonth(y: int, m: int): (n: int)
    requires 1 <= m <= 12
    ensures 28 <= n <= 31
  {
    if m == 2 then (if IsLeapYear(y) then 29 else 28)
    else if m == 4 || m == 6 || m == 9 || m == 11 then 30
    else 31
  }

  /** The dates Python's `date` type accepts: years 1 to 9999 of the proleptic Gregorian calendar. */
  predicate IsCalendarDate(y: int, m: int, d: int)
  {
    1 <= y <= 9999 && 1 <= m <= 12 && 1 <= d <= DaysInMonth(y, m)
  }

  const TicksPerDay: nat := 86_400_000_000

  /** A value Python's `datetime` can hold, such as the one `datetime.now()` returns. */
  predicate IsDateTime(t: DateTime)
  {
    IsCalendarDate(t.year, t.month, t.day) && t.tick < TicksPerDay
  }

  /** A datetime as `strptime` returns it: a calendar date at midnight. */
  predicate IsParsedDate(t: DateTime)
  {
    IsCalendarDate(t.year, t.month, t.day) && t.tick == 0
  }

  // ---------------------------------------------------------------------------------------------
  // strptime(s, '%Y-%m-%d')

  predicate IsDigit(c: char)
  {
    '0' <= c <= '9'
  }

  function DigitValue(c: char): (n: int)
    requires IsDigit(c)
    ensures 0 <= n <= 9
  {
    c as int - '0' as int
  }

  function DigitChar(n: int): (c: char)
    requires 0 <= n <= 9
    ensures IsDigit(c) && DigitValue(c) == n
  {
    ('0' as int + n) as char
  }

  /** The four digits `%Y` reads as the year `y`. */
  function YearDigits(y: int): (t: string)
    requires 0 <= y <= 9999
    ensures |t| == 4 && forall i | 0 <= i < 4 :: IsDigit(t[i])
  {
    [DigitChar(y / 1000), DigitChar(y / 100 % 10), DigitChar(y / 10 % 10), DigitChar(y % 10)]
  }

  /** The zero-padded two-digit text of a month or day number. */
  function TwoDigits(n: int): (t: string)
    requires 0 <= n <= 99
    ensures |t| == 2 && IsDigit(t[0]) && IsDigit(t[1])
  {
    [DigitChar(n / 10), DigitChar(n % 10)]
  }

  /** The texts `%m` reads as month `m`: its two digits, or its one digit when it has only one. */
  function MonthTokens(m: int): set<string>
    requires 1 <= m <= 12
  {
    if m <= 9 then {TwoDigits(m), [DigitChar(m)]} else {TwoDigits(m)}
  }

  /** The texts `%d` reads as day `d`: its two digits, or, when it has only one, that digit alone or
      after a space. */
  function DayTokens(d: int): set<string>
    requires 1 <= d <= 31
  {
    if d <= 9 then {TwoDigits(d), [DigitChar(d)], [' ', DigitChar(d)]} else {TwoDigits(d)}
  }

  lemma DigitsOfYear(a: int, b: int, c: int, d: int)
    requires 0 <= a <= 9 && 0 <= b <= 9 && 0 <= c <= 9 && 0 <= d <= 9
    ensures var y := 1000 * a + 100 * b + 10 * c + d;
      y / 1000 == a && y / 100 % 10 == b && y / 10 % 10 == c && y % 10 == d
  {
    var y := 1000 * a + 100 * b + 10 * c + d;
    assert y / 10 == 100 * a + 10 * b + c;
    assert y / 100 == 10 * a + b;
  }

  /** `%Y` is exactly four digits. */
  function YearField(t: string): (r: Option<int>)
    ensures r.Some? ==> 0 <= r.value <= 9999
  {
    if |t| == 4 && IsDigit(t[0]) && IsDigit(t[1]) && IsDigit(t[2]) && IsDigit(t[3]) then
      Some(1000 * DigitValue(t[0]) + 100 * DigitValue(t[1]) + 10 * DigitValue(t[2]) + DigitValue(t[3]))
    else
      None
  }

  /** `%m` is one of the alternatives `1[0-2]`, `0[1-9]`, `[1-9]`. */
  function MonthField(t: string): (r: Option<int>)
    ensures r.Some? ==> 1 <= r.value <= 12
  {
    if |t| == 1 && '1' <= t[0] <= '9' then Some(DigitValue(t[0]))
    else if |t| == 2 && t[0] == '0' && '1' <= t[1] <= '9' then Some(DigitValue(t[1]))
    else if |t| == 2 && t[0] == '1' && '0' <= t[1] <= '2' then Some(10 + DigitValue(t[1]))
    else None
  }

  /** `%d` is one of `3[01]`, `[12]\d`, `0[1-9]`, `[1-9]`, ` [1-9]`; being last in the format, the
      alternative must reach the end of the string or `strptime` reports unconverted data. */
  function DayField(t: string): (r: Option<int>)
    ensures r.Some? ==> 1 <= r.value <= 31
  {
    if |t| == 1 && '1' <= t[0] <= '9' then Some(DigitValue(t[0]))
    else if |t| == 2 && (t[0] == '0' || t[0] == ' ') && '1' <= t[1] <= '9' then Some(DigitValue(t[1]))
    else if |t| == 2 && (t[0] == '1' || t[0] == '2') && IsDigit(t[1]) then Some(10 * DigitValue(t[0]) + DigitValue(t[1]))
    else if |t| == 2 && t[0] == '3' && (t[1] == '0' || t[1] == '1') then Some(30 + DigitValue(t[1]))
    else None
  }

  /** `%Y` accepts exactly the texts of four digits, and reads each as the year those digits write. */
  lemma YearFieldReadsDigits(t: string)
    ensures YearField(t).Some? <==> |t| == 4 && forall i | 0 <= i < 4 :: IsDigit(t[i])
    ensures YearField(t).Some? ==> t == YearDigits(YearField(t).value)
  {
    if YearField(t).Some? {
      var a, b, c, d := DigitValue(t[0]), DigitValue(t[1]), DigitValue(t[2]), DigitValue(t[3]);
      DigitsOfYear(a, b, c, d);
      assert t == [DigitChar(a), DigitChar(b), DigitChar(c), DigitChar(d)];
    }
  }

  /** Conversely, `%Y` reads the four digits of a year as that year. */
  lemma YearFieldOfDigits(y: int)
    requires 0 <= y <= 9999
    ensures YearField(YearDigits(y)) == Some(y)
  {
    var a, b, c, d := y / 1000, y / 100 % 10, y / 10 % 10, y % 10;
    assert y / 10 == 10 * (y / 100) + c;
    assert y / 100 == 10 * a + b;
    assert y == 1000 * a + 100 * b + 10 * c + d;
  }

  /** `%m` reads month `m` from exactly the texts in `MonthTokens(m)`. */
  lemma MonthFieldReadsTokens(m: int, t: string)
    requires 1 <= m <= 12
    ensures MonthField(t) == Some(m) <==> t in MonthTokens(m)
  {
    if MonthField(t) == Some(m) {
      if |t| == 1 {
        assert t == [DigitChar(m)];
      } else {
        assert t == TwoDigits(m);
      }
    }
  }

  /** `%d` reads day `d` from exactly the texts in `DayTokens(d)`. */
  lemma DayFieldReadsTokens(d: int, t: string)
    requires 1 <= d <= 31
    ensures DayField(t) == Some(d) <==> t in DayTokens(d)
  {
    if DayField(t) == Some(d) {
      if |t| == 1 {
        assert t == [DigitChar(d)];
      } else if t[0] == ' ' {
        assert t == [' ', DigitChar(d)];
      } else {
        assert t == TwoDigits(d);
      }
    }
  }

  /** `datetime.strptime(s, '%Y-%m-%d')`; `None` stands for the `ValueError` it raises when the text
      does not match the format or names a day that does not exist. The month token ends at the
      second '-', which is the character after one month digit or after two. */
  function Strptime(s: string): (r: Option<DateTime>)
    ensures r.Some? ==> IsParsedDate(r.value)
  {
    if |s| < 5 || s[4] != '-' then None
    else
      var year := YearField(s[..4]);
      var rest := s[5..];
      var monthLength := if |rest| >= 2 && rest[1] == '-' then 1 else 2;
      if year.None? || |rest| <= monthLength || rest[monthLength] != '-' then None
      else
        var month := MonthField(rest[..monthLength]);
        var day := DayField(rest[monthLength + 1..]);
        if month.None? || day.None? then None
        else if year.value < 1 || day.value > DaysInMonth(year.value, month.value) then None
        else Some(DateTime(year.value, month.value, day.value, 0))
  }

  /** Every text the format `%Y-%m-%d` lets through for the date `t`. */
  function Spellings(t: DateTime): set<string>
    requires IsParsedDate(t)
  {
    set mt, dt | mt in MonthTokens(t.month) && dt in DayTokens(t.day) :: YearDigits(t.year) + "-" + mt + "-" + dt
  }

  lemma StrptimeSpells(s: string)
    requires Strptime(s).Some?
    ensures s in Spellings(Strptime(s).value)
  {
    var t := Strptime(s).value;
    var rest := s[5..];
    var monthLength := if |rest| >= 2 && rest[1] == '-' then 1 else 2;
    assert s[4] == '-' && monthLength < |rest| && rest[monthLength] == '-';
    var mt, dt := rest[..monthLength], rest[monthLength + 1..];
    assert YearField(s[..4]) == Some(t.year) && MonthField(mt) == Some(t.month) && DayField(dt) == Some(t.day);
    YearFieldReadsDigits(s[..4]);
    MonthFieldReadsTokens(t.month, mt);
    DayFieldReadsTokens(t.day, dt);
    assert rest == mt + "-" + dt;
    assert s == s[..4] + "-" + rest;
    assert s == YearDigits(t.year) + "-" + mt + "-" + dt;
  }

  lemma StrptimeReadsSpellings(s: string, t: DateTime)
    requires IsParsedDate(t) && s in Spellings(t)
    ensures Strptime(s) == Some(t)
  {
    var mt, dt :| mt in MonthTokens(t.month) && dt in DayTokens(t.day) && s == YearDigits(t.year) + "-" + mt + "-" + dt;
    YearFieldOfDigits(t.year);
    MonthFieldReadsTokens(t.month, mt);
    DayFieldReadsTokens(t.day, dt);
    assert s[..4] == YearDigits(t.year);
    var rest := s[5..];
    assert rest == mt + "-" + dt;
    assert rest[..|mt|] == mt && rest[|mt| + 1..] == dt;
  }

  /** `strptime` reads the date `t` from exactly the texts in `Spellings(t)`, and every text it reads
      at all is a spelling of the date it returns. */
  lemma StrptimeReadsExactlySpellings(s: string, t: DateTime)
    requires IsParsedDate(t)
    ensures Strptime(s) == Some(t) <==> s in Spellings(t)
  {
    if Strptime(s) == Some(t) {
      StrptimeSpells(s);
    }
    if s in Spellings(t) {
      StrptimeReadsSpellings(s, t);
    }
  }

  /** The zero-padded `YYYY-MM-DD` text of a date (what `date.isoformat()` writes). */
  function IsoDate(t: DateTime): (s: string)
    requires IsParsedDate(t)
    ensures |s| == 10 && s[4] == '-' && s[7] == '-'
    ensures s in Spellings(t)
  {
    var mt, dt := TwoDigits(t.month), TwoDigits(t.day);
    assert mt in MonthTokens(t.month) && dt in DayTokens(t.day);
    YearDigits(t.year) + "-" + mt + "-" + dt
  }

  /** Reading back the ISO text of a date gives that date. */
  lemma StrptimeIsoDate(t: DateTime)
    requires IsParsedDate(t)
    ensures Strptime(IsoDate(t)) == Some(t)
  {
    StrptimeReadsSpellings(IsoDate(t), t);
  }

  /** Texts `strptime` reads: zero-padded fields, single-digit fields, a space-padded day, a leap day. */
  lemma StrptimeAccepts()
    ensures Strptime("2020-01-01") == Some(DateTime(2020, 1, 1, 0))
    ensures Strptime("2020-1-5") == Some(DateTime(2020, 1, 5, 0))
    ensures Strptime("2020-01- 5") == Some(DateTime(2020, 1, 5, 0))
    ensures Strptime("2020-02-29") == Some(DateTime(2020, 2, 29, 0))
  {
  }

  /** Texts `strptime` refuses: no date at all, trailing text, the wrong separator, a year 0, a month
      13, a day the month does not have. */
  lemma StrptimeRejects()
    ensures Strptime("") == None
    ensures Strptime("present") == None
    ensures Strptime("2021-02-29") == None
    ensures Strptime("0000-01-01") == None
    ensures Strptime("2020-13-01") == None
    ensures Strptime("2020-01-32") == None
    ensures Strptime("2020-01-01 ") == None
    ensures Strptime("2020/01/01") == None
  {
  }
}
