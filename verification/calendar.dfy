/**
  Calendar days as the dashboard handles them: `YYYY-MM-DD` strings (the complete
  extended calendar-date form of section 4.1.2.2 of ISO 8601:2004), the `Date`
  values date-fns `parseISO` makes of them, and day numbers, so that date-fns
  `addDays` becomes addition and `startOfWeek(…, { weekStartsOn: 1 })` a remainder.
  Time of day and time zones play no part: a `Date` is reduced to its calendar day.
 */
module Calendar {
  import opened Text

  /** A proleptic Gregorian calendar day. */
  datatype CivilDate = CivilDate(year: nat, month: nat, day: nat)

  /** A JavaScript `Date` as `parseISO` returns it: a calendar day, or Invalid Date. */
  datatype DateValue = InvalidDate | Day(date: CivilDate)

  predicate IsLeapYear(y: nat) {
    y % 4 == 0 && (y % 100 != 0 || y % 400 == 0)
  }

  function MonthLength(y: nat, m: nat): nat
    requires 1 <= m <= 12
  {
    if m == 2 then (if IsLeapYear(y) then 29 else 28)
    else if m == 4 || m == 6 || m == 9 || m == 11 then 30
    else 31
  }

  function YearLength(y: nat): nat {
    if IsLeapYear(y) then 366 else 365
  }

  /** A day that exists in the calendar (years from 0000 on). */
  predicate IsCalendarDate(d: CivilDate) {
    1 <= d.month <= 12 && 1 <= d.day <= MonthLength(d.year, d.month)
  }

  /** Days from 0000-01-01 to the first day of year `y`: 365 per year plus one per leap year before it. */
  function DaysBeforeYear(y: nat): int {
    365 * y + (y + 3) / 4 - (y + 99) / 100 + (y + 399) / 400
  }

  /** Days from the first of January to the first day of month `m` of year `y`. */
  function DaysBeforeMonth(y: nat, m: nat): int
    requires 1 <= m <= 12
  {
    [0, 31, 59, 90, 120, 151, 181, 212, 243, 273, 304, 334][m - 1]
    + if m > 2 && IsLeapYear(y) then 1 else 0
  }

  /** Each month begins where the previous one ends. */
  lemma MonthStep(y: nat, m: nat)
    requires 1 <= m < 12
    ensures DaysBeforeMonth(y, m + 1) == DaysBeforeMonth(y, m) + MonthLength(y, m)
  {
  }

  /** How many days after 0000-01-01 the date falls. */
  function DayNumber(d: CivilDate): int
    requires IsCalendarDate(d)
  {
    DaysBeforeYear(d.year) + DaysBeforeMonth(d.year, d.month) + d.day - 1
  }

  /** The calendar day after `d`. */
  function NextDay(d: CivilDate): (n: CivilDate)
    requires IsCalendarDate(d)
    ensures IsCalendarDate(n)
  {
    if d.day < MonthLength(d.year, d.month) then CivilDate(d.year, d.month, d.day + 1)
    else if d.month < 12 then CivilDate(d.year, d.month + 1, 1)
    else CivilDate(d.year + 1, 1, 1)
  }

  /** One more multiple of `k` lies below `y + 1` than below `y` exactly when `k` divides `y`. */
  lemma CeilStep(y: nat, k: nat)
    requires k == 4 || k == 100 || k == 400
    ensures (y + k) / k - (y + k - 1) / k == if y % k == 0 then 1 else 0
  {
    var q, r := y / k, y % k;
    assert y == q * k + r && 0 <= r < k;
    assert (y + k) / k == q + 1 by {
      assert (q + 1) * k <= y + k < (q + 2) * k;
    }
    if r == 0 {
      assert (y + k - 1) / k == q by {
        assert q * k <= y + k - 1 < (q + 1) * k;
      }
    } else {
      assert (y + k - 1) / k == q + 1 by {
        assert (q + 1) * k <= y + k - 1 < (q + 2) * k;
      }
    }
  }

  /** A multiple of 400 is a multiple of 100, and a multiple of 100 a multiple of 4. */
  lemma DivisibilityChain(y: nat)
    ensures y % 400 == 0 ==> y % 100 == 0
    ensures y % 100 == 0 ==> y % 4 == 0
  {
    if y % 400 == 0 {
      var q := y / 400;
      assert y == 100 * (4 * q);
    }
    if y % 100 == 0 {
      var q := y / 100;
      assert y == 4 * (25 * q);
    }
  }

  lemma YearStep(y: nat)
    ensures DaysBeforeYear(y + 1) == DaysBeforeYear(y) + YearLength(y)
  {
    var a := (y + 4) / 4 - (y + 3) / 4;
    var b := (y + 100) / 100 - (y + 99) / 100;
    var c := (y + 400) / 400 - (y + 399) / 400;
    assert DaysBeforeYear(y + 1) == DaysBeforeYear(y) + 365 + a - b + c;
    CeilStep(y, 4);
    CeilStep(y, 100);
    CeilStep(y, 400);
    DivisibilityChain(y);
  }

  /** The twelve months of a year add up to the length of that year. */
  lemma MonthsFillYear(y: nat)
    ensures DaysBeforeMonth(y, 12) + MonthLength(y, 12) == YearLength(y)
  {
  }

  lemma WeekdayStep(n: int)
    ensures Weekday(n + 1) == (Weekday(n) + 1) % 7
  {
  }

  /**
    Consecutive calendar days have consecutive day numbers, across month and year
    ends and leap days, so adding `i` days to a date adds `i` to its day number.
   */
  lemma DayNumberOfNextDay(d: CivilDate)
    requires IsCalendarDate(d)
    ensures DayNumber(NextDay(d)) == DayNumber(d) + 1
  {
    if d.day == MonthLength(d.year, d.month) {
      if d.month == 12 {
        YearStep(d.year);
        MonthsFillYear(d.year);
      } else {
        MonthStep(d.year, d.month);
      }
    }
  }

  /** The day of the week of a day number, 0 for Monday through 6 for Sunday. */
  function Weekday(n: int): (w: nat)
    ensures w < 7
  {
    (n - MondayResidue) % 7
  }

  /** Day numbers of Mondays leave this remainder modulo 7. */
  const MondayResidue: int := 2

  /** 2025-03-10 was a Monday, which fixes `MondayResidue`. */
  lemma MondayAnchor()
    ensures IsCalendarDate(CivilDate(2025, 3, 10))
    ensures Weekday(DayNumber(CivilDate(2025, 3, 10))) == 0
  {
  }

  /** The day after a day is one weekday later, wrapping from Sunday to Monday. */
  lemma WeekdayOfNextDay(d: CivilDate)
    requires IsCalendarDate(d)
    ensures Weekday(DayNumber(NextDay(d))) == (Weekday(DayNumber(d)) + 1) % 7
  {
    DayNumberOfNextDay(d);
    WeekdayStep(DayNumber(d));
  }

  /** date-fns `startOfWeek(day, { weekStartsOn: 1 })` on day numbers: the Monday on or before `n`. */
  function StartOfWeek(n: int): (r: int)
    ensures Weekday(r) == 0
    ensures r <= n < r + 7
  {
    n - Weekday(n)
  }

  /**
    The date part of `toISOString` for four-digit years, and the text `parseISO`
    reads: the year padded to four digits (year 0 prints as 0000), month and day to
    two. `toISOString` writes later years with a sign and six digits; every contract
    that uses this text keeps the year below 10000.
   */
  function IsoText(d: CivilDate): (s: string)
    ensures |s| >= 10
  {
    ZeroPad(d.year, 4) + "-" + ZeroPad(d.month, 2) + "-" + ZeroPad(d.day, 2)
  }

  /** The year date-fns prints for `yyyy`: the year of the era, so year 0 (1 BC) prints as 1. */
  function EraYear(y: nat): (e: nat)
    ensures e >= 1 && (y >= 1 ==> e == y)
  {
    if y == 0 then 1 else y
  }

  /** date-fns `format(d, "yyyy-MM-dd")`: the ISO text of the day with its era year. */
  function FormatIso(d: CivilDate): (s: string)
    ensures |s| >= 10
  {
    IsoText(d.(year := EraYear(d.year)))
  }

  /** The shape `DDDD-DD-DD` of a complete extended calendar date. */
  predicate IsIsoShaped(s: string) {
    && |s| == 10 && s[4] == '-' && s[7] == '-'
    && AllDigits(s[..4]) && AllDigits(s[5..7]) && AllDigits(s[8..])
  }

  /**
    date-fns `parseISO` on a date-only string: the day it names when `s` has the
    `YYYY-MM-DD` shape and names a day of the calendar, Invalid Date otherwise.
   */
  function ParseIsoDate(s: string): (r: DateValue)
    ensures r.Day? ==> IsIsoShaped(s) && IsCalendarDate(r.date) && r.date.year < 10000
  {
    if IsIsoShaped(s) then
      var d := CivilDate(DecimalValue(s[..4]), DecimalValue(s[5..7]), DecimalValue(s[8..]));
      DecimalValueBound(s[..4]);
      if IsCalendarDate(d) then Day(d) else InvalidDate
    else InvalidDate
  }

  /**
    Parsing the ISO text of a four-digit year, month and day gives that day when it
    is a day of the calendar, and Invalid Date otherwise.
   */
  lemma ParseIsoText(d: CivilDate)
    requires d.year < 10000 && d.month < 100 && d.day < 100
    ensures ParseIsoDate(IsoText(d)) == if IsCalendarDate(d) then Day(d) else InvalidDate
  {
    var y, m, dd := ZeroPad(d.year, 4), ZeroPad(d.month, 2), ZeroPad(d.day, 2);
    ZeroPadLength(d.year, 4);
    ZeroPadLength(d.month, 2);
    ZeroPadLength(d.day, 2);
    ZeroPadValue(d.year, 4);
    ZeroPadValue(d.month, 2);
    ZeroPadValue(d.day, 2);
    ParseOfPieces(y, m, dd, d);
  }

  lemma ParseOfPieces(y: string, m: string, dd: string, d: CivilDate)
    requires |y| == 4 && |m| == 2 && |dd| == 2
    requires AllDigits(y) && AllDigits(m) && AllDigits(dd)
    requires DecimalValue(y) == d.year && DecimalValue(m) == d.month && DecimalValue(dd) == d.day
    ensures ParseIsoDate(y + "-" + m + "-" + dd) == if IsCalendarDate(d) then Day(d) else InvalidDate
  {
    var s := y + "-" + m + "-" + dd;
    IsoSlices(y, m, dd);
    assert IsIsoShaped(s);
  }

  lemma IsoSlices(y: string, m: string, d: string)
    requires |y| == 4 && |m| == 2 && |d| == 2
    ensures var s := y + "-" + m + "-" + d;
      |s| == 10 && s[..4] == y && s[4] == '-' && s[5..7] == m && s[7] == '-' && s[8..] == d
  {
  }

  /** A date string that parses is exactly the ISO text of the day it names: the form is canonical. */
  lemma IsoTextOfParse(s: string)
    requires ParseIsoDate(s).Day?
    ensures IsoText(ParseIsoDate(s).date) == s
  {
    var y, m, dd := s[..4], s[5..7], s[8..];
    var d := CivilDate(DecimalValue(y), DecimalValue(m), DecimalValue(dd));
    assert ParseIsoDate(s) == Day(d);
    ZeroPadOfDecimalValue(y);
    ZeroPadOfDecimalValue(m);
    ZeroPadOfDecimalValue(dd);
    assert IsoText(d) == y + "-" + m + "-" + dd;
    IsoPieces(s);
  }

  lemma IsoPieces(s: string)
    requires |s| == 10 && s[4] == '-' && s[7] == '-'
    ensures s == s[..4] + "-" + s[5..7] + "-" + s[8..]
  {
  }

  /**
    Formatting a four-digit-year day and parsing the text back gives the same day
    from year 1 on. Year 0 is printed as year 1, so it parses back as that day of
    year 1, which for 29 February does not exist.
   */
  lemma ParseFormatIso(d: CivilDate)
    requires IsCalendarDate(d) && d.year < 10000
    ensures d.year >= 1 ==> ParseIsoDate(FormatIso(d)) == Day(d)
    ensures d.year == 0 ==>
      ParseIsoDate(FormatIso(d)) == if IsCalendarDate(d.(year := 1)) then Day(d.(year := 1)) else InvalidDate
  {
    ParseIsoText(d.(year := EraYear(d.year)));
  }

  /**
    A date string that parses is the formatting of the day it names, except that a
    year written 0000 is formatted as 0001.
   */
  lemma FormatParseIso(s: string)
    requires ParseIsoDate(s).Day?
    ensures ParseIsoDate(s).date.year >= 1 ==> FormatIso(ParseIsoDate(s).date) == s
    ensures ParseIsoDate(s).date.year == 0 ==> FormatIso(ParseIsoDate(s).date) == "0001" + s[4..]
  {
    var d := ParseIsoDate(s).date;
    IsoTextOfParse(s);
    if d.year == 0 {
      YearZeroFormat(d);
    }
  }

  /** Year 0 is formatted like year 1: the ISO text with its first four characters replaced by 0001. */
  lemma YearZeroFormat(d: CivilDate)
    requires d.year == 0
    ensures FormatIso(d) == "0001" + IsoText(d)[4..]
  {
    var m, dd := ZeroPad(d.month, 2), ZeroPad(d.day, 2);
    YearPads();
    IsoTail("0000", m, dd);
    IsoTail("0001", m, dd);
  }

  lemma YearPads()
    ensures ZeroPad(0, 4) == "0000" && ZeroPad(1, 4) == "0001"
  {
    assert NatToDecimal(0) == "0" && NatToDecimal(1) == "1";
  }

  lemma IsoTail(y: string, m: string, dd: string)
    requires |y| == 4
    ensures (y + "-" + m + "-" + dd)[4..] == "-" + m + "-" + dd
    ensures y + "-" + m + "-" + dd == y + ("-" + m + "-" + dd)
  {
  }

  /** date-fns `isSameDay` between a day number of the week grid and a parsed date. */
  predicate IsSameDay(n: int, v: DateValue) {
    v.Day? && IsCalendarDate(v.date) && DayNumber(v.date) == n
  }
}
