/**
 * Civil-date arithmetic of lib/date-utils.ts, on the ideal proleptic
 * Gregorian calendar: a date is a (year, month, day) triple, and every
 * JavaScript `Date` manipulation the module performs (`setDate(d +/- n)`,
 * `new Date(y, m + 1, 0)`, comparisons of time values) is stated through the
 * day number `Ordinal`, the count of days since 0000-01-01. Timezones, the
 * UTC reading of `new Date("YYYY-MM-DD")` and wall-clock time are not part of
 * this model: "today" is a parameter.
 */
module Dates {
  import opened Values
  import Text

  datatype Date = Date(year: int, month: int, day: int)

  predicate IsLeapYear(y: int) {
    y % 4 == 0 && (y % 100 != 0 || y % 400 == 0)
  }

  function DaysInMonth(y: int, m: int): (n: int)
    requires 1 <= m <= 12
    ensures 28 <= n <= 31
    ensures m == 2 ==> (n == 29 <==> IsLeapYear(y))
  {
    if m == 2 then (if IsLeapYear(y) then 29 else 28)
    else if m == 4 || m == 6 || m == 9 || m == 11 then 30
    else 31
  }

  /** A date that exists on the calendar. */
  predicate Valid(d: Date) {
    1 <= d.month <= 12 && 1 <= d.day <= DaysInMonth(d.year, d.month)
  }

  function YearLength(y: int): int {
    if IsLeapYear(y) then 366 else 365
  }

  /** Days from 0000-01-01 to the first day of year `y` (negative before year 0). */
  function DaysBeforeYear(y: int): int {
    365 * y + (y + 3) / 4 - (y + 99) / 100 + (y + 399) / 400
  }

  /** Each of the three leap-year counters in `DaysBeforeYear` steps by one exactly at its multiples. */
  lemma LeapCountersStep(y: int)
    ensures (y + 4) / 4 - (y + 3) / 4 == if y % 4 == 0 then 1 else 0
    ensures (y + 100) / 100 - (y + 99) / 100 == if y % 100 == 0 then 1 else 0
    ensures (y + 400) / 400 - (y + 399) / 400 == if y % 400 == 0 then 1 else 0
  {
    var q4, r4 := y / 4, y % 4;
    assert y + 4 == 4 * (q4 + 1) + r4;
    if r4 == 0 { assert y + 3 == 4 * q4 + 3; } else { assert y + 3 == 4 * (q4 + 1) + (r4 - 1); }
    var q100, r100 := y / 100, y % 100;
    assert y + 100 == 100 * (q100 + 1) + r100;
    if r100 == 0 { assert y + 99 == 100 * q100 + 99; } else { assert y + 99 == 100 * (q100 + 1) + (r100 - 1); }
    var q400, r400 := y / 400, y % 400;
    assert y + 400 == 400 * (q400 + 1) + r400;
    if r400 == 0 { assert y + 399 == 400 * q400 + 399; } else { assert y + 399 == 400 * (q400 + 1) + (r400 - 1); }
  }

  /** Consecutive year starts are one year length apart. */
  lemma YearStep(y: int)
    ensures DaysBeforeYear(y + 1) == DaysBeforeYear(y) + YearLength(y)
  {
    LeapCountersStep(y);
    MultipleOf400(y);
    MultipleOf100(y);
    var c4 := if y % 4 == 0 then 1 else 0;
    var c100 := if y % 100 == 0 then 1 else 0;
    var c400 := if y % 400 == 0 then 1 else 0;
    assert DaysBeforeYear(y + 1) == DaysBeforeYear(y) + 365 + c4 - c100 + c400;
    assert YearLength(y) == 365 + c4 - c100 + c400;
  }

  lemma MultipleOf400(y: int)
    ensures y % 400 == 0 ==> y % 100 == 0
  {
    if y % 400 == 0 {
      var t := y / 400;
      assert y == 100 * (4 * t);
    }
  }

  lemma MultipleOf100(y: int)
    ensures y % 100 == 0 ==> y % 4 == 0
  {
    if y % 100 == 0 {
      var t := y / 100;
      assert y == 4 * (25 * t);
    }
  }

  /** Days from the first of January to the first day of month `m` of year `y`. */
  function DaysBeforeMonth(y: int, m: int): int
    requires 1 <= m <= 12
  {
    [0, 31, 59, 90, 120, 151, 181, 212, 243, 273, 304, 334][m - 1]
    + (if m > 2 && IsLeapYear(y) then 1 else 0)
  }

  lemma MonthStep(y: int, m: int)
    requires 1 <= m <= 12
    ensures m < 12 ==> DaysBeforeMonth(y, m + 1) == DaysBeforeMonth(y, m) + DaysInMonth(y, m)
    ensures m == 12 ==> DaysBeforeMonth(y, m) + DaysInMonth(y, m) == YearLength(y)
  {
  }

  /** The day number of a date: days elapsed since 0000-01-01. */
  function Ordinal(d: Date): int
    requires Valid(d)
  {
    DaysBeforeYear(d.year) + DaysBeforeMonth(d.year, d.month) + d.day - 1
  }

  /** `a <= b` on the time values of two dates. */
  predicate OnOrBefore(a: Date, b: Date)
    requires Valid(a) && Valid(b)
  {
    Ordinal(a) <= Ordinal(b)
  }

  /** The following day: `date.setDate(date.getDate() + 1)`, rolling over month and year ends. */
  function Next(d: Date): (r: Date)
    requires Valid(d)
    ensures Valid(r)
  {
    if d.day < DaysInMonth(d.year, d.month) then Date(d.year, d.month, d.day + 1)
    else if d.month < 12 then Date(d.year, d.month + 1, 1)
    else Date(d.year + 1, 1, 1)
  }

  /** The preceding day: `date.setDate(date.getDate() - 1)`. */
  function Prev(d: Date): (r: Date)
    requires Valid(d)
    ensures Valid(r)
  {
    if d.day > 1 then Date(d.year, d.month, d.day - 1)
    else if d.month > 1 then Date(d.year, d.month - 1, DaysInMonth(d.year, d.month - 1))
    else Date(d.year - 1, 12, 31)
  }

  /** The next day is exactly one day number later. */
  lemma NextOrdinal(d: Date)
    requires Valid(d)
    ensures Ordinal(Next(d)) == Ordinal(d) + 1
  {
    MonthStep(d.year, d.month);
    if d.day == DaysInMonth(d.year, d.month) && d.month == 12 {
      YearStep(d.year);
    }
  }

  lemma PrevNext(d: Date)
    requires Valid(d)
    ensures Prev(Next(d)) == d
  {
  }

  lemma NextPrev(d: Date)
    requires Valid(d)
    ensures Next(Prev(d)) == d
  {
  }

  /** The last day of a month is followed by the first of the next month, and 31 December by 1 January. */
  lemma NextRollsOver(y: int, m: int)
    requires 1 <= m <= 12
    ensures m < 12 ==> Next(Date(y, m, DaysInMonth(y, m))) == Date(y, m + 1, 1)
    ensures m == 12 ==> Next(Date(y, m, DaysInMonth(y, m))) == Date(y + 1, 1, 1)
    ensures Next(Date(2026, 1, 31)) == Date(2026, 2, 1) && Next(Date(2024, 2, 28)) == Date(2024, 2, 29)
  {
  }

  /** The previous day is exactly one day number earlier. */
  lemma PrevOrdinal(d: Date)
    requires Valid(d)
    ensures Ordinal(Prev(d)) == Ordinal(d) - 1
  {
    NextPrev(d);
    NextOrdinal(Prev(d));
  }

  /** Day numbers of one year lie between the start of that year and the start of the next. */
  lemma OrdinalWithinYear(d: Date)
    requires Valid(d)
    ensures DaysBeforeYear(d.year) <= Ordinal(d) < DaysBeforeYear(d.year + 1)
  {
    YearStep(d.year);
    MonthStep(d.year, d.month);
    if d.month < 12 {
      MonthWithinYear(d.year, d.month + 1);
    }
  }

  lemma {:induction false} MonthWithinYear(y: int, m: int)
    requires 1 <= m <= 12
    ensures DaysBeforeMonth(y, m) + DaysInMonth(y, m) <= YearLength(y)
    decreases 12 - m
  {
    MonthStep(y, m);
    if m < 12 {
      MonthWithinYear(y, m + 1);
    }
  }

  lemma {:induction false} YearsIncrease(a: int, b: int)
    requires a < b
    ensures DaysBeforeYear(a + 1) <= DaysBeforeYear(b)
    decreases b - a
  {
    if a + 1 < b {
      YearsIncrease(a + 1, b);
      YearStep(a + 1);
    }
  }

  /** Day numbers follow the calendar order: by year, then by month, then by day. */
  lemma OrdinalOrder(a: Date, b: Date)
    requires Valid(a) && Valid(b)
    ensures Ordinal(a) < Ordinal(b) <==>
      a.year < b.year
      || (a.year == b.year && a.month < b.month)
      || (a.year == b.year && a.month == b.month && a.day < b.day)
  {
    OrdinalWithinYear(a);
    OrdinalWithinYear(b);
    if a.year < b.year {
      YearsIncrease(a.year, b.year);
    } else if b.year < a.year {
      YearsIncrease(b.year, a.year);
    } else if a.month < b.month {
      MonthsIncrease(a.year, a.month, b.month);
    } else if b.month < a.month {
      MonthsIncrease(a.year, b.month, a.month);
    }
  }

  lemma {:induction false} MonthsIncrease(y: int, m1: int, m2: int)
    requires 1 <= m1 < m2 <= 12
    ensures DaysBeforeMonth(y, m1) + DaysInMonth(y, m1) <= DaysBeforeMonth(y, m2)
    decreases m2 - m1
  {
    MonthStep(y, m1);
    if m1 + 1 < m2 {
      MonthsIncrease(y, m1 + 1, m2);
      MonthStep(y, m1 + 1);
    }
  }

  /** Two valid dates with the same day number are the same date. */
  lemma OrdinalInjective(a: Date, b: Date)
    requires Valid(a) && Valid(b)
    ensures Ordinal(a) == Ordinal(b) <==> a == b
  {
    OrdinalOrder(a, b);
    OrdinalOrder(b, a);
  }

  /** The date `n` days after `d`. */
  function NextN(d: Date, n: nat): (r: Date)
    requires Valid(d)
    ensures Valid(r)
  {
    if n == 0 then d else Next(NextN(d, n - 1))
  }

  /** The date `n` days before `d`. */
  function PrevN(d: Date, n: nat): (r: Date)
    requires Valid(d)
    ensures Valid(r)
  {
    if n == 0 then d else Prev(PrevN(d, n - 1))
  }

  lemma {:induction false} NextNOrdinal(d: Date, n: nat)
    requires Valid(d)
    ensures Ordinal(NextN(d, n)) == Ordinal(d) + n
  {
    if n > 0 {
      NextNOrdinal(d, n - 1);
      NextOrdinal(NextN(d, n - 1));
    }
  }

  lemma {:induction false} PrevNOrdinal(d: Date, n: nat)
    requires Valid(d)
    ensures Ordinal(PrevN(d, n)) == Ordinal(d) - n
  {
    if n > 0 {
      PrevNOrdinal(d, n - 1);
      PrevOrdinal(PrevN(d, n - 1));
    }
  }

  // ---- Text forms ----------------------------------------------------------

  /** `${year}`: the year in decimal, without padding. */
  function YearText(y: int): string {
    if y >= 0 then Text.Decimal(y) else "-" + Text.Decimal(-y)
  }

  /** `formatDate`: `${year}-${MM}-${DD}` with month and day zero-padded to two digits. */
  function Format(d: Date): (r: string)
    requires Valid(d)
    ensures |r| == |YearText(d.year)| + 6
    ensures r[|r| - 6] == '-' && r[|r| - 3] == '-'
  {
    YearText(d.year) + "-" + Text.Pad2(d.month) + "-" + Text.Pad2(d.day)
  }

  /** The last two fields of the text are two digits each, reading back as the month and the day. */
  lemma FormatFields(d: Date)
    requires Valid(d)
    ensures var r := Format(d);
      Text.AllDigits(r[|r| - 5..|r| - 3]) && Text.DigitsValue(r[|r| - 5..|r| - 3]) == d.month
      && Text.AllDigits(r[|r| - 2..]) && Text.DigitsValue(r[|r| - 2..]) == d.day
      && r[..|r| - 6] == YearText(d.year)
  {
    var r := Format(d);
    assert r[..|r| - 6] == YearText(d.year);
    assert r[|r| - 5..|r| - 3] == Text.Pad2(d.month);
    assert r[|r| - 2..] == Text.Pad2(d.day);
    Text.Pad2Value(d.month);
    Text.Pad2Value(d.day);
  }

  /** For four-digit years the text is exactly `YYYY-MM-DD`. */
  lemma FormatShape(d: Date)
    requires Valid(d) && 1000 <= d.year <= 9999
    ensures |Format(d)| == 10 && Format(d)[4] == '-' && Format(d)[7] == '-'
    ensures Format(d)[..4] == Text.Decimal(d.year)
  {
    Text.DecimalLength(d.year, 4);
    assert Text.Pow10(3) == 1000 && Text.Pow10(4) == 10000;
  }

  /** `parseDate` on the `YYYY-MM-DD` form: digits, dash, two digits, dash, two digits, naming a real date. */
  function Parse(s: string): (r: Option<Date>)
    ensures r.Some? ==> Valid(r.value) && r.value.year >= 0
  {
    if |s| >= 7 && s[|s| - 3] == '-' && s[|s| - 6] == '-' then
      var y, m, d := s[..|s| - 6], s[|s| - 5..|s| - 3], s[|s| - 2..];
      if y != [] && Text.AllDigits(y) && Text.AllDigits(m) && Text.AllDigits(d) then
        var date := Date(Text.DigitsValue(y), Text.DigitsValue(m), Text.DigitsValue(d));
        if Valid(date) then Some(date) else None
      else None
    else None
  }

  /** Formatting then parsing gives the date back; hence `Format` is one-to-one. */
  lemma ParseFormat(d: Date)
    requires Valid(d) && d.year >= 0
    ensures Parse(Format(d)) == Some(d)
  {
    var s := Format(d);
    FormatFields(d);
    assert s[..|s| - 6] == Text.Decimal(d.year);
    Text.DecimalRoundTrip(d.year);
  }

  /** The text form `formatDate(current)` used by the JS `Date` for an unparsable input. */
  const InvalidDateText: string := "NaN-NaN-NaN"

  /** `getNextDate(dateString)`. */
  function NextDateText(s: string): string {
    match Parse(s)
    case Some(d) => Format(Next(d))
    case None => InvalidDateText
  }

  /** `getPreviousDate(dateString)`. */
  function PreviousDateText(s: string): string {
    match Parse(s)
    case Some(d) => Format(Prev(d))
    case None => InvalidDateText
  }

  /** On the text forms, the previous day of the next day is the day itself, and vice versa. */
  lemma NextPreviousText(d: Date)
    requires Valid(d) && d.year >= 1
    ensures PreviousDateText(NextDateText(Format(d))) == Format(d)
    ensures NextDateText(PreviousDateText(Format(d))) == Format(d)
  {
    ParseFormat(d);
    ParseFormat(Next(d));
    ParseFormat(Prev(d));
    PrevNext(d);
    NextPrev(d);
  }

  // ---- Ranges ----------------------------------------------------------------

  /** `getMonthRange`: the first and the last day of the month of `d`. */
  function MonthRange(d: Date): (r: (Date, Date))
    requires Valid(d)
    ensures Valid(r.0) && Valid(r.1)
    ensures r.0.year == d.year && r.0.month == d.month && r.0.day == 1
    ensures r.1.year == d.year && r.1.month == d.month
    ensures Next(r.1).day == 1 && Next(r.1).month != d.month
    ensures OnOrBefore(r.0, d) && OnOrBefore(d, r.1)
  {
    var first := Date(d.year, d.month, 1);
    var last := Date(d.year, d.month, DaysInMonth(d.year, d.month));
    (first, last)
  }

  /** February ends on the 29th exactly in leap years. */
  lemma FebruaryEnd(y: int)
    ensures MonthRange(Date(y, 2, 1)).1.day == 29 <==> IsLeapYear(y)
  {
  }

  /** `getDaysDifference`: the number of whole days between two dates, in either order. */
  function DaysDifference(a: Date, b: Date): (n: nat)
    requires Valid(a) && Valid(b)
    ensures Ordinal(a) + n == Ordinal(b) || Ordinal(b) + n == Ordinal(a)
    ensures n == 0 <==> a == b
  {
    OrdinalInjective(a, b);
    if Ordinal(a) <= Ordinal(b) then Ordinal(b) - Ordinal(a) else Ordinal(a) - Ordinal(b)
  }

  lemma DaysDifferenceSymmetric(a: Date, b: Date)
    requires Valid(a) && Valid(b)
    ensures DaysDifference(a, b) == DaysDifference(b, a)
  {
  }

  /** A date is `n` days away from the date `n` days after it. */
  lemma DaysDifferenceNextN(d: Date, n: nat)
    requires Valid(d)
    ensures DaysDifference(d, NextN(d, n)) == n
  {
    NextNOrdinal(d, n);
  }

  datatype Period = SevenDays | ThirtyDays | NinetyDays

  function PeriodDays(p: Period): nat {
    match p
    case SevenDays => 7
    case ThirtyDays => 30
    case NinetyDays => 90
  }

  /** `calculateDateRange` with today's date as a parameter: it ends today and starts 7, 30 or 90 days earlier. */
  function CalculateDateRange(today: Date, p: Period): (r: (Date, Date))
    requires Valid(today)
    ensures Valid(r.0) && r.1 == today
    ensures Ordinal(r.0) == Ordinal(today) - PeriodDays(p)
    ensures DaysDifference(r.0, r.1) == PeriodDays(p)
  {
    PrevNOrdinal(today, PeriodDays(p));
    (PrevN(today, PeriodDays(p)), today)
  }

  /** The text forms of the `n` consecutive days starting at `start`. */
  function DayTexts(start: Date, n: nat): (texts: seq<string>)
    requires Valid(start)
    ensures |texts| == n
  {
    seq(n, i requires 0 <= i < n => Format(NextN(start, i)))
  }

  /** The `i`-th text is the text of the date `i` days after `start`, whose day number is `i` more. */
  lemma DayTextsAt(start: Date, n: nat, i: nat)
    requires Valid(start) && i < n
    ensures DayTexts(start, n)[i] == Format(NextN(start, i))
    ensures Ordinal(NextN(start, i)) == Ordinal(start) + i
  {
    NextNOrdinal(start, i);
  }

  /** One more day appends the next day's text. */
  lemma DayTextsSnoc(start: Date, n: nat)
    requires Valid(start)
    ensures DayTexts(start, n + 1) == DayTexts(start, n) + [Format(NextN(start, n))]
  {
    var a, b := DayTexts(start, n + 1), DayTexts(start, n) + [Format(NextN(start, n))];
    forall i | 0 <= i < n + 1
      ensures a[i] == b[i]
    {
      if i < n {
        assert b[i] == DayTexts(start, n)[i];
      }
    }
  }

  /**
   * `getDateRange`: the text form of every day from `start` to `end`
   * inclusive, ascending; empty when `start` is after `end`.
   */
  method DateRange(start: Date, end: Date) returns (dates: seq<string>)
    requires Valid(start) && Valid(end)
    ensures dates == DayTexts(start, if Ordinal(end) < Ordinal(start) then 0 else Ordinal(end) - Ordinal(start) + 1)
  {
    dates := [];
    var current := start;
    var day, last := Ordinal(start), Ordinal(end);
    ghost var first := day;
    while day <= last
      invariant current == NextN(start, |dates|)
      invariant day == first + |dates|
      invariant |dates| <= if last < first then 0 else last - first + 1
      invariant dates == DayTexts(start, |dates|)
      decreases last - day
    {
      DayTextsSnoc(start, |dates|);
      dates := dates + [Format(current)];
      current, day := Next(current), day + 1;
    }
  }

  // ---- Japanese display forms --------------------------------------------------

  /** `formatDateJP`: `${year}年${month}月${day}日`, without padding. */
  function FormatJapanese(d: Date): string
    requires Valid(d)
  {
    YearText(d.year) + "年" + Text.Decimal(d.month) + "月" + Text.Decimal(d.day) + "日"
  }

  /** `getDay()`: 0 for Sunday through 6 for Saturday; 0000-01-01 was a Saturday. */
  function Weekday(d: Date): (w: nat)
    requires Valid(d)
    ensures w < 7
  {
    (Ordinal(d) + 6) % 7
  }

  const WeekdayNames: seq<string> := ["日", "月", "火", "水", "木", "金", "土"]

  /** `formatDateWithDay`: the Japanese form followed by the weekday in parentheses. */
  function FormatWithDay(d: Date): (r: string)
    requires Valid(d)
    ensures |r| == |FormatJapanese(d)| + 3 && Text.IsPrefix(FormatJapanese(d) + "(", r)
    ensures r[|r| - 2..] == WeekdayNames[Weekday(d)] + ")"
  {
    FormatJapanese(d) + "(" + WeekdayNames[Weekday(d)] + ")"
  }

  /** Each following day is the following weekday. */
  lemma WeekdayNext(d: Date)
    requires Valid(d)
    ensures Weekday(Next(d)) == (Weekday(d) + 1) % 7
  {
    NextOrdinal(d);
    ModSevenStep(Ordinal(d) + 6);
  }

  lemma ModSevenStep(n: int)
    ensures (n + 1) % 7 == (n % 7 + 1) % 7
  {
    var q, r := n / 7, n % 7;
    assert n == 7 * q + r;
    if r < 6 {
      assert n + 1 == 7 * q + (r + 1);
    } else {
      assert n + 1 == 7 * (q + 1);
    }
  }

  /** A calendar anchor: 2026-01-01 is a Thursday and 2024-02-29 a Thursday too. */
  lemma WeekdayExamples()
    ensures Weekday(Date(2026, 1, 1)) == 4
    ensures Weekday(Date(2024, 2, 29)) == 4
  {
  }
}
