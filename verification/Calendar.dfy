/** The proleptic Gregorian calendar of Go's `time` package, in UTC. */
module Calendar {
  datatype Date = Date(year: int, month: int, day: int)

  /** A civil date with the second of the day; no leap seconds. */
  datatype DateTime = DateTime(date: Date, second: int)

  const NANOS: int := 1_000_000_000
  const DAY_SECONDS: int := 86_400

  predicate IsLeap(year: int) {
    year % 4 == 0 && (year % 100 != 0 || year % 400 == 0)
  }

  function DaysIn(year: int, month: int): int {
    if month == 2 then (if IsLeap(year) then 29 else 28)
    else if month == 4 || month == 6 || month == 9 || month == 11 then 30
    else 31
  }

  predicate ValidDate(d: Date) {
    1 <= d.month <= 12 && 1 <= d.day <= DaysIn(d.year, d.month)
  }

  predicate ValidDateTime(t: DateTime) {
    ValidDate(t.date) && 0 <= t.second < DAY_SECONDS
  }

  /** Days from 0000-01-01 to the first of January of the year. */
  function YearStart(year: int): int {
    365 * year + (year + 3) / 4 - (year + 99) / 100 + (year + 399) / 400
  }

  /** Days from the first of January to the first of the month. */
  function MonthStart(year: int, month: int): int {
    var leap := if IsLeap(year) then 1 else 0;
    if month <= 1 then 0
    else if month == 2 then 31
    else if month == 3 then 59 + leap
    else if month == 4 then 90 + leap
    else if month == 5 then 120 + leap
    else if month == 6 then 151 + leap
    else if month == 7 then 181 + leap
    else if month == 8 then 212 + leap
    else if month == 9 then 243 + leap
    else if month == 10 then 273 + leap
    else if month == 11 then 304 + leap
    else 334 + leap
  }

  function DayNumber(d: Date): int {
    YearStart(d.year) + MonthStart(d.year, d.month) + d.day - 1
  }

  /** The instant of a civil time, in nanoseconds since 1970-01-01T00:00:00Z. */
  function Instant(t: DateTime): int {
    ((DayNumber(t.date) - DayNumber(Date(1970, 1, 1))) * DAY_SECONDS + t.second) * NANOS
  }

  // ---- Days are counted one by one ----

  function NextDay(d: Date): Date {
    if d.day < DaysIn(d.year, d.month) then Date(d.year, d.month, d.day + 1)
    else if d.month < 12 then Date(d.year, d.month + 1, 1)
    else Date(d.year + 1, 1, 1)
  }

  lemma YearLength(year: int)
    ensures YearStart(year + 1) == YearStart(year) + if IsLeap(year) then 366 else 365
  {
    QuotientGrows(year, 4);
    QuotientGrows(year, 100);
    QuotientGrows(year, 400);
    MultiplesNest(year);
  }

  lemma QuotientGrows(year: int, n: int)
    requires n == 4 || n == 100 || n == 400
    ensures (year + n) / n == (year + n - 1) / n + if year % n == 0 then 1 else 0
  {
    if n == 4 {
      assert (year + 4) / 4 == (year + 3) / 4 + if year % 4 == 0 then 1 else 0;
    } else if n == 100 {
      assert (year + 100) / 100 == (year + 99) / 100 + if year % 100 == 0 then 1 else 0;
    } else {
      assert (year + 400) / 400 == (year + 399) / 400 + if year % 400 == 0 then 1 else 0;
    }
  }

  lemma MultiplesNest(year: int)
    ensures (year % 400 == 0 ==> year % 100 == 0) && (year % 100 == 0 ==> year % 4 == 0)
  {
  }

  /** The day after any valid date has the next number, across the ends of months and years and around the
      29th of February. */
  lemma NextDayIsNextNumber(d: Date)
    requires ValidDate(d)
    ensures ValidDate(NextDay(d)) && DayNumber(NextDay(d)) == DayNumber(d) + 1
  {
    YearLength(d.year);
  }

  /** The next second of civil time. */
  function NextSecond(t: DateTime): DateTime {
    if t.second + 1 < 24 * 60 * 60 then DateTime(t.date, t.second + 1) else DateTime(NextDay(t.date), 0)
  }

  /** Instants count nanoseconds from the epoch: it is 0, and every second of civil time adds 10^9, also at the end of
      days, months and years. */
  lemma InstantCounts(t: DateTime)
    requires ValidDateTime(t)
    ensures Instant(DateTime(Date(1970, 1, 1), 0)) == 0
    ensures ValidDateTime(NextSecond(t)) && Instant(NextSecond(t)) == Instant(t) + 1_000_000_000
  {
    NextDayIsNextNumber(t.date);
  }

  predicate DateLess(a: Date, b: Date) {
    || a.year < b.year
    || (a.year == b.year && (a.month < b.month || (a.month == b.month && a.day < b.day)))
  }

  lemma {:induction false} YearsGrow(a: int, b: int)
    requires a <= b
    ensures YearStart(a) <= YearStart(b)
    decreases b - a
  {
    if a < b {
      YearLength(a);
      YearsGrow(a + 1, b);
    }
  }

  lemma DayInYear(d: Date)
    requires ValidDate(d)
    ensures YearStart(d.year) <= DayNumber(d) < YearStart(d.year + 1)
  {
    YearLength(d.year);
  }

  /** Day numbers are strictly monotone in the order of dates. */
  lemma DayNumberIsMonotone(a: Date, b: Date)
    requires ValidDate(a) && ValidDate(b)
    ensures DateLess(a, b) <==> DayNumber(a) < DayNumber(b)
  {
    if a.year < b.year {
      DayInYear(a);
      DayInYear(b);
      YearsGrow(a.year + 1, b.year);
    } else if b.year < a.year {
      DayInYear(a);
      DayInYear(b);
      YearsGrow(b.year + 1, a.year);
    }
  }

  // ---- A century later ----

  /** `AddDate(years, 0, 0)`: the 29th of February becomes the first of March in a common year. */
  function AddYears(d: Date, years: int): Date {
    if d.month == 2 && d.day == 29 && !IsLeap(d.year + years) then Date(d.year + years, 3, 1)
    else Date(d.year + years, d.month, d.day)
  }

  /** The first year of the century boundary a date has yet to pass: the next year divisible by 100 whose
      29th of February, if it has one, is not before the date. */
  function CenturyAhead(d: Date): int {
    var from := if d.month <= 2 then d.year else d.year + 1;
    (from + 99) / 100 * 100
  }

  /** Writing the year as 400 q + 100 t + u - 399 tells all three quotients of `YearStart` apart. */
  lemma CenturyLengthBy(year: int, q: int, t: int, u: int)
    requires year == 400 * q + 100 * t + u - 399 && 0 <= t < 4 && 0 <= u < 100
    ensures (year + 99) / 100 == 4 * q + t - 3
    ensures YearStart(year + 100) == YearStart(year) + if t == 3 then 36525 else 36524
  {
    assert (year + 199) / 100 == 4 * q + t - 2;
    assert (year + 399) / 400 == q;
    assert (year + 499) / 400 == q + if t == 3 then 1 else 0;
    assert (year + 103) / 4 == (year + 3) / 4 + 25;
  }

  lemma CenturyLength(year: int)
    ensures YearStart(year + 100) == YearStart(year) + if (year + 99) / 100 * 100 % 400 == 0 then 36525 else 36524
  {
    var q, r := (year + 399) / 400, (year + 399) % 400;
    CenturyLengthBy(year, q, r / 100, r % 100);
    CenturyYear(q, r / 100);
  }

  lemma CenturyYear(q: int, t: int)
    requires 0 <= t < 4
    ensures (4 * q + t - 3) * 100 % 400 == 0 <==> t == 3
  {
    assert (4 * q + t - 3) * 100 == 400 * q + 100 * (t - 3);
    assert t < 3 ==> 400 * q + 100 * (t - 3) == 400 * (q - 1) + (100 + 100 * t);
  }

  /** From March on, a date is the same number of days before the next year in every year. */
  function DaysToNextYear(month: int, day: int): int
    requires 3 <= month <= 12
  {
    366 - MonthStart(2000, month) - day + 1
  }

  lemma CountedFromTheEnd(year: int, month: int, day: int)
    requires 3 <= month <= 12
    ensures DayNumber(Date(year, month, day)) == YearStart(year + 1) - DaysToNextYear(month, day)
  {
    YearLength(year);
  }

  lemma LeapDayIn(year: int)
    requires IsLeap(year) && !IsLeap(year + 100)
    ensures year % 400 == 0 && (year + 99) / 100 * 100 == year && (year + 100) / 100 * 100 % 400 != 0
  {
    CenturyKeepsRemainders(year);
    LeapCentury(year / 400);
  }

  lemma LeapCentury(q: int)
    ensures (400 * q + 99) / 100 * 100 == 400 * q && (400 * q + 100) / 100 * 100 % 400 == 100
  {
    assert (400 * q + 99) / 100 == 4 * q && (400 * q + 100) / 100 == 4 * q + 1;
    assert (4 * q + 1) * 100 == 400 * q + 100;
  }

  lemma CenturyKeepsRemainders(year: int)
    ensures (year + 100) % 4 == year % 4 && (year + 100) % 100 == year % 100
  {
  }

  /** From March on, only the length of the years in between counts. */
  lemma HundredYearsFromMarch(year: int, month: int, day: int)
    requires 3 <= month <= 12
    ensures DayNumber(Date(year + 100, month, day)) - DayNumber(Date(year, month, day)) ==
            if CenturyAhead(Date(year, month, day)) % 400 == 0 then 36525 else 36524
  {
    CountedFromTheEnd(year, month, day);
    CountedFromTheEnd(year + 100, month, day);
    CenturyLength(year + 1);
  }

  lemma HundredYearsFromLeapDay(year: int)
    requires IsLeap(year) && !IsLeap(year + 100)
    ensures DayNumber(Date(year + 100, 3, 1)) - DayNumber(Date(year, 2, 29)) ==
            if CenturyAhead(Date(year, 2, 29)) % 400 == 0 then 36525 else 36524
  {
    LeapDayIn(year);
    HundredYearsFromMarch(year, 3, 1);
  }

  /** Adding a hundred years lands on a valid date, later by 36524 or 36525 days; it is the longer span
      exactly if the century year in between is a leap year. */
  lemma HundredYears(d: Date)
    requires ValidDate(d)
    ensures ValidDate(AddYears(d, 100))
    ensures DayNumber(AddYears(d, 100)) - DayNumber(d) == if CenturyAhead(d) % 400 == 0 then 36525 else 36524
  {
    if d.month >= 3 {
      HundredYearsFromMarch(d.year, d.month, d.day);
    } else if AddYears(d, 100).month == 3 {
      HundredYearsFromLeapDay(d.year);
    } else {
      CenturyLength(d.year);
    }
  }
}
