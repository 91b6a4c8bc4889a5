/**
 Local calendar instants and the part of the JavaScript `Date` constructor
 that the expense listing uses to build its date windows.

 An instant is kept as local calendar components, which is what
 `new Date(year, monthIndex, day)` works in; time zones and the epoch
 representation are not modelled.
 */
module Calendar {

  /** A local date-time: calendar year, month 1..12, day of month, and
      milliseconds since local midnight. */
  datatype Instant = Instant(year: int, month: int, day: int, millis: int)

  const MillisPerDay: int := 86400000

  /** Gregorian leap years (proleptic, as `Date` uses). */
  predicate IsLeapYear(y: int)
  {
    y % 4 == 0 && (y % 100 != 0 || y % 400 == 0)
  }

  function DaysInMonth(y: int, m: int): (n: int)
    requires 1 <= m <= 12
    ensures 28 <= n <= 31
    ensures n == 31 <==> m in {1, 3, 5, 7, 8, 10, 12}
    ensures m == 2 ==> (n == 29 <==> IsLeapYear(y))
    ensures m == 2 && !IsLeapYear(y) ==> n == 28
    ensures m in {4, 6, 9, 11} ==> n == 30
  {
    if m == 2 then (if IsLeapYear(y) then 29 else 28)
    else if m in {4, 6, 9, 11} then 30
    else 31
  }

  /** An instant that names a real local date and time of day. */
  predicate Valid(t: Instant)
  {
    && 1 <= t.month <= 12
    && 1 <= t.day <= DaysInMonth(t.year, t.month)
    && 0 <= t.millis < MillisPerDay
  }

  /** `a` is not later than `b`: the order of `gte`/`lte` comparisons on
      `createdAt`. */
  predicate NotAfter(a: Instant, b: Instant)
  {
    || a.year < b.year
    || (a.year == b.year && a.month < b.month)
    || (a.year == b.year && a.month == b.month && a.day < b.day)
    || (a.year == b.year && a.month == b.month && a.day == b.day && a.millis <= b.millis)
  }

  /** Any two instants are comparable. */
  lemma NotAfterTotal(a: Instant, b: Instant)
    ensures NotAfter(a, b) || NotAfter(b, a)
  {
  }

  /** Two-digit years passed to the `Date` constructor mean 1900..1999. */
  function ConstructorYear(y: int): (r: int)
    ensures 0 <= y <= 99 ==> r == 1900 + y
    ensures (y < 0 || y > 99) ==> r == y
  {
    if 0 <= y <= 99 then 1900 + y else y
  }

  /** The calendar month after month `m` of year `y`. */
  function NextMonth(y: int, m: int): (r: (int, int))
    requires 1 <= m <= 12
    ensures 1 <= r.1 <= 12
    ensures m < 12 ==> r == (y, m + 1)
    ensures m == 12 ==> r == (y + 1, 1)
  {
    if m == 12 then (y + 1, 1) else (y, m + 1)
  }

  /** The calendar month before month `m` of year `y`. */
  function PreviousMonth(y: int, m: int): (r: (int, int))
    requires 1 <= m <= 12
    ensures 1 <= r.1 <= 12
    ensures NextMonth(r.0, r.1) == (y, m)
  {
    if m == 1 then (y - 1, 12) else (y, m - 1)
  }

  /** `new Date(y, monthIndex, day)` at local midnight. A month index outside
      0..11 rolls over into neighbouring years; day 0 is the last day of the
      previous month and a day past the month's end runs into the next one
      (`new Date(2025, 1, 31)` is March 3). Only days 0..31 occur in the
      modelled code. */
  function MakeDate(y: int, monthIndex: int, day: int): (t: Instant)
    requires 0 <= day <= 31
    ensures Valid(t) && t.millis == 0
    ensures var year, month := ConstructorYear(y) + monthIndex / 12, monthIndex % 12 + 1;
      1 <= day <= DaysInMonth(year, month) ==> t.year == year && t.month == month && t.day == day
    ensures var year, month := ConstructorYear(y) + monthIndex / 12, monthIndex % 12 + 1;
      day == 0 ==> NextMonth(t.year, t.month) == (year, month) && t.day == DaysInMonth(t.year, t.month)
    ensures var year, month := ConstructorYear(y) + monthIndex / 12, monthIndex % 12 + 1;
      day > DaysInMonth(year, month) ==> (t.year, t.month) == NextMonth(year, month) && t.day == day - DaysInMonth(year, month)
  {
    var year := ConstructorYear(y) + monthIndex / 12;
    var month := monthIndex % 12 + 1;
    if day == 0 then
      var prev := PreviousMonth(year, month);
      Instant(prev.0, prev.1, DaysInMonth(prev.0, prev.1), 0)
    else if day <= DaysInMonth(year, month) then
      Instant(year, month, day, 0)
    else
      var next := NextMonth(year, month);
      Instant(next.0, next.1, day - DaysInMonth(year, month), 0)
  }

  /** For a month number 1..12, `new Date(y, m - 1, 1)` is the first of that
      month and `new Date(y, m, 0)` is its last day, both at midnight. */
  lemma MonthBounds(y: int, m: int)
    requires 1 <= m <= 12
    ensures MakeDate(y, m - 1, 1) == Instant(ConstructorYear(y), m, 1, 0)
    ensures MakeDate(y, m, 0) == Instant(ConstructorYear(y), m, DaysInMonth(ConstructorYear(y), m), 0)
  {
  }

  /** `new Date(y, 0, 1)` is January 1 and `new Date(y, 11, 31)` is
      December 31, both at midnight. */
  lemma YearBounds(y: int)
    ensures MakeDate(y, 0, 1) == Instant(ConstructorYear(y), 1, 1, 0)
    ensures MakeDate(y, 11, 31) == Instant(ConstructorYear(y), 12, 31, 0)
  {
    assert 0 / 12 == 0 && 0 % 12 == 0;
    assert 11 / 12 == 0 && 11 % 12 == 11;
  }
}
