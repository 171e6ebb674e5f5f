/**
 * The part of JavaScript's `Date` that the screens use: instants are
 * milliseconds since 1970-01-01T00:00, read on a wall clock with no time-zone
 * offset, and the setters normalise overflowing fields by plain arithmetic
 * (minute 65 is one hour and five minutes, day 0 is the last day of the
 * previous month). Gregorian day numbers count days from 1970-01-01.
 */
module WallClock {

  const SecondMs: int := 1000
  const MinuteMs: int := 60000
  const HourMs: int := 3600000
  const DayMs: int := 86400000

  /** The day an instant falls on (floored, so instants before 1970 work too). */
  function DayOf(t: int): int {
    t / 86400000
  }

  /** Milliseconds since midnight. */
  function TimeInDay(t: int): (r: int)
    ensures 0 <= r < DayMs
  {
    t % 86400000
  }

  /** `getHours()`. */
  function HoursOf(t: int): (h: int)
    ensures 0 <= h < 24
  {
    TimeInDay(t) / 3600000
  }

  /** `getMinutes()`. */
  function MinutesOf(t: int): (m: int)
    ensures 0 <= m < 60
  {
    TimeInDay(t) % 3600000 / 60000
  }

  /** `getMilliseconds()`. */
  function MillisOf(t: int): (ms: int)
    ensures 0 <= ms < 1000
  {
    t % 1000
  }

  /** The instant `date.setHours(h, m, s, ms)` leaves: the same day, at `h*3600000 + m*60000 + s*1000 + ms`
      after midnight, any field allowed to overflow into the next. */
  function SetHoursResult(t: int, h: int, m: int, s: int, ms: int): int {
    DayOf(t) * 86400000 + h * 3600000 + m * 60000 + s * 1000 + ms
  }

  /** Floored division by a day's milliseconds has exactly one quotient and remainder. */
  lemma DivModDay(x: int, q: int, r: int)
    requires 0 <= r < 86400000 && x == q * 86400000 + r
    ensures x / 86400000 == q && x % 86400000 == r
  {
  }

  /** Floored division by an hour's milliseconds has exactly one quotient and remainder. */
  lemma DivModHour(x: int, q: int, r: int)
    requires 0 <= r < 3600000 && x == q * 3600000 + r
    ensures x / 3600000 == q && x % 3600000 == r
  {
  }

  /** Floored division by a minute's milliseconds has exactly one quotient and remainder. */
  lemma DivModMinute(x: int, q: int, r: int)
    requires 0 <= r < 60000 && x == q * 60000 + r
    ensures x / 60000 == q && x % 60000 == r
  {
  }

  /** Floored division by a second's milliseconds has exactly one quotient and remainder. */
  lemma DivModSecond(x: int, q: int, r: int)
    requires 0 <= r < 1000 && x == q * 1000 + r
    ensures x / 1000 == q && x % 1000 == r
  {
  }

  /**
   * An instant built as midnight of `day` plus `total` minutes: its day,
   * hour and minute are `total` split by floored division, with seconds and
   * milliseconds zero.
   */
  lemma {:induction false} MinutesPastMidnight(day: int, total: int)
    ensures var t := day * 86400000 + total * 60000;
      && DayOf(t) == day + total / 1440
      && HoursOf(t) == total % 1440 / 60
      && MinutesOf(t) == total % 1440 % 60
      && t % 60000 == 0
  {
    var t := day * 86400000 + total * 60000;
    var q, r := total / 1440, total % 1440;
    assert t == (day + q) * 86400000 + r * 60000;
    DivModDay(t, day + q, r * 60000);
    assert TimeInDay(t) == r * 60000;
    assert r * 60000 / 3600000 == r / 60;
    assert r * 60000 % 3600000 == (r % 60) * 60000;
    assert t == ((day + q) * 1440 + r) * 60000;
  }

  /**
   * The same with `ms` milliseconds (less than a second) added: the day, hour
   * and minute do not change, and the milliseconds field is `ms`.
   */
  lemma {:induction false} MinutesPastMidnightPlusMillis(day: int, total: int, ms: int)
    requires 0 <= ms < 1000
    ensures var t := day * 86400000 + total * 60000 + ms;
      && DayOf(t) == day + total / 1440
      && HoursOf(t) == total % 1440 / 60
      && MinutesOf(t) == total % 1440 % 60
      && MillisOf(t) == ms
  {
    var t := day * 86400000 + total * 60000 + ms;
    var q, r := total / 1440, total % 1440;
    var hh, mm := r / 60, r % 60;
    assert t == (day + q) * 86400000 + (r * 60000 + ms);
    DivModDay(t, day + q, r * 60000 + ms);
    assert r * 60000 + ms == hh * 3600000 + (mm * 60000 + ms);
    DivModHour(r * 60000 + ms, hh, mm * 60000 + ms);
    DivModMinute(mm * 60000 + ms, mm, ms);
    assert t == ((day + q) * 86400 + r * 60) * 1000 + ms;
    DivModSecond(t, (day + q) * 86400 + r * 60, ms);
  }

  /** Shifting an instant by whole days keeps its time of day and moves its day. */
  lemma {:induction false} ShiftByDays(t: int, k: int)
    ensures DayOf(t + k * 86400000) == DayOf(t) + k
    ensures TimeInDay(t + k * 86400000) == TimeInDay(t)
  {
    DivModDay(t + k * 86400000, DayOf(t) + k, TimeInDay(t));
  }

  /** A mutable JavaScript `Date`. */
  class JsDate {
    var time: int

    /** `new Date()` read from a clock showing `now`. */
    constructor (now: int)
      ensures time == now
    {
      time := now;
    }

    /** `date.setDate(date.getDate() + days)`: the same time of day, `days` days later. */
    method AddDays(days: int)
      modifies this
      ensures time == old(time) + days * 86400000
      ensures DayOf(time) == DayOf(old(time)) + days && TimeInDay(time) == TimeInDay(old(time))
    {
      ShiftByDays(time, days);
      time := time + days * 86400000;
    }

    /** `date.setHours(h, m, s, ms)`. */
    method SetHours(h: int, m: int, s: int, ms: int)
      modifies this
      ensures time == SetHoursResult(old(time), h, m, s, ms)
    {
      time := DayOf(time) * 86400000 + h * 3600000 + m * 60000 + s * 1000 + ms;
    }
  }

  // ------------------------------------------------------ Gregorian calendar

  predicate IsLeapYear(y: int) {
    y % 4 == 0 && (y % 100 != 0 || y % 400 == 0)
  }

  function YearLength(y: int): int {
    if IsLeapYear(y) then 366 else 365
  }

  /** The length of month `m` (0 = January) of year `y`. */
  function DaysInMonth(y: int, m: int): (n: int)
    requires 0 <= m < 12
    ensures 28 <= n <= 31
    ensures m == 1 ==> (n == 29 <==> IsLeapYear(y))
  {
    if m == 1 then (if IsLeapYear(y) then 29 else 28)
    else if m == 3 || m == 5 || m == 8 || m == 10 then 30
    else 31
  }

  /** Days in the months of year `y` before month `m`. */
  function DaysBeforeMonth(y: int, m: int): int
    requires 0 <= m <= 12
  {
    [0, 31, 59, 90, 120, 151, 181, 212, 243, 273, 304, 334, 365][m]
      + (if IsLeapYear(y) && m >= 2 then 1 else 0)
  }

  /** The day number of January 1st of year `y`. */
  function DaysBeforeYear(y: int): int
    decreases if y >= 1970 then y - 1970 else 1970 - y
  {
    if y == 1970 then 0
    else if y > 1970 then DaysBeforeYear(y - 1) + YearLength(y - 1)
    else DaysBeforeYear(y + 1) - YearLength(y)
  }

  /** The day `new Date(y, m, d)` falls on: the month may overflow into the
      years and the day into the months, as JavaScript's MakeDay allows. */
  function DayNumber(y: int, m: int, d: int): int {
    var ym := y + m / 12;
    DaysBeforeYear(ym) + DaysBeforeMonth(ym, m % 12) + d - 1
  }

  /** Within a month, day `d` is `d - 1` days after the first. */
  lemma DayNumberOffset(y: int, m: int, d: int)
    ensures DayNumber(y, m, d) == DayNumber(y, m, 1) + d - 1
  {
  }

  /** `getDay()` of a day number: 0 is Sunday, and 1970-01-01 was a Thursday. */
  function Weekday(day: int): (w: int)
    ensures 0 <= w < 7
  {
    (day + 4) % 7
  }

  /** Each month starts where the previous one ended, across year ends too. */
  lemma MonthsAreContiguous(y: int, m: int)
    requires 0 <= m < 12
    ensures DayNumber(y, m + 1, 1) == DayNumber(y, m, 1) + DaysInMonth(y, m)
  {
    assert m / 12 == 0 && m % 12 == m;
    if m == 11 {
      assert (m + 1) / 12 == 1 && (m + 1) % 12 == 0;
      YearsAreContiguous(y);
    } else {
      assert (m + 1) / 12 == 0 && (m + 1) % 12 == m + 1;
      MonthTable(y, m);
    }
  }

  /** Each year starts where the previous one ended, on either side of 1970. */
  lemma YearsAreContiguous(y: int)
    ensures DaysBeforeYear(y + 1) == DaysBeforeYear(y) + YearLength(y)
  {
  }

  /** Within a year, month `m + 1` starts `DaysInMonth(y, m)` days after month `m`. */
  lemma MonthTable(y: int, m: int)
    requires 0 <= m < 11
    ensures DaysBeforeMonth(y, m + 1) == DaysBeforeMonth(y, m) + DaysInMonth(y, m)
  {
  }

  /**
   * `new Date(y, m + 1, 0)`, the day before the first of the next month, is
   * day `DaysInMonth(y, m)` of month `m`; so the calendar's `getDate()` of it
   * is the month length.
   */
  lemma LastDayOfMonth(y: int, m: int)
    requires 0 <= m < 12
    ensures DayNumber(y, m + 1, 0) == DayNumber(y, m, DaysInMonth(y, m))
  {
    MonthsAreContiguous(y, m);
  }
}
