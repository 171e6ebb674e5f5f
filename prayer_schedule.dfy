/**
 * The weekly prayer table: seven day cards starting at the fixed anchor date
 * 2026-01-16, each listing the five prayers at their adjusted times, in 24-hour
 * "HH:MM" or 12-hour "h:MM ص/م" form.
 */
module PrayerSchedule {
  import opened Text
  import opened WallClock
  import opened Prayer

  // ------------------------------------------------------- getAdjustedTime

  /**
   * The instant `new Date()` (read at `clock`) holds after
   * `setHours(h, m + offset, 0)`: the milliseconds field is not reset.
   */
  function AdjustedInstant(clock: int, base: TimeOfDay, offset: int): int {
    SetHoursResult(clock, base.hour, base.minute + offset, 0, MillisOf(clock))
  }

  /** The morning/evening marker: 'م' from noon on, 'ص' before. */
  function Period(hour: int): string {
    if hour >= 12 then "م" else "ص"
  }

  /** `parseInt(resH) % 12`, with 0 shown as 12. */
  function Hour12(hour: nat): (h: nat)
    ensures 1 <= h <= 12
    ensures h % 12 == hour % 12
  {
    if hour % 12 == 0 then 12 else hour % 12
  }

  /** The text `getAdjustedTime` builds from the hour and minute it reads back. */
  function ClockText(use12HourFormat: bool, hour: nat, minute: nat): string {
    var resH := Pad2(hour);
    var resM := Pad2(minute);
    if !use12HourFormat then resH + ":" + resM
    else
      var h := DecimalValue(resH);
      NatToString(Hour12(h)) + ":" + resM + " " + Period(h)
  }

  /** `getAdjustedTime(base, offset)` for a user with or without the 12-hour preference. */
  function GetAdjustedTime(use12HourFormat: bool, clock: int, base: TimeOfDay, offset: int): string {
    var date := AdjustedInstant(clock, base, offset);
    ClockText(use12HourFormat, HoursOf(date), MinutesOf(date))
  }

  /** The wall-clock hour and minute a base time lands on after adding `offset` minutes, wrapping around midnight. */
  function WrappedHour(base: TimeOfDay, offset: int): (h: int)
    ensures 0 <= h < 24
  {
    (base.hour * 60 + base.minute + offset) % 1440 / 60
  }

  function WrappedMinute(base: TimeOfDay, offset: int): (m: int)
    ensures 0 <= m < 60
  {
    (base.hour * 60 + base.minute + offset) % 1440 % 60
  }

  /**
   * The adjusted instant reads back as the base time plus the offset in
   * minutes, taken modulo a day: an offset that crosses midnight wraps the
   * hour instead of changing the day shown.
   */
  lemma AdjustedFields(clock: int, base: TimeOfDay, offset: int)
    ensures HoursOf(AdjustedInstant(clock, base, offset)) == WrappedHour(base, offset)
    ensures MinutesOf(AdjustedInstant(clock, base, offset)) == WrappedMinute(base, offset)
  {
    MinutesPastMidnightPlusMillis(DayOf(clock), base.hour * 60 + base.minute + offset, MillisOf(clock));
  }

  /**
   * In 24-hour form the text is five characters, two digits, a colon and two
   * digits, which read back as the wrapped hour and minute.
   */
  lemma Format24(clock: int, base: TimeOfDay, offset: int)
    ensures var r := GetAdjustedTime(false, clock, base, offset);
      && |r| == 5 && r[2] == ':'
      && AllDigits(r[..2]) && DecimalValue(r[..2]) == WrappedHour(base, offset)
      && AllDigits(r[3..]) && DecimalValue(r[3..]) == WrappedMinute(base, offset)
  {
    AdjustedFields(clock, base, offset);
    var r := GetAdjustedTime(false, clock, base, offset);
    var h, m := Pad2(WrappedHour(base, offset)), Pad2(WrappedMinute(base, offset));
    Pad2Value(WrappedHour(base, offset));
    Pad2Value(WrappedMinute(base, offset));
    assert r == h + ":" + m;
    assert r[..2] == h && r[3..] == m;
  }

  /**
   * In 12-hour form the text is an hour in [1, 12] without padding, the
   * padded minute and the marker; the hour modulo 12 and the marker give the
   * 24-hour hour back.
   */
  lemma Format12(clock: int, base: TimeOfDay, offset: int)
    ensures var hour := WrappedHour(base, offset);
      && GetAdjustedTime(true, clock, base, offset)
         == NatToString(Hour12(hour)) + ":" + Pad2(WrappedMinute(base, offset)) + " " + Period(hour)
      && 1 <= Hour12(hour) <= 12
      && Hour12(hour) % 12 + (if Period(hour) == "م" then 12 else 0) == hour
  {
    var hour := WrappedHour(base, offset);
    AdjustedText(true, clock, base, offset);
    ClockText12(hour, WrappedMinute(base, offset));
    Hour12RoundTrip(hour);
  }

  /** The 12-hour text reads the hour back from its padded form, so it is built from the hour itself. */
  lemma ClockText12(hour: nat, minute: nat)
    ensures ClockText(true, hour, minute) == NatToString(Hour12(hour)) + ":" + Pad2(minute) + " " + Period(hour)
  {
    Pad2Value(hour);
  }

  /** The 12-hour hour and the marker determine the 24-hour hour. */
  lemma {:induction false} Hour12RoundTrip(hour: nat)
    requires hour < 24
    ensures Hour12(hour) % 12 + (if Period(hour) == "م" then 12 else 0) == hour
  {
    if hour >= 12 {
      assert Period(hour) == "م";
      assert hour % 12 == hour - 12;
    } else {
      assert Period(hour) == "ص" != "م";
    }
  }

  /** The text never depends on the day or time the clock shows, only on the base time and offset. */
  lemma ClockDoesNotMatter(use12HourFormat: bool, clock1: int, clock2: int, base: TimeOfDay, offset: int)
    ensures GetAdjustedTime(use12HourFormat, clock1, base, offset) == GetAdjustedTime(use12HourFormat, clock2, base, offset)
  {
    AdjustedFields(clock1, base, offset);
    AdjustedFields(clock2, base, offset);
  }

  /** The text depends on the clock only through the wrapped hour and minute. */
  lemma AdjustedText(use12HourFormat: bool, clock: int, base: TimeOfDay, offset: int)
    ensures GetAdjustedTime(use12HourFormat, clock, base, offset)
      == ClockText(use12HourFormat, WrappedHour(base, offset), WrappedMinute(base, offset))
  {
    AdjustedFields(clock, base, offset);
  }

  // The examples below fix the text for the wrapped hour and minute; by
  // `AdjustedText` it is the text shown whatever the clock reads.

  /** Fajr 05:12 moved 75 minutes earlier shows 03:57. */
  lemma FajrEarlierExample()
    ensures ClockText(false, WrappedHour(BaseTime(Fajr), -75), WrappedMinute(BaseTime(Fajr), -75)) == "03:57"
  {
    assert WrappedHour(BaseTime(Fajr), -75) == 3 && WrappedMinute(BaseTime(Fajr), -75) == 57;
    Pad2Digits(3);
    Pad2Digits(57);
  }

  /** Five minutes past midnight shows as 12:05 in the morning in 12-hour form. */
  lemma MidnightIsTwelveExample()
    ensures ClockText(true, WrappedHour(TimeOfDay(0, 5), 0), WrappedMinute(TimeOfDay(0, 5), 0)) == "12:05 ص"
  {
    assert WrappedHour(TimeOfDay(0, 5), 0) == 0 && WrappedMinute(TimeOfDay(0, 5), 0) == 5;
    ClockText12(0, 5);
    Pad2Digits(5);
    assert NatToString(12) == NatToString(1) + [DigitChar(2)];
  }

  /** Isha 18:22 with ten minutes added shows 18:32. */
  lemma IshaLaterExample()
    ensures ClockText(false, WrappedHour(BaseTime(Isha), 10), WrappedMinute(BaseTime(Isha), 10)) == "18:32"
  {
    assert WrappedHour(BaseTime(Isha), 10) == 18 && WrappedMinute(BaseTime(Isha), 10) == 32;
    Pad2Digits(18);
    Pad2Digits(32);
  }

  /** The same time in 12-hour form is 6:32 in the evening. */
  lemma IshaLaterEveningExample()
    ensures ClockText(true, WrappedHour(BaseTime(Isha), 10), WrappedMinute(BaseTime(Isha), 10)) == "6:32 م"
  {
    assert WrappedHour(BaseTime(Isha), 10) == 18 && WrappedMinute(BaseTime(Isha), 10) == 32;
    Pad2Digits(32);
    ClockText12(18, 32);
  }

  // --------------------------------------------------------------- the week

  /** The short label of a prayer column. */
  function ShortName(k: PrayerKey): string {
    match k
    case Fajr => "فجر"
    case Dhuhr => "ظهر"
    case Asr => "عصر"
    case Maghrib => "مغرب"
    case Isha => "عشاء"
  }

  /** One prayer cell of a day card. */
  datatype Cell = Cell(heading: string, time: string)

  /** One day card: its day number, whether it is marked as today, and its five cells. */
  datatype DayCard = DayCard(day: int, isToday: bool, cells: seq<Cell>)

  /** `new Date("2026-01-16")`, the first day of the table. */
  const AnchorDay: int := DayNumber(2026, 0, 16)

  /** The five cells of a card, in the order of the base table. */
  function Cells(use12HourFormat: bool, clock: int, offsets: PrayerOffsets): (cells: seq<Cell>)
    ensures |cells| == |Order|
    ensures forall i :: 0 <= i < |cells| ==> cells[i].heading == ShortName(Order[i])
  {
    seq(|Order|, i requires 0 <= i < |Order| =>
      Cell(ShortName(Order[i]), GetAdjustedTime(use12HourFormat, clock, BaseTime(Order[i]), offsets.Get(Order[i]))))
  }

  /**
   * The seven cards of `days.map`: consecutive days from 2026-01-16, only the
   * first marked as today whatever day the clock shows, and every card
   * listing the same five times, because the day is never passed to the time
   * formatting.
   */
  function Week(use12HourFormat: bool, clock: int, offsets: PrayerOffsets): (w: seq<DayCard>)
    ensures |w| == 7
    ensures w[0].day == AnchorDay
    ensures forall i :: 0 <= i < 6 ==> w[i + 1].day == w[i].day + 1
    ensures forall i :: 0 <= i < 7 ==> (w[i].isToday <==> i == 0)
    ensures forall i, j :: 0 <= i < 7 && 0 <= j < 7 ==> w[i].cells == w[j].cells
    ensures forall i :: 0 <= i < 7 ==> |w[i].cells| == |Order|
    ensures forall i, k :: 0 <= i < 7 && 0 <= k < |Order| ==>
      w[i].cells[k].time == GetAdjustedTime(use12HourFormat, clock, BaseTime(Order[k]), offsets.Get(Order[k]))
  {
    var cells := Cells(use12HourFormat, clock, offsets);
    seq(7, idx requires 0 <= idx < 7 => DayCard(AnchorDay + idx, idx == 0, cells))
  }
}
