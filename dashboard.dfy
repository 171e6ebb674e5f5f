/**
 * The dashboard's prayer card: today's five adjusted prayer instants, the
 * next prayer after the current time (tomorrow's fajr once isha has passed),
 * and the "HH:MM:SS" countdown to it.
 *
 * `now` is the dashboard's `currentTime`, which a one-second interval
 * replaces; `clock` is what the `new Date()` inside `getAdjustedDate` reads.
 */
module Dashboard {
  import opened Wrappers
  import opened Text
  import opened WallClock
  import opened Prayer

  /** One entry of `prayerItems` (the icon is left out). */
  datatype PrayerItem = PrayerItem(key: PrayerKey, name: string, base: TimeOfDay)

  function ArabicName(k: PrayerKey): string {
    match k
    case Fajr => "الفجر"
    case Dhuhr => "الظهر"
    case Asr => "العصر"
    case Maghrib => "المغرب"
    case Isha => "العشاء"
  }

  /** `prayerItems`, in the order the card lists them and the search walks them. */
  const PrayerItems: seq<PrayerItem> := [
    PrayerItem(Fajr, "الفجر", BaseTime(Fajr)),
    PrayerItem(Dhuhr, "الظهر", BaseTime(Dhuhr)),
    PrayerItem(Asr, "العصر", BaseTime(Asr)),
    PrayerItem(Maghrib, "المغرب", BaseTime(Maghrib)),
    PrayerItem(Isha, "العشاء", BaseTime(Isha))
  ]

  // ------------------------------------------------------- getAdjustedDate

  /**
   * The instant `getAdjustedDate(base, offset, daysOffset)` returns when its
   * `new Date()` reads `clock`: `setDate(getDate() + daysOffset)` and then
   * `setHours(h, m + offset, 0, 0)`.
   */
  function AdjustedDate(clock: int, base: TimeOfDay, offset: int, daysOffset: int): int {
    SetHoursResult(clock + daysOffset * 86400000, base.hour, base.minute + offset, 0, 0)
  }

  /**
   * The adjusted instant is midnight of the clock's day shifted by
   * `daysOffset`, plus `h*60 + m + offset` minutes; minutes that overflow or
   * underflow roll into hours and days, and seconds and milliseconds are zero.
   */
  lemma {:induction false} AdjustedDateIsMidnightPlusMinutes(clock: int, base: TimeOfDay, offset: int, daysOffset: int)
    ensures var t := AdjustedDate(clock, base, offset, daysOffset);
      var total := base.hour * 60 + base.minute + offset;
      && t == (DayOf(clock) + daysOffset) * 86400000 + total * 60000
      && DayOf(t) == DayOf(clock) + daysOffset + total / 1440
      && HoursOf(t) == total % 1440 / 60
      && MinutesOf(t) == total % 1440 % 60
      && t % 60000 == 0
  {
    ShiftByDays(clock, daysOffset);
    MinutesPastMidnight(DayOf(clock) + daysOffset, base.hour * 60 + base.minute + offset);
  }

  /** `getAdjustedDate`, step by step on a fresh `Date`. */
  method GetAdjustedDate(clock: int, base: TimeOfDay, offset: int, daysOffset: int) returns (date: JsDate)
    ensures fresh(date)
    ensures date.time == AdjustedDate(clock, base, offset, daysOffset)
  {
    date := new JsDate(clock);
    date.AddDays(daysOffset);
    date.SetHours(base.hour, base.minute + offset, 0, 0);
  }

  // ------------------------------------------------------------- schedule

  /** A prayer with its adjusted instant. */
  datatype Slot = Slot(item: PrayerItem, time: int)

  /** Today's adjusted instant of prayer `k`. */
  function TodayAt(clock: int, offsets: PrayerOffsets, k: PrayerKey): int {
    AdjustedDate(clock, BaseTime(k), offsets.Get(k), 0)
  }

  /** `schedule`: every item of `prayerItems` with today's adjusted instant, in the fixed order. */
  function Schedule(clock: int, offsets: PrayerOffsets): (s: seq<Slot>)
    ensures |s| == |Order| == 5
    ensures forall i :: 0 <= i < |s| ==>
      && s[i].item.key == Order[i]
      && s[i].item.name == ArabicName(Order[i])
      && s[i].time == TodayAt(clock, offsets, Order[i])
  {
    seq(|PrayerItems|, i requires 0 <= i < |PrayerItems| =>
      Slot(PrayerItems[i], AdjustedDate(clock, PrayerItems[i].base, offsets.Get(PrayerItems[i].key), 0)))
  }

  /** `schedule.find(p => p.time > now)`, searching from index `from`: the first slot strictly after `now`. */
  function FindAfter(s: seq<Slot>, now: int, from: nat): (r: Option<nat>)
    requires from <= |s|
    decreases |s| - from
    ensures r.Some? ==> from <= r.value < |s| && s[r.value].time > now
    ensures r.Some? ==> forall j :: from <= j < r.value ==> s[j].time <= now
    ensures r.None? ==> forall j :: from <= j < |s| ==> s[j].time <= now
  {
    if from == |s| then None
    else if s[from].time > now then Some(from)
    else FindAfter(s, now, from + 1)
  }

  /** A row of the card is greyed out as passed when the current time is strictly after it. */
  predicate IsPassed(now: int, time: int) {
    now > time
  }

  // ------------------------------------------------------------ countdown

  /** JavaScript's `a % b` for a positive `b`: the remainder has the sign of `a`. */
  function JsRem(a: int, b: int): (r: int)
    requires b > 0
    ensures a >= 0 ==> r == a % b
    ensures -b < r < b
  {
    if a >= 0 then a % b else -((-a) % b)
  }

  /** Whole hours, then whole minutes of the rest, then whole seconds of what is left, recompose the whole seconds. */
  lemma {:induction false} WholeSecondsSplit(diff: int)
    requires diff >= 0
    ensures diff % 3600000 % 60000 == diff % 60000
    ensures diff / 3600000 * 3600 + diff % 3600000 / 60000 * 60 + diff % 60000 / 1000 == diff / 1000
  {
    var h, rest := diff / 3600000, diff % 3600000;
    var m, sub := rest / 60000, rest % 60000;
    var sec, ms := sub / 1000, sub % 1000;
    assert diff == (h * 60 + m) * 60000 + sub;
    DivModMinute(diff, h * 60 + m, sub);
    assert diff == ((h * 60 + m) * 60 + sec) * 1000 + ms;
    DivModSecond(diff, (h * 60 + m) * 60 + sec, ms);
  }

  datatype Countdown = Countdown(hours: int, mins: int, secs: int)

  /**
   * `Math.floor(diff / 3600000)`, `Math.floor((diff % 3600000) / 60000)` and
   * `Math.floor((diff % 60000) / 1000)`. For a non-negative difference the
   * minutes and seconds are in [0, 59] and the three fields recompose the
   * whole seconds of the difference.
   */
  function SplitCountdown(diff: int): (c: Countdown)
    ensures diff >= 0 ==>
      && 0 <= c.hours && 0 <= c.mins < 60 && 0 <= c.secs < 60
      && c.hours * 3600 + c.mins * 60 + c.secs == diff / 1000
  {
    if diff >= 0 then
      WholeSecondsSplit(diff);
      Countdown(diff / 3600000, JsRem(diff, 3600000) / 60000, JsRem(diff, 60000) / 1000)
    else
      Countdown(diff / 3600000, JsRem(diff, 3600000) / 60000, JsRem(diff, 60000) / 1000)
  }

  /** `n.toString().padStart(2, '0')` for any integer. */
  function PadField(n: int): string {
    PadStart(IntToString(n), 2, '0')
  }

  /** The `HH:MM:SS` text of the banner. */
  function CountdownText(c: Countdown): string {
    PadField(c.hours) + ":" + PadField(c.mins) + ":" + PadField(c.secs)
  }

  /** Reads a countdown text back: the last two fields are two digits each, the hours all the rest. */
  function ParseCountdown(t: string): Option<Countdown> {
    if |t| < 8 || t[|t| - 3] != ':' || t[|t| - 6] != ':' then None
    else
      var h, m, s := t[..|t| - 6], t[|t| - 5..|t| - 3], t[|t| - 2..];
      if AllDigits(h) && AllDigits(m) && AllDigits(s)
      then Some(Countdown(DecimalValue(h), DecimalValue(m), DecimalValue(s)))
      else None
  }

  /** A text `h:m:s` whose last two fields are two digits reads back field by field. */
  lemma ParseThreeFields(h: string, m: string, s: string)
    requires |h| >= 2 && |m| == 2 && |s| == 2
    requires AllDigits(h) && AllDigits(m) && AllDigits(s)
    ensures ParseCountdown(h + ":" + m + ":" + s) == Some(Countdown(DecimalValue(h), DecimalValue(m), DecimalValue(s)))
  {
    JoinedFields(h, ':', m, s);
  }

  /**
   * For a non-negative countdown with minutes and seconds below 60, every
   * field is left-padded to at least two digits, and the text reads back as
   * the same countdown.
   */
  lemma {:induction false} CountdownTextRoundTrip(c: Countdown)
    requires 0 <= c.hours && 0 <= c.mins < 60 && 0 <= c.secs < 60
    ensures CountdownText(c) == Pad2(c.hours) + ":" + Pad2(c.mins) + ":" + Pad2(c.secs)
    ensures |Pad2(c.hours)| >= 2 && |Pad2(c.mins)| == 2 && |Pad2(c.secs)| == 2
    ensures ParseCountdown(CountdownText(c)) == Some(c)
  {
    PadFieldOfNat(c.hours);
    PadFieldOfNat(c.mins);
    PadFieldOfNat(c.secs);
    Pad2Value(c.hours);
    Pad2Value(c.mins);
    Pad2Value(c.secs);
    ParseThreeFields(Pad2(c.hours), Pad2(c.mins), Pad2(c.secs));
  }

  /** On a non-negative field `PadField` is the two-digit form. */
  lemma PadFieldOfNat(n: nat)
    ensures PadField(n) == Pad2(n)
  {
    Pad2IsPadStart(n);
  }

  // --------------------------------------------------------- next prayer

  /** What the banner shows: the next prayer's key, name and instant, and the countdown to it. */
  datatype NextPrayer = NextPrayer(key: PrayerKey, name: string, time: int, countdown: Countdown, text: string)

  /** `nextPrayerData`: a pure function of the current time, the clock and the offsets. */
  function NextPrayerData(now: int, clock: int, offsets: PrayerOffsets): NextPrayer {
    var schedule := Schedule(clock, offsets);
    var next := match FindAfter(schedule, now, 0)
      case Some(i) => schedule[i]
      case None => Slot(schedule[0].item, AdjustedDate(clock, BaseTime(Fajr), offsets.fajr, 1));
    var c := SplitCountdown(next.time - now);
    NextPrayer(next.item.key, next.item.name, next.time, c, CountdownText(c))
  }

  /**
   * The next prayer is the first prayer, in the fixed order, whose adjusted
   * instant today is strictly later than now; a prayer exactly at now is
   * skipped.
   */
  lemma NextPrayerIsFirstLater(now: int, clock: int, offsets: PrayerOffsets, i: nat)
    requires i < |Order|
    requires TodayAt(clock, offsets, Order[i]) > now
    requires forall j :: 0 <= j < i ==> TodayAt(clock, offsets, Order[j]) <= now
    ensures var r := NextPrayerData(now, clock, offsets);
      && r.key == Order[i]
      && r.name == ArabicName(Order[i])
      && r.time == TodayAt(clock, offsets, Order[i])
      && r.time > now
  {
    var s := Schedule(clock, offsets);
    var f := FindAfter(s, now, 0);
    assert f == Some(i);
  }

  /**
   * When no prayer today is later than now, the banner rolls over to
   * tomorrow's fajr with its offset, under fajr's name.
   */
  lemma NextPrayerRollsOverToFajr(now: int, clock: int, offsets: PrayerOffsets)
    requires forall k :: TodayAt(clock, offsets, k) <= now
    ensures var r := NextPrayerData(now, clock, offsets);
      && r.key == Fajr
      && r.name == "الفجر"
      && r.time == AdjustedDate(clock, BaseTime(Fajr), offsets.fajr, 1)
  {
    var s := Schedule(clock, offsets);
    var f := FindAfter(s, now, 0);
    assert f.None?;
  }

  /**
   * When the current time and the clock fall on the same day and fajr is not
   * moved before midnight, the next prayer is strictly ahead, so the
   * countdown's minutes and seconds are in [0, 59] and its fields add up to
   * the whole seconds left.
   */
  lemma NextPrayerIsAhead(now: int, clock: int, offsets: PrayerOffsets)
    requires DayOf(now) == DayOf(clock)
    requires offsets.fajr >= -BaseMinutes(Fajr)
    ensures var r := NextPrayerData(now, clock, offsets);
      && r.time > now
      && 0 <= r.countdown.hours && 0 <= r.countdown.mins < 60 && 0 <= r.countdown.secs < 60
      && r.countdown.hours * 3600 + r.countdown.mins * 60 + r.countdown.secs == (r.time - now) / 1000
      && r.text == Pad2(r.countdown.hours) + ":" + Pad2(r.countdown.mins) + ":" + Pad2(r.countdown.secs)
  {
    var s := Schedule(clock, offsets);
    var r := NextPrayerData(now, clock, offsets);
    if FindAfter(s, now, 0).None? {
      AdjustedDateIsMidnightPlusMinutes(clock, BaseTime(Fajr), offsets.fajr, 1);
      assert now < (DayOf(clock) + 1) * 86400000;
    }
    CountdownTextRoundTrip(r.countdown);
  }

  /**
   * With offsets that keep the day's prayers in order, the rows greyed out as
   * passed are exactly those before the next prayer, less one tied with now:
   * the next prayer and every later one are not passed.
   */
  lemma PassedRowsPrecedeNext(now: int, clock: int, offsets: PrayerOffsets, i: nat)
    requires forall k :: -43 <= offsets.Get(k) <= 43
    requires i < |Order|
    requires TodayAt(clock, offsets, Order[i]) > now
    requires forall j :: 0 <= j < i ==> TodayAt(clock, offsets, Order[j]) <= now
    ensures NextPrayerData(now, clock, offsets).key == Order[i]
    ensures forall j :: 0 <= j < i ==> IsPassed(now, TodayAt(clock, offsets, Order[j])) || TodayAt(clock, offsets, Order[j]) == now
    ensures forall j :: i <= j < |Order| ==> !IsPassed(now, TodayAt(clock, offsets, Order[j]))
  {
    NextPrayerIsFirstLater(now, clock, offsets, i);
    BaseTableChronological(offsets);
    forall j | i < j < |Order|
      ensures TodayAt(clock, offsets, Order[i]) < TodayAt(clock, offsets, Order[j])
    {
      AdjustedDateIsMidnightPlusMinutes(clock, BaseTime(Order[i]), offsets.Get(Order[i]), 0);
      AdjustedDateIsMidnightPlusMinutes(clock, BaseTime(Order[j]), offsets.Get(Order[j]), 0);
    }
  }

  /** A prayer exactly at the current time is neither greyed out nor counted down to. */
  lemma TiedPrayerIsNeitherPassedNorNext(now: int, clock: int, offsets: PrayerOffsets, k: PrayerKey)
    requires TodayAt(clock, offsets, k) == now
    ensures !IsPassed(now, TodayAt(clock, offsets, k))
    ensures var r := NextPrayerData(now, clock, offsets);
      r.time == now ==> r.key == Fajr && r.time == AdjustedDate(clock, BaseTime(Fajr), offsets.fajr, 1)
  {
  }

  /** While the next prayer stays the same, the countdown never goes up as time passes. */
  lemma CountdownNeverRises(now1: int, now2: int, clock: int, offsets: PrayerOffsets)
    requires now1 <= now2
    requires NextPrayerData(now1, clock, offsets).time == NextPrayerData(now2, clock, offsets).time
    requires NextPrayerData(now2, clock, offsets).time >= now2
    ensures var c1, c2 := NextPrayerData(now1, clock, offsets).countdown, NextPrayerData(now2, clock, offsets).countdown;
      c1.hours * 3600 + c1.mins * 60 + c1.secs >= c2.hours * 3600 + c2.mins * 60 + c2.secs
  {
  }

  /** The dashboard's only state for the card: the time its one-second interval last stored. */
  class DashboardScreen {
    var currentTime: int

    constructor (now: int)
      ensures currentTime == now
    {
      currentTime := now;
    }

    /** The banner the card renders from the stored time. */
    function Banner(clock: int, offsets: PrayerOffsets): NextPrayer
      reads this
    {
      NextPrayerData(currentTime, clock, offsets)
    }

    /** One interval tick: the stored time is replaced, and nothing else is carried over. */
    method Tick(now: int)
      modifies this
      ensures currentTime == now
      ensures forall clock, offsets :: Banner(clock, offsets) == NextPrayerData(now, clock, offsets)
    {
      currentTime := now;
    }
  }
}
