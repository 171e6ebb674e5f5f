/**
 * The five daily prayers, the fixed base table both prayer screens use and
 * the user's per-prayer minute offsets (`PrayerOffsets` in types.ts).
 */
module Prayer {

  datatype PrayerKey = Fajr | Dhuhr | Asr | Maghrib | Isha

  /** The fixed chronological order of the day's prayers. */
  const Order: seq<PrayerKey> := [Fajr, Dhuhr, Asr, Maghrib, Isha]

  /** An hour and minute of the day. */
  datatype TimeOfDay = TimeOfDay(hour: int, minute: int)

  /** The base table: "05:12", "11:58", "14:40", "16:55", "18:22", already split at the colon. */
  function BaseTime(k: PrayerKey): TimeOfDay {
    match k
    case Fajr => TimeOfDay(5, 12)
    case Dhuhr => TimeOfDay(11, 58)
    case Asr => TimeOfDay(14, 40)
    case Maghrib => TimeOfDay(16, 55)
    case Isha => TimeOfDay(18, 22)
  }

  /** Minutes past midnight of a base time. */
  function BaseMinutes(k: PrayerKey): int {
    BaseTime(k).hour * 60 + BaseTime(k).minute
  }

  /** Minute offsets, positive or negative, one per prayer. */
  datatype PrayerOffsets = PrayerOffsets(fajr: int, dhuhr: int, asr: int, maghrib: int, isha: int) {
    /** `user.prayerOffsets[key]`. */
    function Get(k: PrayerKey): int {
      match k
      case Fajr => fajr
      case Dhuhr => dhuhr
      case Asr => asr
      case Maghrib => maghrib
      case Isha => isha
    }
  }

  /** Offsets a new profile starts with. */
  const ZeroOffsets: PrayerOffsets := PrayerOffsets(0, 0, 0, 0, 0)

  /**
   * The base table lists the prayers in chronological order, at least 87
   * minutes apart, inside one day; so offsets within 43 minutes either way
   * keep the adjusted prayers of a day in order.
   */
  lemma {:induction false} BaseTableChronological(offsets: PrayerOffsets)
    requires forall k :: -43 <= offsets.Get(k) <= 43
    ensures forall i, j :: 0 <= i < j < |Order| ==>
      BaseMinutes(Order[i]) + offsets.Get(Order[i]) < BaseMinutes(Order[j]) + offsets.Get(Order[j])
    ensures forall i :: 0 <= i < |Order| ==> 0 <= BaseMinutes(Order[i]) + offsets.Get(Order[i]) < 1440
  {
    assert -43 <= offsets.fajr <= 43 by { assert offsets.Get(Fajr) == offsets.fajr; }
    assert -43 <= offsets.dhuhr <= 43 by { assert offsets.Get(Dhuhr) == offsets.dhuhr; }
    assert -43 <= offsets.asr <= 43 by { assert offsets.Get(Asr) == offsets.asr; }
    assert -43 <= offsets.maghrib <= 43 by { assert offsets.Get(Maghrib) == offsets.maghrib; }
    assert -43 <= offsets.isha <= 43 by { assert offsets.Get(Isha) == offsets.isha; }
  }
}
