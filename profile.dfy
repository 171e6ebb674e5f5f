/** The user record of types.ts, restricted to the fields the modelled screens read or write. */
module Profile {
  import opened Prayer

  /** `homeworkStatus`. */
  datatype HomeworkStatus = Idle | Reminding | Solving | Finished

  /** `recurringFasting`: 'none' or 'mon-thu'. */
  datatype Recurrence = NoRecurrence | MondayThursday

  /**
   * `subscriptionTier`. The declared type allows 'free', 'royal' and 'gold';
   * `NumericZero` is the number 0 that the onboarding form stores in the field.
   */
  datatype Tier = Free | Royal | Gold | NumericZero

  /** `sheikhs`: the reciter chosen for each prayer and for the Quran. */
  datatype Sheikhs = Sheikhs(fajr: string, dhuhr: string, asr: string, maghrib: string, isha: string, quran: string)

  datatype UserProfile = UserProfile(
    id: string,
    name: string,
    phone: string,
    isVerified: bool,
    isChildMode: bool,
    subscriptionTier: Tier,
    prayerOffsets: PrayerOffsets,
    sheikhs: Sheikhs,
    /** `prayerConfigs.fajr.sheikh`, the voice of the fajr alarm. */
    fajrAlarmSheikh: string,
    use12HourFormat: bool,
    homeworkStatus: HomeworkStatus,
    fastingDays: seq<string>,
    recurringFasting: Recurrence
  )
}
