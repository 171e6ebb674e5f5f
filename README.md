# A verified model of the prayer-time and screen logic of a Muslim companion app

The app is a React single-page app. It shows the day's five prayer times shifted by per-user minute offsets, counts down to the next prayer, and lays out a weekly prayer table. Around that sit small screens: a fasting calendar, a fajr wake-up alarm with a quiz, a homework reminder, a Quran reader, a chat with a robot companion, a community chat, an admin panel for ads, a membership page and a sign-up wizard.

This project models that logic in Dafny and proves what the screens promise:

- **Prayer times.** Instants are integers of milliseconds and times of day are minutes.
  - `Date.setHours` overflow is floored division by the day, the hour and the minute.
  - The Dashboard's next-prayer search and its `HH:MM:SS` countdown are functions of the current time, the clock and the offsets.
  - The weekly table's 24-hour and 12-hour texts are functions too, with proved shapes and read-back lemmas.
- **Screens.** Each screen whose handlers update state in place is a `class`. Its methods carry `modifies` clauses and state the whole new state. Timer ticks and delayed callbacks (`setTimeout`, `setInterval`, the answer service) are explicit method calls.
- **Pure helpers.** Trimming, search, date keys and URL formulas are functions, each paired with a round trip, an injectivity lemma or a reference description.

Modules, one per file:

| file | module | models |
|---|---|---|
| `wrappers.dfy` | `Wrappers` | `Option` |
| `text.dfy` | `Text` | `trim`, `includes`/`indexOf`, `toString`, `padStart`, `parseInt` on digit strings |
| `lists.dfy` | `Lists` | `Array.prototype.filter` |
| `wallclock.dfy` | `WallClock` | the millisecond arithmetic of `Date` (in UTC), Gregorian day numbers and weekdays, and a mutable `JsDate` |
| `prayer.dfy` | `Prayer` | the five prayers, the base table and `PrayerOffsets` |
| `profile.dfy` | `Profile` | the `UserProfile` fields the screens read or write |
| `dashboard.dfy` | `Dashboard` | `components/Dashboard/Dashboard.tsx` |
| `prayer_schedule.dfy` | `PrayerSchedule` | `components/Prayers/PrayerSchedule.tsx` |
| `fasting_calendar.dfy` | `FastingCalendar` | `components/Fasting/FastingCalendar.tsx` |
| `fajr_alarm.dfy` | `FajrAlarm` | `components/Prayers/FajrAlarm.tsx` |
| `homework_reminder.dfy` | `HomeworkReminder` | `components/School/HomeworkReminder.tsx` |
| `quran_reader.dfy` | `QuranReader` | `components/Quran/QuranReader.tsx` |
| `robot_chat.dfy` | `RobotChat` | `components/Robot/RobotChat.tsx` |
| `community_chat.dfy` | `CommunityChat` | `components/Community/CommunityChat.tsx` |
| `admin_panel.dfy` | `AdminPanel` | `components/Admin/AdminPanel.tsx` |
| `subscription_page.dfy` | `SubscriptionPage` | `components/Subscription/SubscriptionPage.tsx` |
| `onboarding.dfy` | `Onboarding` | `components/Auth/Onboarding.tsx` |

Conventions:

- `now` is the Dashboard's `currentTime`. `clock` is what a fresh `new Date()` inside a helper reads. The two are separate parameters, because the code reads them separately. Every `new Date()` taken during one render is the same `clock`; two such reads could differ only if a render ran across midnight.
- JavaScript's truncating `%` is written out as `Dashboard.JsRem`.
- The weekly table starts on 2026-01-16, as `PrayerSchedule.tsx:18` writes it.

## Model

| member | source | states |
|---|---|---|
| Prayer.BaseTableChronological | components/Dashboard/Dashboard.tsx:21 | The base table is in chronological order, at least 87 minutes apart, inside one day. So offsets within 43 minutes either way keep every day's prayers in order and inside the day. |
| WallClock.JsDate.AddDays | components/Dashboard/Dashboard.tsx:26 | `setDate(getDate() + k)` moves the instant by exactly k days and keeps the time of day. |
| WallClock.JsDate.SetHours | components/Dashboard/Dashboard.tsx:27 | `setHours(h, m, s, ms)` sets the instant to midnight of its day plus the given fields, with overflowing fields carried. |
| WallClock.DaysInMonth | components/Fasting/FastingCalendar.tsx:15 | A month has 28 to 31 days; February has 29 exactly in leap years. |
| WallClock.MonthsAreContiguous | components/Fasting/FastingCalendar.tsx:52-53 | The first day of the next month follows the last day of this one, across the year end too. |
| WallClock.LastDayOfMonth | components/Fasting/FastingCalendar.tsx:15 | `new Date(y, m + 1, 0)` is the month's last day, day `DaysInMonth(y, m)`. |
| Dashboard.AdjustedDateIsMidnightPlusMinutes | components/Dashboard/Dashboard.tsx:23-29 | The adjusted instant is midnight of the clock's day plus `daysOffset` days plus `h*60+m+offset` minutes. Seconds and milliseconds are zero, and overflowing or negative minutes roll into hours and days. |
| Dashboard.GetAdjustedDate | components/Dashboard/Dashboard.tsx:23-29 | Running the two setters on a fresh date yields exactly that adjusted instant. |
| Dashboard.Schedule | components/Dashboard/Dashboard.tsx:36-49 | The schedule always lists fajr, dhuhr, asr, maghrib, isha in that order, each with its Arabic name and today's adjusted instant. |
| Dashboard.FindAfter | components/Dashboard/Dashboard.tsx:50 | `find(p => p.time > now)`: the result is strictly after now and every earlier slot is not; with no result, no slot is after now. |
| Dashboard.NextPrayerIsFirstLater | components/Dashboard/Dashboard.tsx:44-59 | The banner names the first prayer, in list order, strictly later than now; a prayer exactly at now is skipped. |
| Dashboard.NextPrayerRollsOverToFajr | components/Dashboard/Dashboard.tsx:51-54 | With no prayer later today, the banner shows tomorrow's fajr (day offset 1, fajr's offset) under fajr's name. |
| Dashboard.JsRem | components/Dashboard/Dashboard.tsx:57-58 | JavaScript `%`: equal to the floored remainder for a non-negative dividend, and always strictly between `-b` and `b`. |
| Dashboard.SplitCountdown | components/Dashboard/Dashboard.tsx:55-58 | For a non-negative difference the minutes and seconds are in [0, 59] and `hours*3600 + mins*60 + secs` is the difference's whole seconds. |
| Dashboard.CountdownTextRoundTrip | components/Dashboard/Dashboard.tsx:59 | Every field is zero-padded to at least two digits, and the `HH:MM:SS` text reads back as the same countdown. |
| Dashboard.PadFieldOfNat | components/Dashboard/Dashboard.tsx:59 | `toString().padStart(2, '0')` of a non-negative field is the two-digit form. |
| Dashboard.NextPrayerIsAhead | components/Dashboard/Dashboard.tsx:50-59 | When now and the clock share a day and fajr is not moved before midnight, the next prayer is strictly ahead, so the countdown is well formed and adds up to the seconds left. |
| Dashboard.PassedRowsPrecedeNext | components/Dashboard/Dashboard.tsx:120-122 | With offsets within 43 minutes, the rows greyed out as passed all come before the next prayer, and that prayer and every later one are not passed. |
| Dashboard.TiedPrayerIsNeitherPassedNorNext | components/Dashboard/Dashboard.tsx:120-122 | A prayer exactly at now is neither greyed out nor counted down to. The banner can sit at now only when it has rolled over to tomorrow's fajr. |
| Dashboard.CountdownNeverRises | components/Dashboard/Dashboard.tsx:55-58 | While the next prayer stays the same, the countdown's seconds never go up as time passes. |
| Dashboard.DashboardScreen.constructor | components/Dashboard/Dashboard.tsx:13 | The card starts from the time read at mount. |
| Dashboard.DashboardScreen.Tick | components/Dashboard/Dashboard.tsx:16-19 | A tick replaces the stored time, after which the banner is the pure next-prayer result for the new time; nothing else carries over between ticks. |
| PrayerSchedule.AdjustedFields | components/Prayers/PrayerSchedule.tsx:24-28 | The adjusted hour and minute are `(h*60+m+offset) mod 1440` split by 60, with floored modulo, so they are in [0, 23] and [0, 59]. |
| PrayerSchedule.Format24 | components/Prayers/PrayerSchedule.tsx:27-30 | In 24-hour form the text is two digits, a colon and two digits, and they read back as the wrapped hour and minute. |
| PrayerSchedule.Hour12 | components/Prayers/PrayerSchedule.tsx:32-33 | The 12-hour hour is in [1, 12] and agrees with the 24-hour hour modulo 12. |
| PrayerSchedule.Format12 | components/Prayers/PrayerSchedule.tsx:32-35 | In 12-hour form the text is the unpadded 12-hour hour, the two-digit minute and the marker. The hour and marker give the 24-hour hour back. |
| PrayerSchedule.ClockText12 | components/Prayers/PrayerSchedule.tsx:32-35 | Reading the hour back from its padded text gives the hour itself. |
| PrayerSchedule.Hour12RoundTrip | components/Prayers/PrayerSchedule.tsx:32-34 | The marker is 'م' exactly from noon on, and together with the 12-hour hour it determines the 24-hour hour. |
| PrayerSchedule.ClockDoesNotMatter | components/Prayers/PrayerSchedule.tsx:25-28 | The displayed time never depends on the date or time the clock reads. |
| PrayerSchedule.AdjustedText | components/Prayers/PrayerSchedule.tsx:23-36 | The text depends on the clock only through the wrapped hour and minute. |
| PrayerSchedule.FajrEarlierExample | components/Prayers/PrayerSchedule.tsx:23-30 | Fajr moved 75 minutes earlier shows "03:57". |
| PrayerSchedule.MidnightIsTwelveExample | components/Prayers/PrayerSchedule.tsx:32-35 | 00:05 shows as "12:05 ص". |
| PrayerSchedule.IshaLaterExample | components/Prayers/PrayerSchedule.tsx:27-30 | Isha moved 10 minutes later shows "18:32". |
| PrayerSchedule.IshaLaterEveningExample | components/Prayers/PrayerSchedule.tsx:32-35 | The same time in 12-hour form shows "6:32 م". |
| PrayerSchedule.Cells | components/Prayers/PrayerSchedule.tsx:56-61 | A day card has five cells, headed by the short prayer names in fajr-to-isha order. |
| PrayerSchedule.Week | components/Prayers/PrayerSchedule.tsx:17-61 | The table has seven consecutive days starting at 2026-01-16, and only the first is marked as today. Every card shows the same five times, each the adjusted time of its prayer. |
| FastingCalendar.Toggle | components/Fasting/FastingCalendar.tsx:18-26 | An unlisted day is appended at the end. A listed day is removed, every copy of it, and every other day is kept. |
| FastingCalendar.ToggleRemovalKeepsOrder | components/Fasting/FastingCalendar.tsx:21 | Removal keeps the remaining days in their order: it distributes over any split of the list. |
| FastingCalendar.ToggleTwiceRestores | components/Fasting/FastingCalendar.tsx:18-25 | Toggling an unlisted day twice restores the list exactly. |
| FastingCalendar.ActiveButtons | components/Fasting/FastingCalendar.tsx:28-37 | A day button of the grid is highlighted exactly when its date is listed or, under the Monday/Thursday recurrence, it stands in the Monday or Thursday column. Without the recurrence only listed dates are highlighted. |
| FastingCalendar.NothingHighlighted | components/Fasting/FastingCalendar.tsx:64-67 | A record with an empty list and no recurrence has no highlighted button in any month. |
| FastingCalendar.YearTextRoundTrip | components/Fasting/FastingCalendar.tsx:29 | The year part of an ISO date reads back as the year, inside 0..9999 or outside it. |
| FastingCalendar.KeyRoundTrip | components/Fasting/FastingCalendar.tsx:73 | A `YYYY-MM-DD` key reads back as the date it was made from. |
| FastingCalendar.DateKeyInjective | components/Fasting/FastingCalendar.tsx:29-30 | Different dates never share a key, so toggling one day never marks another. |
| FastingCalendar.FirstDayOfMonth | components/Fasting/FastingCalendar.tsx:16 | The number of leading blanks is a weekday in [0, 6]. |
| FastingCalendar.WeekdayShift | components/Fasting/FastingCalendar.tsx:16 | Moving k days on moves the weekday k places round the week. |
| FastingCalendar.Blanks | components/Fasting/FastingCalendar.tsx:61-63 | The grid opens with `firstDayOfMonth` blank cells. |
| FastingCalendar.Buttons | components/Fasting/FastingCalendar.tsx:64-65 | There is one button per day of the month, numbered 1 to `daysInMonth` in order. |
| FastingCalendar.ButtonAt | components/Fasting/FastingCalendar.tsx:64-73 | Each button carries its date's key. It is active exactly as the fasting rule says for that date, and marked as today exactly on 16 January. |
| FastingCalendar.Grid | components/Fasting/FastingCalendar.tsx:61-64 | The grid has `firstDayOfMonth + daysInMonth` cells. |
| FastingCalendar.GridColumns | components/Fasting/FastingCalendar.tsx:58-68 | Each day button stands in the column of its own weekday under the Sunday-first header. It carries its date's key and is active exactly when that date is a fasting day. |
| FastingCalendar.GridEndsOnLastDay | components/Fasting/FastingCalendar.tsx:15 | The last button is the month's last day. |
| FastingCalendar.FastingScreen.constructor | components/Fasting/FastingCalendar.tsx:13 | The calendar opens on January 2026. |
| FastingCalendar.FastingScreen.ToggleDay | components/Fasting/FastingCalendar.tsx:18-26 | Of the user record only `fastingDays` changes, to the toggled list. |
| FastingCalendar.FastingScreen.ToggleRecurring | components/Fasting/FastingCalendar.tsx:91 | The recurrence flips between 'mon-thu' and 'none', and no other field changes. |
| FastingCalendar.FastingScreen.PrevMonth | components/Fasting/FastingCalendar.tsx:52 | The shown month moves back by one, across a year end too. |
| FastingCalendar.FastingScreen.NextMonth | components/Fasting/FastingCalendar.tsx:53 | The shown month moves forward by one, across a year end too. |
| FajrAlarm.AzanUrl | components/Prayers/FajrAlarm.tsx:37-48 | The chosen sheikh's azan plays when the table has one, and العفاسي's otherwise. It is always one of the table's recordings. |
| FajrAlarm.PaddedAnswerIsCorrect | components/Prayers/FajrAlarm.tsx:54 | The answer is compared after trimming, so blank padding around the right answer is accepted. |
| FajrAlarm.AcceptAnswer | components/Prayers/FajrAlarm.tsx:54-58 | Accepting one more right answer keeps every accepted answer right for its question. |
| FajrAlarm.AlarmScreen.constructor | components/Prayers/FajrAlarm.tsx:24-35 | The alarm opens on the azan, at question 0 with no errors, holding the five drawn questions. |
| FajrAlarm.AlarmScreen.StartQuiz | components/Prayers/FajrAlarm.tsx:83-88 | The button or the recording's end moves to the quiz and nothing else changes. The stage is never 'nag'. |
| FajrAlarm.AlarmScreen.Type | components/Prayers/FajrAlarm.tsx:110 | Typing changes only the answer box. |
| FajrAlarm.AlarmScreen.SubmitAnswer | components/Prayers/FajrAlarm.tsx:53-70 | A right answer advances the index, clearing the box and errors, or dismisses at the fifth. A wrong one counts an error, clears the box and warns only if an error was already counted. The index stays in [0, 4], and dismissal comes only with five right answers in order. |
| HomeworkReminder.FormatTimeShape | components/School/HomeworkReminder.tsx:26-30 | The display is the unpadded minutes, a colon and always two digits of seconds. |
| HomeworkReminder.FormatTimeRoundTrip | components/School/HomeworkReminder.tsx:26-30 | The display reads back as the seconds left. |
| HomeworkReminder.FormatTimeExamples | components/School/HomeworkReminder.tsx:26-30 | 900 seconds show "15:00", 0 shows "0:00" and 65 shows "1:05". |
| HomeworkReminder.ReminderScreen.constructor | components/School/HomeworkReminder.tsx:13-14 | The reminder opens on its question with 900 seconds. |
| HomeworkReminder.ReminderScreen.Tick | components/School/HomeworkReminder.tsx:16-24 | A running timer with time left loses exactly one second. At zero it moves to the check. In any other step nothing changes, so the time never goes negative. |
| HomeworkReminder.ReminderScreen.NotYet | components/School/HomeworkReminder.tsx:59 | "Not yet" moves from the question to the confirmation. |
| HomeworkReminder.ReminderScreen.StartTimer | components/School/HomeworkReminder.tsx:37-40 | From the confirmation or the check, the timer runs again from 900 seconds. |
| HomeworkReminder.ReminderScreen.Finish | components/School/HomeworkReminder.tsx:32-35 | Only the homework status changes, to 'finished', and the screen closes. |
| HomeworkReminder.ReminderScreen.Later | components/School/HomeworkReminder.tsx:70 | "Later" closes the screen with the user untouched. |
| QuranReader.SheikhListIsMapKeys | components/Quran/QuranReader.tsx:5-14 | The reciter list offers exactly the map's reciters, each once. |
| QuranReader.InitialSheikh | components/Quran/QuranReader.tsx:20 | The reader opens on the user's Quran reciter, or on the first listed one when none is set. |
| QuranReader.ReciterId | components/Quran/QuranReader.tsx:46 | The reciter's own id is used when the map has one, and 'ar.alafasy' otherwise. It is always one of the map's ids. |
| QuranReader.VerseIdDecodes | components/Quran/QuranReader.tsx:47 | The verse id is `(surah - 1)*1000 + verse` and gives both numbers back for verses 1 to 1000. |
| QuranReader.VerseIdInjective | components/Quran/QuranReader.tsx:47 | Two different verses never share an id. |
| QuranReader.AudioUrlNamesReciter | components/Quran/QuranReader.tsx:46-48 | The URL names the reciter's id right after the fixed prefix. |
| QuranReader.AudioUrlDistinguishesReciters | components/Quran/QuranReader.tsx:46-48 | Reciters with different ids never get the same URL. |
| QuranReader.IdsHaveNoSlash | components/Quran/QuranReader.tsx:5-12 | No reciter id contains '/'. |
| QuranReader.VisibleSurahs | components/Quran/QuranReader.tsx:173 | The list shows exactly the surahs whose Arabic name includes the search term. |
| QuranReader.EmptySearchShowsAll | components/Quran/QuranReader.tsx:173 | An empty search shows the whole list in its order. |
| QuranReader.StartVerse | components/Quran/QuranReader.tsx:65 | Playback starts at the active verse, or at verse 1 when there is none. |
| QuranReader.AfterEnded | components/Quran/QuranReader.tsx:72-80 | After a track ends, the next verse follows while the current one is below the surah's count. Otherwise nothing is active. The result never exceeds the count. |
| QuranReader.RecitesToTheEnd | components/Quran/QuranReader.tsx:71-80 | Started at verse v, successive track ends recite v, v+1, … up to the surah's last verse and then stop. |
| QuranReader.ReaderScreen.constructor | components/Quran/QuranReader.tsx:17-20 | The reader opens on the list, with nothing playing and nothing loaded, on the initial reciter. |
| QuranReader.ReaderScreen.RerunAudioEffect | components/Quran/QuranReader.tsx:69-87 | The effect's cleanup pause aborts a pending `play()`, whose `catch` marks playback stopped. A playing flag with nothing pending stays set. The fresh element has no source. |
| QuranReader.ReaderScreen.SelectSurah | components/Quran/QuranReader.tsx:174 | Opening a surah sets the selection and re-runs the audio effect, so what was loaded before is dropped. |
| QuranReader.ReaderScreen.CloseSurah | components/Quran/QuranReader.tsx:100 | The back button clears the selection and re-runs the audio effect in the same way. |
| QuranReader.ReaderScreen.PlayVerse | components/Quran/QuranReader.tsx:36-57 | With no surah open nothing changes. Otherwise the verse becomes active, its URL in the current reciter's voice is loaded, and a `play()` is pending. A `play()` still pending from before is aborted by the new source, and its `catch` marks playback stopped. |
| QuranReader.ReaderScreen.PlayStarted | components/Quran/QuranReader.tsx:52 | A pending `play()` that succeeds changes nothing else. |
| QuranReader.ReaderScreen.PlayFailed | components/Quran/QuranReader.tsx:52-55 | A rejected `play()` marks playback stopped and keeps the verse and the source. |
| QuranReader.ReaderScreen.TogglePlayback | components/Quran/QuranReader.tsx:59-67 | While playing it pauses, which also aborts a pending `play()`. Otherwise it marks playback on and plays from the active verse or from verse 1; with no surah open only the flag changes. |
| QuranReader.ReaderScreen.HandleEnded | components/Quran/QuranReader.tsx:71-80 | The active verse becomes the sequencing function's result. When there is one it is loaded and asked to play; otherwise playback stops. |
| QuranReader.ReaderScreen.PickSheikhAsWritten | components/Quran/QuranReader.tsx:144 | As written: while playing, the click asks for the verse in the previous reciter's voice. The new state is the as-written picker's outcome. |
| QuranReader.ReaderScreen.PickSheikh | components/Quran/QuranReader.tsx:144 | Corrected: the new state is the intended picker's outcome. |
| QuranReader.PickWhilePlayingFallsSilent | components/Quran/QuranReader.tsx:144 | As written, picking another reciter while a verse plays ends with playback marked stopped and nothing loaded, on the verse that was playing. |
| QuranReader.PickSameReciterAsIntended | components/Quran/QuranReader.tsx:144 | Picking the reciter already chosen re-runs no effect, and the as-written click does what was intended. |
| QuranReader.PickKeepsPlaying | components/Quran/QuranReader.tsx:144 | As intended, picking a reciter while playing goes on from the active verse in the new reciter's voice. Playback is marked stopped only when a `play()` from before was still pending, since the new source aborts it. |
| QuranReader.PickerFallsSilent | components/Quran/QuranReader.tsx:144 | Switching from العفاسي to المعيقلي on verse 1 of الفاتحة leaves the as-written reader stopped, while the intended one plays المعيقلي's recitation. |
| RobotChat.FindDrawing | components/Robot/RobotChat.tsx:33 | The match is the first `<drawing>` and the nearest `</drawing>` after it. With no match, no closing tag follows any opening tag. |
| RobotChat.FoundAt | components/Robot/RobotChat.tsx:33 | Any opening and closing tag with no earlier rival are exactly what the search finds. |
| RobotChat.RemoveFirstDrawing | components/Robot/RobotChat.tsx:34 | Without a block the text is unchanged, and the text never grows. |
| RobotChat.ReplyText | components/Robot/RobotChat.tsx:34-38 | The reply is the cleaned, trimmed text, or the fallback sentence when that is blank; it is never empty. |
| RobotChat.DrawingRoundTrip | components/Robot/RobotChat.tsx:33-39 | For text without an opening tag, one block whose drawing holds no closing tag, and any text after, the drawing is the block's content and the cleaned text is the two surrounding texts joined. |
| RobotChat.NoDrawingKeepsText | components/Robot/RobotChat.tsx:33-39 | A response without an opening tag carries no drawing and keeps its whole text. |
| RobotChat.ChatScreen.constructor | components/Robot/RobotChat.tsx:8-10 | The chat opens with the single greeting. |
| RobotChat.ChatScreen.Type | components/Robot/RobotChat.tsx:90 | Typing changes only the input. |
| RobotChat.ChatScreen.Send | components/Robot/RobotChat.tsx:22-30 | A blank input, or a send while loading, changes nothing. Otherwise the untrimmed input is appended, the box cleared and loading starts. The service is asked with the messages from before the append. |
| RobotChat.ChatScreen.Receive | components/Robot/RobotChat.tsx:30-41 | Exactly one reply is appended, with the extracted drawing, and loading ends. |
| CommunityChat.UserMessage | components/Community/CommunityChat.tsx:21-29 | A sent message carries the user's id, role 'user' and the text as typed. |
| CommunityChat.MentionTriggers | components/Community/CommunityChat.tsx:34 | A text mentioning 'صلاة' or 'فجر' anywhere triggers the robot. |
| CommunityChat.RobotReplySide | components/Community/CommunityChat.tsx:61 | The robot's message stands on the user's side only for a user whose id is 'robot'. |
| CommunityChat.CommunityScreen.constructor | components/Community/CommunityChat.tsx:8-12 | The chat opens with the two seeded messages and an empty box. |
| CommunityChat.CommunityScreen.Type | components/Community/CommunityChat.tsx:81 | Typing changes only the input. |
| CommunityChat.CommunityScreen.Send | components/Community/CommunityChat.tsx:19-46 | A blank input changes nothing. Otherwise exactly one message, the user's own, is appended and the box cleared. A robot reply is queued exactly when the text mentions prayer or dawn. |
| CommunityChat.CommunityScreen.DeliverReply | components/Community/CommunityChat.tsx:35-44 | A queued reply is appended after whatever came since. |
| AdminPanel.Publish | components/Admin/AdminPanel.tsx:23 | The new ad carries the form's fields and the decimal text of the time as its id. |
| AdminPanel.RemoveById | components/Admin/AdminPanel.tsx:31 | Exactly the ads with other ids remain. |
| AdminPanel.RemoveKeepsOrder | components/Admin/AdminPanel.tsx:31 | The remaining ads keep their order. |
| AdminPanel.RemoveAbsentIdKeepsAll | components/Admin/AdminPanel.tsx:31 | Removing an id no ad has leaves the list unchanged. |
| AdminPanel.RemoveUndoesPublish | components/Admin/AdminPanel.tsx:22-34 | Publishing and then removing the new id gives back the earlier list when that id was new. |
| AdminPanel.AdminScreen.constructor | components/Admin/AdminPanel.tsx:13-15 | The panel opens locked, with an empty code and form. |
| AdminPanel.AdminScreen.TypeCode | components/Admin/AdminPanel.tsx:46 | Typing changes only the code. |
| AdminPanel.AdminScreen.EditForm | components/Admin/AdminPanel.tsx:63-65 | Editing changes only the form. |
| AdminPanel.AdminScreen.Login | components/Admin/AdminPanel.tsx:17-20 | The panel unlocks exactly on the admin code; a wrong code changes nothing. |
| AdminPanel.AdminScreen.AddAd | components/Admin/AdminPanel.tsx:22-28 | Exactly one ad is appended after the earlier ones, and the form resets to empty fields with country 'LB'. |
| AdminPanel.AdminScreen.RemoveAd | components/Admin/AdminPanel.tsx:30-34 | The list becomes the filtered list. |
| AdminPanel.AdminScreen.Logout | components/Admin/AdminPanel.tsx:58 | The panel locks again. |
| SubscriptionPage.ClassifyCodeCases | components/Subscription/SubscriptionPage.tsx:12-32 | The code is ignored exactly when blank, opens the maker's panel exactly on the admin code, and redeems gold exactly on 'ALITECH-GOLD'. Every other code is rejected. |
| SubscriptionPage.PaddedCodeRejected | components/Subscription/SubscriptionPage.tsx:13-22 | A valid code with a space before or after it is rejected, because it is compared untrimmed. |
| SubscriptionPage.NotACode | components/Subscription/SubscriptionPage.tsx:12-32 | A non-blank text that is neither code is rejected. |
| SubscriptionPage.TierLabel | components/Subscription/SubscriptionPage.tsx:44 | The regular label shows exactly for 'free'; every other tier shows the gold label. |
| SubscriptionPage.SubscriptionScreen.constructor | components/Subscription/SubscriptionPage.tsx:8-10 | The page opens with an empty code, not loading. |
| SubscriptionPage.SubscriptionScreen.Type | components/Subscription/SubscriptionPage.tsx:54 | Typing changes only the code. |
| SubscriptionPage.SubscriptionScreen.Press | components/Subscription/SubscriptionPage.tsx:12-32 | A press does what the classification says and never touches the user. The admin code goes to /maker, the gold code starts loading, and a press while loading does nothing. |
| SubscriptionPage.SubscriptionScreen.GoldGranted | components/Subscription/SubscriptionPage.tsx:24-29 | Only the tier changes, to 'gold'; loading ends and the page goes home. |
| Onboarding.SignUpAsWritten | components/Auth/Onboarding.tsx:17-41 | A whole sign-up through the wizard as written gives a verified user with the typed name and phone, child mode exactly for '4-10', and the gold label on the membership page. The record has no fasting list, so the calendar's `isFastingDay` fails on every day. |
| Onboarding.SignUp | components/Auth/Onboarding.tsx:17-41 | The same sign-up with the corrected initial form gives tier 'free', the regular label, an empty fasting list and no recurrence, so the calendar marks no day. |
| Onboarding.CalendarHighlight | components/Fasting/FastingCalendar.tsx:28-37 | `isFastingDay` on the signed-up record fails exactly when the record has no fasting list. Otherwise a day is marked when it is listed, or falls on a Monday or Thursday under 'mon-thu'; an absent recurrence counts as none. |
| Onboarding.UserId | components/Auth/Onboarding.tsx:174 | The id is 'U' followed by digits. |
| Onboarding.UserIdInjective | components/Auth/Onboarding.tsx:174 | Sign-ups at different times get different ids. |
| Onboarding.FirstFour | components/Auth/Onboarding.tsx:149 | `slice(0, 4)`: a prefix of at most four characters, the whole text when it is shorter. |
| Onboarding.OnboardingScreen.AsWritten | components/Auth/Onboarding.tsx:11-41 | The wizard as written starts at step 1 from the initial form with tier 0, all offsets 0, the 12-hour format on and child mode off. |
| Onboarding.OnboardingScreen.constructor | components/Auth/Onboarding.tsx:11-41 | The corrected wizard starts the same way from the form with tier 'free'. |
| Onboarding.OnboardingScreen.TypeName | components/Auth/Onboarding.tsx:87 | Typing changes only the name. |
| Onboarding.OnboardingScreen.GoogleLogin | components/Auth/Onboarding.tsx:55-65 | Without a name nothing happens. Otherwise loading starts and one step advance is scheduled. |
| Onboarding.OnboardingScreen.LoginDone | components/Auth/Onboarding.tsx:61-64 | The delayed callback ends loading and advances the step by exactly one. |
| Onboarding.OnboardingScreen.TypePhone | components/Auth/Onboarding.tsx:128 | Typing changes only the phone. |
| Onboarding.OnboardingScreen.SendCode | components/Auth/Onboarding.tsx:133-134 | The step advances only when the phone has at least eight characters. |
| Onboarding.OnboardingScreen.TypeCode | components/Auth/Onboarding.tsx:149 | The code keeps at most its first four characters. |
| Onboarding.OnboardingScreen.ConfirmCode | components/Auth/Onboarding.tsx:151 | The step advances whatever code was typed. |
| Onboarding.OnboardingScreen.SelectAge | components/Auth/Onboarding.tsx:160 | Child mode is on exactly for age group '4-10'. |
| Onboarding.OnboardingScreen.SelectGender | components/Auth/Onboarding.tsx:159 | Only the gender field changes. |
| Onboarding.OnboardingScreen.TypeNationality | components/Auth/Onboarding.tsx:163 | Only the nationality field changes. |
| Onboarding.OnboardingScreen.TypeCity | components/Auth/Onboarding.tsx:164 | Only the city field changes. |
| Onboarding.OnboardingScreen.SetWhishMoney | components/Auth/Onboarding.tsx:169-170 | Only the wallet answer changes. |
| Onboarding.OnboardingScreen.Complete | components/Auth/Onboarding.tsx:174 | The new user is the form with a 'U' id and the phone from step 2, and is verified. |

## Left out

- Time zones and daylight saving: every `Date` is read in UTC, so local wall-clock fields are the millisecond value's fields. The UTC shift `toISOString` applies to calendar keys in other zones is not modelled.
- Locale formatting: `toLocaleTimeString`, `toLocaleDateString`, `toLocaleString` and the Hijri `Intl.DateTimeFormat` are library output. The message timestamps and the month and day captions are left out, and a message's timestamp is a parameter.
- The `"HH:MM".split(':').map(Number)` parse of the base table: the base times are stored already split into hour and minute.
- `parseInt` is modelled only on the all-digit strings it is given.
- Timers and callbacks: `setInterval`, `setTimeout` and the awaited answer service are explicit method calls (`Tick`, `LoginDone`, `GoldGranted`, `DeliverReply`, `Receive`), not concurrency.
- The answer service (services/geminiService.ts, including its `history.slice(-6)`) is an oracle. `Send` returns the request and `Receive` takes any response text.
- The robot voice screen (components/Robot/RobotVoice.tsx) is not part of this model: a live audio socket and PCM conversion.
- Audio playback, DOM scrolling and `alert`: the loaded recitation is the `audioSource` field, and an alert is a returned flag where the screen's logic depends on it.
- Why a `play()` is rejected (autoplay policy, a missing file, the network) is not modelled: `PlayFailed` stands for any rejection and `PlayStarted` for success. The effect's cleanup is taken to run before a freshly requested verse has started, so the pause aborts the pending `play()`.
- Strings are sequences of code points, while JavaScript's `length`, `slice` and `includes` count UTF-16 units. The two differ only for characters outside the Basic Multilingual Plane, such as emoji, so `FirstFour`, the trims and the searches match the source exactly on text without them.
- The quiz's `Math.random` shuffle: the five questions are an input of `AlarmScreen`. The question bank's contents are left out.
- FajrAlarm's 'nag' stage is declared but never entered, and no method enters it.
- The homework progress bar is a floating-point width and is left out.
- App.tsx (storage, routing, JSON) and localStorage writes are left out. The ads list and the user record are screen fields.
- The other screens (settings, help, athkar, profile, family, Hijri calendar, complaints) hold no state logic beyond one-line toggles.
- Fields of the user record that no modelled screen reads are left out.
- FastingCalendar.FastingScreen: the calendar is modelled for a record that holds a fasting list. The record the sign-up wizard produces as written has none; `Onboarding.CalendarHighlight` models what the calendar does with it.
- Dashboard.NextPrayerIsAhead: the countdown's well-formedness is proved only when the current time and the clock share a day and fajr is not moved before midnight. Otherwise the difference can be negative, and the model keeps JavaScript's truncating remainder for that case without a bound.
- Dashboard.PassedRowsPrecedeNext: the ordering of greyed-out rows is proved for offsets within 43 minutes; larger offsets can reorder the day's prayers, and the source does not keep them in order.
- QuranReader.VerseIdDecodes: decoding is proved for verse numbers 1 to 1000, which covers every surah of the list.

## Findings

| source | as written | input that shows it | evidently intended | confidence | as-written member | corrected member |
|---|---|---|---|---|---|---|
| components/Auth/Onboarding.tsx:26 | The sign-up form stores `subscriptionTier: 0`, which is not one of 'free', 'royal' or 'gold'. The membership page labels every tier other than 'free' gold (SubscriptionPage.tsx:44), and the settings screen likewise shows "Royal Member 👑" for it (Settings.tsx:57). | Any completed sign-up: the tier is 0, and the page shows "عضو ذهبي 👑". | A new member starts on 'free' and is shown as a regular member. | not executed | Onboarding.SignUpAsWritten | Onboarding.SignUp |
| components/Quran/QuranReader.tsx:144 | Picking a reciter while playing calls the `playVerse` of the same render, which loads the verse in the old `currentSheikh`'s voice. The reciter change then re-runs the audio effect (lines 69-87): its cleanup pauses that element, the pending `play()` is aborted, its `catch` clears `isPlaying`, and a fresh empty element takes over. | Playing verse 1 of الفاتحة with مشاري العفاسي and picking ماهر المعيقلي: `.../ar.alafasy/1.mp3` is requested, then aborted, and the reader ends stopped with nothing loaded. | The verse goes on playing in the newly picked reciter's voice. | not executed | QuranReader.ReaderScreen.PickSheikhAsWritten | QuranReader.ReaderScreen.PickSheikh |
| components/Auth/Onboarding.tsx:17-41 | The sign-up form sets neither `fastingDays` nor `recurringFasting`, and the cast `as UserProfile` at :174 hides it. App.tsx:45-47 stores that record, and the fasting calendar's render calls `user.fastingDays.includes(...)` (FastingCalendar.tsx:30), which throws a TypeError on `undefined`. `toggleDay` spreads the same field at :19. | Any completed sign-up, then opening the fasting calendar: the first day button's `isFastingDay` throws. | The initial form carries `fastingDays: []` and `recurringFasting: 'none'`, and a new member's calendar shows every day unmarked. | not executed | Onboarding.SignUpAsWritten | Onboarding.SignUp |
