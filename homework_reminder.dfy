/**
 * The homework reminder: a child is asked whether the homework is done; if
 * not, a fifteen-minute countdown runs, after which the question comes back.
 */
module HomeworkReminder {
  import opened Wrappers
  import opened Text
  import opened Profile

  datatype Step = Initial | ConfirmSolve | Timer | CheckFinish

  /** Fifteen minutes, in seconds. */
  const FullTime: nat := 900

  /**
   * The step changes the screen's buttons allow: from the opening question
   * to the confirmation, from the confirmation or the check to the timer,
   * and from a running timer at zero to the check. (Finishing and closing
   * leave the screen instead.)
   */
  predicate CanMove(from: Step, to: Step) {
    || (from == Initial && to == ConfirmSolve)
    || (from == ConfirmSolve && to == Timer)
    || (from == CheckFinish && to == Timer)
    || (from == Timer && to == CheckFinish)
    || (from == Timer && to == Timer)
  }

  // ------------------------------------------------------------ formatTime

  /** `formatTime(seconds)`: whole minutes, unpadded, a colon and the seconds with a leading '0' below ten. */
  function FormatTime(seconds: nat): string {
    var m := seconds / 60;
    var s := seconds % 60;
    NatToString(m) + ":" + (if s < 10 then "0" else "") + NatToString(s)
  }

  /** The displayed seconds are always two digits; the minutes are as many digits as they need. */
  lemma FormatTimeShape(seconds: nat)
    ensures FormatTime(seconds) == NatToString(seconds / 60) + ":" + Pad2(seconds % 60)
  {
    var s := seconds % 60;
    if s >= 10 {
      assert NatToString(s) == NatToString(s / 10) + [DigitChar(s % 10)];
    }
  }

  /** Reads a displayed time back as seconds: minutes before the colon, two digits of seconds after it. */
  function ParseTime(t: string): Option<nat> {
    if |t| < 4 || t[|t| - 3] != ':' then None
    else
      var m, s := t[..|t| - 3], t[|t| - 2..];
      if AllDigits(m) && AllDigits(s) then Some(DecimalValue(m) * 60 + DecimalValue(s)) else None
  }

  /** The display loses nothing: it reads back as the seconds left. */
  lemma FormatTimeRoundTrip(seconds: nat)
    ensures ParseTime(FormatTime(seconds)) == Some(seconds)
  {
    FormatTimeShape(seconds);
    DecimalValueOfNatToString(seconds / 60);
    Pad2Value(seconds % 60);
    ParseTwoFields(NatToString(seconds / 60), Pad2(seconds % 60));
  }

  /** A text `m:s` with two digits after the colon reads back field by field. */
  lemma ParseTwoFields(m: string, s: string)
    requires |m| >= 1 && |s| == 2 && AllDigits(m) && AllDigits(s)
    ensures ParseTime(m + ":" + s) == Some(DecimalValue(m) * 60 + DecimalValue(s))
  {
    JoinedPair(m, ':', s);
  }

  /** The opening display is 15:00, and the last one before the check is 0:00. */
  lemma FormatTimeExamples()
    ensures FormatTime(FullTime) == "15:00"
    ensures FormatTime(0) == "0:00"
    ensures FormatTime(65) == "1:05"
  {
    assert NatToString(15) == NatToString(1) + [DigitChar(5)] == "15";
    assert NatToString(0) == "0" && NatToString(1) == "1" && NatToString(5) == "5";
  }

  // ---------------------------------------------------------------- screen

  class ReminderScreen {
    var step: Step
    var timeLeft: int
    var user: UserProfile
    var closed: bool

    /** The seconds left stay in [0, 900]. */
    predicate Valid()
      reads this
    {
      0 <= timeLeft <= FullTime
    }

    /** The reminder opens on its question with the full fifteen minutes. */
    constructor (u: UserProfile)
      ensures Valid() && step == Initial && timeLeft == FullTime && user == u && !closed
    {
      step, timeLeft, user, closed := Initial, FullTime, u, false;
    }

    /**
     * One second of the timer effect: while the timer runs with time left it
     * takes exactly one second off; at zero it moves to the check; in any
     * other step nothing happens.
     */
    method Tick()
      requires Valid()
      modifies this
      ensures Valid()
      ensures old(step) == Timer && old(timeLeft) > 0 ==> step == Timer && timeLeft == old(timeLeft) - 1
      ensures old(step) == Timer && old(timeLeft) == 0 ==> step == CheckFinish && timeLeft == 0
      ensures old(step) != Timer ==> step == old(step) && timeLeft == old(timeLeft)
      ensures step == old(step) || CanMove(old(step), step)
      ensures user == old(user) && closed == old(closed)
    {
      if step == Timer && timeLeft > 0 {
        timeLeft := timeLeft - 1;
      } else if step == Timer && timeLeft == 0 {
        step := CheckFinish;
      }
    }

    /** "Not yet": the opening question moves on to the confirmation. */
    method NotYet()
      requires Valid() && step == Initial
      modifies this
      ensures Valid() && step == ConfirmSolve && CanMove(old(step), step)
      ensures timeLeft == old(timeLeft) && user == old(user) && closed == old(closed)
    {
      step := ConfirmSolve;
    }

    /** `handleStartTimer`, from the confirmation or the check: the timer runs again from fifteen minutes. */
    method StartTimer()
      requires Valid() && (step == ConfirmSolve || step == CheckFinish)
      modifies this
      ensures Valid() && step == Timer && timeLeft == FullTime && CanMove(old(step), step)
      ensures user == old(user) && closed == old(closed)
    {
      step := Timer;
      timeLeft := FullTime;
    }

    /** `handleFinish`, from the question, the timer or the check: only the homework status changes, and the screen closes. */
    method Finish()
      requires Valid() && step != ConfirmSolve
      modifies this
      ensures Valid()
      ensures user == old(user).(homeworkStatus := Finished)
      ensures closed && step == old(step) && timeLeft == old(timeLeft)
    {
      user := user.(homeworkStatus := Finished);
      closed := true;
    }

    /** "Later", from the confirmation: the screen closes with the user untouched. */
    method Later()
      requires Valid() && step == ConfirmSolve
      modifies this
      ensures Valid()
      ensures closed && user == old(user) && step == old(step) && timeLeft == old(timeLeft)
    {
      closed := true;
    }
  }
}
