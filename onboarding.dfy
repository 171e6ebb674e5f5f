/**
 * The sign-up wizard: a name and a Google login, a phone number, a
 * four-character code, then the profile form, whose submission yields the new
 * user record.
 */
module Onboarding {
  import opened Text
  import opened Prayer
  import opened Profile
  import opened Wrappers
  import SubscriptionPage
  import FastingCalendar

  /** The part of the profile the wizard fills in. */
  datatype Form = Form(
    name: string,
    gender: string,
    ageGroup: string,
    nationality: string,
    city: string,
    isChildMode: bool,
    hasWhishMoney: bool,
    subscriptionTier: Tier,
    prayerOffsets: PrayerOffsets,
    sheikhs: Sheikhs,
    use12HourFormat: bool,
    /** `fastingDays` and `recurringFasting`; `None` when the object has no such key. */
    fastingDays: Option<seq<string>>,
    recurringFasting: Option<Recurrence>
  )

  /** The record handed on at the end: the form plus an id, the phone and the verified flag. */
  datatype NewUser = NewUser(form: Form, id: string, phone: string, isVerified: bool)

  const ChildAgeGroup: string := "4-10"

  const DefaultSheikhs: Sheikhs := Sheikhs("العفاسي", "عبد الباسط", "المنشاوي", "الحصري", "الشريم", "العفاسي")

  /**
   * The initial form as written: the tier is the number 0, which is not one
   * of the declared tiers, and there is no fasting list and no recurrence.
   */
  const InitialFormAsWritten: Form :=
    Form("", "ذكر", "18-45", "", "", false, false, NumericZero, ZeroOffsets, DefaultSheikhs, true, None, None)

  /**
   * The initial form as evidently intended: a new member starts on 'free',
   * with an empty fasting list and no recurrence.
   */
  const InitialForm: Form :=
    InitialFormAsWritten.(subscriptionTier := Free, fastingDays := Some([]), recurringFasting := Some(NoRecurrence))

  /**
   * The fasting calendar's `isFastingDay` run on the record the wizard hands
   * on. `None` is the TypeError that `includes` throws on an absent list; an
   * absent recurrence is never 'mon-thu'.
   */
  function CalendarHighlight(u: NewUser, key: string, weekday: int): (r: Option<bool>)
    ensures r.None? <==> u.form.fastingDays.None?
    ensures r.Some? ==>
      (r.value <==> key in u.form.fastingDays.value
                    || (u.form.recurringFasting == Some(MondayThursday) && (weekday == 1 || weekday == 4)))
  {
    match u.form.fastingDays
    case None => None
    case Some(days) => Some(FastingCalendar.IsFastingDay(days, u.form.recurringFasting.GetOr(NoRecurrence), key, weekday))
  }

  /** `'U' + Date.now()`: two sign-ups at different times get different ids. */
  function UserId(now: nat): (id: string)
    ensures |id| >= 2 && id[0] == 'U' && AllDigits(id[1..])
  {
    "U" + NatToString(now)
  }

  lemma UserIdInjective(t1: nat, t2: nat)
    requires UserId(t1) == UserId(t2)
    ensures t1 == t2
  {
    assert UserId(t1)[1..] == NatToString(t1);
    assert UserId(t2)[1..] == NatToString(t2);
    NatToStringInjective(t1, t2);
  }

  /** The first four characters of a typed code, or all of it when shorter: `slice(0, 4)`. */
  function FirstFour(text: string): (r: string)
    ensures |r| <= 4 && |r| <= |text| && r == text[..|r|]
    ensures |text| <= 4 ==> r == text
    ensures |text| >= 4 ==> |r| == 4
  {
    if |text| <= 4 then text else text[..4]
  }

  class OnboardingScreen {
    var step: nat
    var loading: bool
    /** Login callbacks scheduled and not yet run; each one advances the step. */
    var pendingLogins: nat
    var phone: string
    var verifyCode: string
    var form: Form

    /** The wizard as written: the form starts with the numeric tier 0. */
    constructor AsWritten()
      ensures step == 1 && !loading && pendingLogins == 0 && phone == "" && verifyCode == ""
      ensures form == InitialFormAsWritten
      ensures form.prayerOffsets == ZeroOffsets && form.use12HourFormat && !form.isChildMode
    {
      step, loading, pendingLogins, phone, verifyCode := 1, false, 0, "", "";
      form := InitialFormAsWritten;
    }

    /** The wizard with the corrected initial form, whose tier is 'free'. */
    constructor ()
      ensures step == 1 && !loading && pendingLogins == 0 && phone == "" && verifyCode == ""
      ensures form == InitialForm
      ensures form.prayerOffsets == ZeroOffsets && form.use12HourFormat && !form.isChildMode
    {
      step, loading, pendingLogins, phone, verifyCode := 1, false, 0, "", "";
      form := InitialForm;
    }

    method TypeName(name: string)
      requires step == 1
      modifies this
      ensures form == old(form).(name := name)
      ensures step == old(step) && loading == old(loading) && pendingLogins == old(pendingLogins)
      ensures phone == old(phone) && verifyCode == old(verifyCode)
    {
      form := form.(name := name);
    }

    /**
     * `simulateGoogleLogin`: without a name nothing happens; otherwise
     * loading starts and one more step advance is scheduled.
     */
    method GoogleLogin()
      requires step == 1
      modifies this
      ensures old(form.name) == "" ==> loading == old(loading) && pendingLogins == old(pendingLogins)
      ensures old(form.name) != "" ==> loading && pendingLogins == old(pendingLogins) + 1
      ensures step == old(step) && form == old(form) && phone == old(phone) && verifyCode == old(verifyCode)
    {
      if form.name == "" {
        return;
      }
      loading := true;
      pendingLogins := pendingLogins + 1;
    }

    /** The delayed login callback: loading ends and the step advances by one. */
    method LoginDone()
      requires pendingLogins > 0
      modifies this
      ensures step == old(step) + 1 && !loading && pendingLogins == old(pendingLogins) - 1
      ensures form == old(form) && phone == old(phone) && verifyCode == old(verifyCode)
    {
      loading := false;
      pendingLogins := pendingLogins - 1;
      step := step + 1;
    }

    method TypePhone(p: string)
      requires step == 2
      modifies this
      ensures phone == p
      ensures step == old(step) && form == old(form) && verifyCode == old(verifyCode)
      ensures loading == old(loading) && pendingLogins == old(pendingLogins)
    {
      phone := p;
    }

    /** The send-code button is disabled below eight characters; otherwise it advances to the code step. */
    method SendCode()
      requires step == 2
      modifies this
      ensures step == (if |old(phone)| >= 8 then 3 else 2)
      ensures phone == old(phone) && form == old(form) && verifyCode == old(verifyCode)
      ensures loading == old(loading) && pendingLogins == old(pendingLogins)
    {
      if |phone| >= 8 {
        step := step + 1;
      }
    }

    /** Typing in the code box keeps only the first four characters. */
    method TypeCode(text: string)
      requires step == 3
      modifies this
      ensures verifyCode == FirstFour(text)
      ensures step == old(step) && form == old(form) && phone == old(phone)
      ensures loading == old(loading) && pendingLogins == old(pendingLogins)
    {
      verifyCode := FirstFour(text);
    }

    /** The confirm button advances whatever code was typed: the code is never checked. */
    method ConfirmCode()
      requires step == 3
      modifies this
      ensures step == 4
      ensures form == old(form) && phone == old(phone) && verifyCode == old(verifyCode)
      ensures loading == old(loading) && pendingLogins == old(pendingLogins)
    {
      step := step + 1;
    }

    /** Choosing an age group; child mode is on exactly for '4-10'. */
    method SelectAge(v: string)
      requires step == 4
      modifies this
      ensures form == old(form).(ageGroup := v, isChildMode := v == ChildAgeGroup)
      ensures form.isChildMode <==> v == ChildAgeGroup
      ensures step == old(step) && phone == old(phone) && verifyCode == old(verifyCode)
      ensures loading == old(loading) && pendingLogins == old(pendingLogins)
    {
      form := form.(ageGroup := v, isChildMode := v == ChildAgeGroup);
    }

    /** The gender, nationality and city fields: each writes its own entry of the form and nothing else. */
    method SelectGender(v: string)
      requires step == 4
      modifies this
      ensures form == old(form).(gender := v)
      ensures step == old(step) && phone == old(phone) && verifyCode == old(verifyCode)
      ensures loading == old(loading) && pendingLogins == old(pendingLogins)
    {
      form := form.(gender := v);
    }

    method TypeNationality(v: string)
      requires step == 4
      modifies this
      ensures form == old(form).(nationality := v)
      ensures step == old(step) && phone == old(phone) && verifyCode == old(verifyCode)
      ensures loading == old(loading) && pendingLogins == old(pendingLogins)
    {
      form := form.(nationality := v);
    }

    method TypeCity(v: string)
      requires step == 4
      modifies this
      ensures form == old(form).(city := v)
      ensures step == old(step) && phone == old(phone) && verifyCode == old(verifyCode)
      ensures loading == old(loading) && pendingLogins == old(pendingLogins)
    {
      form := form.(city := v);
    }

    /** The yes/no buttons of the wallet question. */
    method SetWhishMoney(has: bool)
      requires step == 4
      modifies this
      ensures form == old(form).(hasWhishMoney := has)
      ensures step == old(step) && phone == old(phone) && verifyCode == old(verifyCode)
      ensures loading == old(loading) && pendingLogins == old(pendingLogins)
    {
      form := form.(hasWhishMoney := has);
    }

    /** The final button: the form, a fresh 'U' id, the phone from the second step, and verified. */
    method Complete(now: nat) returns (u: NewUser)
      requires step == 4
      ensures u == NewUser(form, UserId(now), phone, true)
      ensures u.isVerified && u.id[0] == 'U'
    {
      u := NewUser(form, UserId(now), phone, true);
    }
  }

  /**
   * A whole sign-up through the wizard as written: name, Google login, a
   * phone number of eight characters or more, any code, an age group, then
   * the final button. The new user is verified and carries what was typed,
   * and the membership page labels them a gold member although nobody paid.
   * The record carries no fasting list, so the fasting calendar fails on
   * every day it tries to draw.
   */
  method SignUpAsWritten(name: string, phone: string, code: string, age: string, now: nat) returns (u: NewUser)
    requires name != "" && |phone| >= 8
    ensures u.form.name == name && u.phone == phone && u.isVerified && u.id == UserId(now)
    ensures u.form.isChildMode <==> age == ChildAgeGroup
    ensures SubscriptionPage.TierLabel(u.form.subscriptionTier) == "عضو ذهبي 👑"
    ensures forall key, weekday :: CalendarHighlight(u, key, weekday).None?
  {
    var screen := new OnboardingScreen.AsWritten();
    u := Walk(screen, name, phone, code, age, now);
  }

  /**
   * The same sign-up with the corrected initial form: the new user is
   * labelled a regular member, and their calendar draws every day unmarked.
   */
  method SignUp(name: string, phone: string, code: string, age: string, now: nat) returns (u: NewUser)
    requires name != "" && |phone| >= 8
    ensures u.form.name == name && u.phone == phone && u.isVerified && u.id == UserId(now)
    ensures u.form.isChildMode <==> age == ChildAgeGroup
    ensures u.form.subscriptionTier == Free
    ensures SubscriptionPage.TierLabel(u.form.subscriptionTier) == "عضو عادي"
    ensures u.form.fastingDays == Some([]) && u.form.recurringFasting == Some(NoRecurrence)
    ensures forall key, weekday :: CalendarHighlight(u, key, weekday) == Some(false)
  {
    var screen := new OnboardingScreen();
    u := Walk(screen, name, phone, code, age, now);
  }

  /** Drives a freshly opened wizard through every step to the final button; the tier it started with is kept. */
  method Walk(screen: OnboardingScreen, name: string, phone: string, code: string, age: string, now: nat)
    returns (u: NewUser)
    requires screen.step == 1 && screen.pendingLogins == 0 && name != "" && |phone| >= 8
    modifies screen
    ensures u.form.name == name && u.phone == phone && u.isVerified && u.id == UserId(now)
    ensures u.form.isChildMode <==> age == ChildAgeGroup
    ensures u.form.subscriptionTier == old(screen.form.subscriptionTier)
    ensures u.form.fastingDays == old(screen.form.fastingDays)
    ensures u.form.recurringFasting == old(screen.form.recurringFasting)
  {
    screen.TypeName(name);
    screen.GoogleLogin();
    screen.LoginDone();
    screen.TypePhone(phone);
    screen.SendCode();
    screen.TypeCode(code);
    screen.ConfirmCode();
    screen.SelectAge(age);
    u := screen.Complete(now);
  }
}
