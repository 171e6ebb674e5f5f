/**
 * The fasting calendar: a month grid of day buttons, each marked when the
 * day is a fasting day, a toggle that adds or removes a day from the user's
 * list of fasting days, the Monday/Thursday recurrence and month navigation.
 */
module FastingCalendar {
  import opened Wrappers
  import opened Text
  import opened Lists
  import opened WallClock
  import opened Profile

  // ------------------------------------------------------------- toggleDay

  /**
   * The list `toggleDay` stores: the day removed (every copy of it) when it
   * is listed, appended at the end when it is not. Removal keeps every other
   * day; appending leaves the earlier entries as they were.
   */
  function Toggle(days: seq<string>, key: string): (r: seq<string>)
    ensures key !in days ==> r == days + [key]
    ensures key in days ==> key !in r && forall x :: x != key ==> (x in r <==> x in days)
  {
    if key in days then Filter(days, Differs(key)) else days + [key]
  }

  /** Removing a listed day keeps the order of the rest: it distributes over any split of the list. */
  lemma ToggleRemovalKeepsOrder(a: seq<string>, b: seq<string>, key: string)
    requires key in a + b
    ensures Toggle(a + b, key) == Filter(a, Differs(key)) + Filter(b, Differs(key))
  {
    FilterConcat(a, b, Differs(key));
  }

  /** Toggling a day that is not listed, twice, gives the original list back. */
  lemma ToggleTwiceRestores(days: seq<string>, key: string)
    requires key !in days
    ensures Toggle(Toggle(days, key), key) == days
  {
    var keep := Differs(key);
    FilterConcat(days, [key], keep);
    FilterKeepsAll(days, keep);
    assert Filter([key], keep) == [];
  }

  // ---------------------------------------------------------- isFastingDay

  /**
   * `isFastingDay`: a listed day always is one; an unlisted day is one
   * exactly when the recurrence is Monday/Thursday and it falls on a Monday
   * (1) or a Thursday (4).
   */
  predicate IsFastingDay(days: seq<string>, recurrence: Recurrence, key: string, weekday: int) {
    if key in days then true
    else if recurrence == MondayThursday then weekday == 1 || weekday == 4
    else false
  }

  // ------------------------------------------------------------- date keys

  /** The year as `toISOString` writes it: four digits, or a sign and six digits outside 0..9999. */
  function YearText(y: int): string {
    if 0 <= y <= 9999 then PadStart(NatToString(y), 4, '0')
    else (if y < 0 then "-" else "+") + PadStart(NatToString(if y < 0 then -y else y), 6, '0')
  }

  /** Reads a year text back: a run of digits, or a sign followed by one; anything else reads as nothing. */
  function YearOf(t: string): Option<int> {
    if |t| > 0 && (t[0] == '-' || t[0] == '+') then
      if AllDigits(t[1..]) then
        var v: int := DecimalValue(t[1..]);
        Some(if t[0] == '-' then -v else v)
      else None
    else if AllDigits(t) then Some(DecimalValue(t))
    else None
  }

  /** Every year, in range or not, reads back from its text. */
  lemma YearTextRoundTrip(y: int)
    ensures YearOf(YearText(y)) == Some(y)
  {
    var a: nat := if y < 0 then -y else y;
    var digits := PadStart(NatToString(a), if 0 <= y <= 9999 then 4 else 6, '0');
    DecimalValueOfZeroPadded(NatToString(a), if 0 <= y <= 9999 then 4 else 6);
    DecimalValueOfNatToString(a);
    if 0 <= y <= 9999 {
      UnsignedYear(digits);
    } else {
      SignedYear(if y < 0 then '-' else '+', digits);
      assert YearText(y) == [if y < 0 then '-' else '+'] + digits;
    }
  }

  /** A bare run of digits reads as its value. */
  lemma UnsignedYear(digits: string)
    requires |digits| > 0 && AllDigits(digits)
    ensures YearOf(digits) == Some(DecimalValue(digits))
  {
    assert IsDigit(digits[0]);
  }

  /** A sign and a run of digits read as the value, negated after '-'. */
  lemma SignedYear(sign: char, digits: string)
    requires sign == '-' || sign == '+'
    requires AllDigits(digits)
    ensures YearOf([sign] + digits) == Some(if sign == '-' then -(DecimalValue(digits) as int) else DecimalValue(digits))
  {
    assert ([sign] + digits)[1..] == digits;
  }

  /** `date.toISOString().split('T')[0]` of the grid's day `d` of month `m` (0 = January) of year `y`. */
  function DateKey(y: int, m: int, d: int): string
    requires 0 <= m < 12 && 1 <= d <= 31
  {
    YearText(y) + "-" + Pad2(m + 1) + "-" + Pad2(d)
  }

  /** A key ends in the two-digit month and day, each after a dash; the year is all the rest. */
  lemma KeyFields(y: int, m: int, d: int)
    requires 0 <= m < 12 && 1 <= d <= 31
    ensures var k := DateKey(y, m, d);
      && |k| >= 6 && k[|k| - 6] == '-' && k[|k| - 3] == '-'
      && k[|k| - 2..] == Pad2(d)
      && k[|k| - 5..|k| - 3] == Pad2(m + 1)
      && k[..|k| - 6] == YearText(y)
  {
    JoinedFields(YearText(y), '-', Pad2(m + 1), Pad2(d));
  }

  /** Reads a key back as (year, month from 0, day): a year text, a dash, two digits, a dash and two digits. */
  function KeyDate(k: string): Option<(int, int, int)> {
    if |k| < 6 || k[|k| - 6] != '-' || k[|k| - 3] != '-' then None
    else
      var year, month, day := YearOf(k[..|k| - 6]), k[|k| - 5..|k| - 3], k[|k| - 2..];
      if year.Some? && AllDigits(month) && AllDigits(day) then
        Some((year.value, DecimalValue(month) - 1, DecimalValue(day)))
      else None
  }

  /** A key reads back as the date it was made from. */
  lemma KeyRoundTrip(y: int, m: int, d: int)
    requires 0 <= m < 12 && 1 <= d <= 31
    ensures KeyDate(DateKey(y, m, d)) == Some((y, m, d))
  {
    KeyFields(y, m, d);
    YearTextRoundTrip(y);
    Pad2Value(m + 1);
    Pad2Value(d);
  }

  /** Two different dates never share a key, so toggling one day never touches another. */
  lemma DateKeyInjective(y1: int, m1: int, d1: int, y2: int, m2: int, d2: int)
    requires 0 <= m1 < 12 && 1 <= d1 <= 31 && 0 <= m2 < 12 && 1 <= d2 <= 31
    requires DateKey(y1, m1, d1) == DateKey(y2, m2, d2)
    ensures y1 == y2 && m1 == m2 && d1 == d2
  {
    KeyRoundTrip(y1, m1, d1);
    KeyRoundTrip(y2, m2, d2);
  }

  // ------------------------------------------------------------- the grid

  /** `new Date(y, m, 1).getDay()`: how many blanks precede day 1. */
  function FirstDayOfMonth(y: int, m: int): (w: int)
    ensures 0 <= w < 7
  {
    Weekday(DayNumber(y, m, 1))
  }

  /** Moving `k` days on moves the weekday `k` places round the week. */
  lemma {:induction false} WeekdayShift(x: int, k: int)
    ensures Weekday(x + k) == (Weekday(x) + k) % 7
  {
    var q := (x + 4) / 7;
    assert x + 4 == 7 * q + Weekday(x);
    assert x + k + 4 == 7 * q + (Weekday(x) + k);
  }

  /** One position of the grid: a leading blank or a day button. */
  datatype GridCell = Blank | DayButton(day: nat, key: string, active: bool, isToday: bool)

  /** The `firstDayOfMonth` empty cells before day 1. */
  function Blanks(n: nat): (b: seq<GridCell>)
    ensures |b| == n && forall i :: 0 <= i < n ==> b[i].Blank?
  {
    seq(n, _ => Blank)
  }

  /**
   * One button per day of the month, in order. A button is active when its
   * day is a fasting day, and ringed as today on the 16th of any January.
   */
  function Buttons(y: int, m: int, user: UserProfile): (b: seq<GridCell>)
    requires 0 <= m < 12
    ensures |b| == DaysInMonth(y, m)
    ensures forall i :: 0 <= i < |b| ==> b[i].DayButton? && b[i].day == i + 1
  {
    seq(DaysInMonth(y, m), i requires 0 <= i < DaysInMonth(y, m) =>
      var day := i + 1;
      var key := DateKey(y, m, day);
      DayButton(day, key,
        IsFastingDay(user.fastingDays, user.recurringFasting, key, Weekday(DayNumber(y, m, day))),
        day == 16 && m == 0))
  }

  /** Button `j` carries the key of day `j + 1` and is active as `isFastingDay` says for that date. */
  lemma ButtonAt(y: int, m: int, user: UserProfile, j: int)
    requires 0 <= m < 12 && 0 <= j < DaysInMonth(y, m)
    ensures var c := Buttons(y, m, user)[j];
      && c.key == DateKey(y, m, j + 1)
      && (c.active <==> IsFastingDay(user.fastingDays, user.recurringFasting, c.key, Weekday(DayNumber(y, m, j + 1))))
      && (c.isToday <==> j == 15 && m == 0)
  {
  }

  /** The month grid: the blanks, then the day buttons. */
  function Grid(y: int, m: int, user: UserProfile): (g: seq<GridCell>)
    requires 0 <= m < 12
    ensures |g| == FirstDayOfMonth(y, m) + DaysInMonth(y, m)
  {
    Blanks(FirstDayOfMonth(y, m)) + Buttons(y, m, user)
  }

  /**
   * The grid starts with one blank per weekday before day 1; every later
   * cell is the button of its day, standing in the column of its weekday
   * under the Sunday-first header, carrying its date's key and active exactly
   * as `isFastingDay` says for that date.
   */
  lemma GridColumns(y: int, m: int, user: UserProfile)
    requires 0 <= m < 12
    ensures var g := Grid(y, m, user);
      && (forall i :: 0 <= i < FirstDayOfMonth(y, m) ==> g[i].Blank?)
      && forall i :: FirstDayOfMonth(y, m) <= i < |g| ==>
        && g[i].DayButton? && g[i].day == i - FirstDayOfMonth(y, m) + 1
        && i % 7 == Weekday(DayNumber(y, m, g[i].day))
        && g[i].key == DateKey(y, m, g[i].day)
        && (g[i].active <==> IsFastingDay(user.fastingDays, user.recurringFasting, g[i].key, i % 7))
  {
    var first := FirstDayOfMonth(y, m);
    var g := Grid(y, m, user);
    forall i | 0 <= i < first
      ensures g[i].Blank?
    {
      CellAt(y, m, user, i);
    }
    forall i | first <= i < |g|
      ensures g[i].DayButton? && g[i].day == i - first + 1
      ensures i % 7 == Weekday(DayNumber(y, m, g[i].day))
      ensures g[i].key == DateKey(y, m, g[i].day)
      ensures g[i].active <==> IsFastingDay(user.fastingDays, user.recurringFasting, g[i].key, i % 7)
    {
      CellAt(y, m, user, i);
      ButtonAt(y, m, user, i - first);
      DayColumn(y, m, i);
    }
  }

  /** Cell `i` of the grid is a blank before `firstDayOfMonth` and the button `i - firstDayOfMonth` after it. */
  lemma CellAt(y: int, m: int, user: UserProfile, i: int)
    requires 0 <= m < 12 && 0 <= i < FirstDayOfMonth(y, m) + DaysInMonth(y, m)
    ensures var g, first := Grid(y, m, user), FirstDayOfMonth(y, m);
      if i < first then g[i].Blank? else g[i] == Buttons(y, m, user)[i - first]
  {
  }

  /** Position `i` of the grid, counted from the first blank, is in the column of the weekday of its day. */
  lemma DayColumn(y: int, m: int, i: int)
    requires 0 <= m < 12 && FirstDayOfMonth(y, m) <= i
    ensures i % 7 == Weekday(DayNumber(y, m, i - FirstDayOfMonth(y, m) + 1))
  {
    var first := FirstDayOfMonth(y, m);
    DayNumberOffset(y, m, i - first + 1);
    WeekdayShift(DayNumber(y, m, 1), i - first);
  }

  /**
   * Which buttons of a month's grid are highlighted: those of listed dates
   * and, under the Monday/Thursday recurrence, every button in the Monday
   * and Thursday columns; without the recurrence, the listed dates alone.
   */
  lemma ActiveButtons(y: int, m: int, user: UserProfile, i: int)
    requires 0 <= m < 12 && FirstDayOfMonth(y, m) <= i < FirstDayOfMonth(y, m) + DaysInMonth(y, m)
    ensures var c := Grid(y, m, user)[i];
      c.DayButton? &&
      (c.active <==> c.key in user.fastingDays || (user.recurringFasting == MondayThursday && (i % 7 == 1 || i % 7 == 4)))
    ensures user.recurringFasting == NoRecurrence ==>
      (Grid(y, m, user)[i].active <==> Grid(y, m, user)[i].key in user.fastingDays)
  {
    var first := FirstDayOfMonth(y, m);
    CellAt(y, m, user, i);
    ButtonAt(y, m, user, i - first);
    DayColumn(y, m, i);
  }

  /** A record with no listed day and no recurrence highlights no button of any month. */
  lemma NothingHighlighted(y: int, m: int, user: UserProfile, i: int)
    requires 0 <= m < 12 && FirstDayOfMonth(y, m) <= i < FirstDayOfMonth(y, m) + DaysInMonth(y, m)
    requires user.fastingDays == [] && user.recurringFasting == NoRecurrence
    ensures Grid(y, m, user)[i].DayButton? && !Grid(y, m, user)[i].active
  {
    ActiveButtons(y, m, user, i);
  }

  /** The grid's last button is the month's last day: `new Date(y, m + 1, 0)`. */
  lemma GridEndsOnLastDay(y: int, m: int, user: UserProfile)
    requires 0 <= m < 12
    ensures var g := Grid(y, m, user);
      g[|g| - 1].DayButton? && DayNumber(y, m, g[|g| - 1].day) == DayNumber(y, m + 1, 0)
  {
    LastDayOfMonth(y, m);
  }

  // -------------------------------------------------------------- screen

  /** The calendar screen: the shown month and the user record it edits. */
  class FastingScreen {
    var year: int
    var month: int
    var user: UserProfile

    predicate Valid()
      reads this
    {
      0 <= month < 12
    }

    /** The screen opens on January 2026. */
    constructor (u: UserProfile)
      ensures Valid() && year == 2026 && month == 0 && user == u
    {
      year, month, user := 2026, 0, u;
    }

    /** `toggleDay(dayStr)`: only the fasting-day list of the user record changes. */
    method ToggleDay(key: string)
      modifies this
      ensures user == old(user).(fastingDays := Toggle(old(user.fastingDays), key))
      ensures year == old(year) && month == old(month)
    {
      var newDays := user.fastingDays;
      if key in newDays {
        newDays := Filter(newDays, Differs(key));
      } else {
        newDays := newDays + [key];
      }
      user := user.(fastingDays := newDays);
    }

    /** The recurring button: 'mon-thu' becomes 'none' and anything else 'mon-thu'. */
    method ToggleRecurring()
      modifies this
      ensures old(user.recurringFasting) == MondayThursday ==> user.recurringFasting == NoRecurrence
      ensures old(user.recurringFasting) != MondayThursday ==> user.recurringFasting == MondayThursday
      ensures user == old(user).(recurringFasting := user.recurringFasting)
      ensures year == old(year) && month == old(month)
    {
      var next := if user.recurringFasting == MondayThursday then NoRecurrence else MondayThursday;
      user := user.(recurringFasting := next);
    }

    /** `setMonth(getMonth() - 1)` on the first of the month: the previous month, across a year end too. */
    method PrevMonth()
      requires Valid()
      modifies this
      ensures Valid()
      ensures DayNumber(year, month, 1) == DayNumber(old(year), old(month) - 1, 1)
      ensures year * 12 + month == old(year * 12 + month) - 1
      ensures user == old(user)
    {
      if month == 0 {
        year, month := year - 1, 11;
      } else {
        month := month - 1;
      }
    }

    /** `setMonth(getMonth() + 1)` on the first of the month: the next month, across a year end too. */
    method NextMonth()
      requires Valid()
      modifies this
      ensures Valid()
      ensures DayNumber(year, month, 1) == DayNumber(old(year), old(month) + 1, 1)
      ensures year * 12 + month == old(year * 12 + month) + 1
      ensures user == old(user)
    {
      if month == 11 {
        year, month := year + 1, 0;
      } else {
        month := month + 1;
      }
    }
  }
}
