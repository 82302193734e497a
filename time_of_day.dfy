/** Time of day as the clock sees it: an hour 0..23 and a minute 0..59 (the
    hour and minute of the selector's current date), the hour marks of the
    face, the minute-step option and its minute marks, and the integer hour
    arithmetic shared by both selector variants.
 */
module TimeOfDay {

  /** The minute-step option; its raw value is the step in minutes. */
  datatype TimeStep = OneMinute | FiveMinutes | TenMinutes | FifteenMinutes | ThirtyMinutes | SixtyMinutes
  {
    function Minutes(): (m: int)
      ensures 0 < m <= 60 && 60 % m == 0
      ensures m < 5 <==> this == OneMinute
      ensures m == 60 <==> this == SixtyMinutes
    {
      match this
      case OneMinute => 1
      case FiveMinutes => 5
      case TenMinutes => 10
      case FifteenMinutes => 15
      case ThirtyMinutes => 30
      case SixtyMinutes => 60
    }
  }

  /** The hour marks of the face, clockwise from the top. */
  const Hours: seq<int> := [12, 1, 2, 3, 4, 5, 6, 7, 8, 9, 10, 11]

  predicate IsHour(hour: int) { 0 <= hour < 24 }

  predicate IsMinute(minute: int) { 0 <= minute < 60 }

  /** The hour mark (1..12) that shows a 24-hour value: same position on the
      dial, i.e. equal modulo 12. */
  function Get12Hour(hour: int): (h: int)
    requires IsHour(hour)
    ensures 1 <= h <= 12
    ensures h % 12 == hour % 12
  {
    if hour == 0 || hour == 12 then 12 else if hour < 12 then hour else hour - 12
  }

  /** Exactly one hour mark shows any hour: the one at index `hour % 12`. */
  lemma HighlightedHourMark(hour: int, i: int)
    requires IsHour(hour) && 0 <= i < |Hours|
    ensures Hours[hour % 12] == Get12Hour(hour)
    ensures Hours[i] == Get12Hour(hour) <==> i == hour % 12
  {
    assert forall j :: 0 <= j < |Hours| ==> Hours[j] == if j == 0 then 12 else j;
  }

  /** The 24-hour value a tap on hour mark `mark` (1..12) sets: the mark's
      hour in the half of the day that `currentHour` is in. */
  function ResolveHour(mark: int, currentHour: int): (h: int)
    requires 1 <= mark <= 12 && IsHour(currentHour)
    ensures IsHour(h)
    ensures h < 12 <==> currentHour < 12
    ensures Get12Hour(h) == mark
  {
    if mark == 12 then
      (if currentHour < 12 then 0 else 12)
    else
      (if currentHour < 12 then mark else 12 + mark)
  }

  /** Tapping the mark that is already highlighted keeps the hour. */
  lemma {:induction false} ResolveHighlightedMark(hour: int)
    requires IsHour(hour)
    ensures ResolveHour(Get12Hour(hour), hour) == hour
  {
    var h := ResolveHour(Get12Hour(hour), hour);
    assert h % 12 == hour % 12;
    assert h < 12 <==> hour < 12;
  }

  /** The AM/PM switch: `isAM` moves an afternoon hour back by 12, then
      `isPM` moves a morning hour forward by 12. */
  function SwitchedHour(hour: int, isAM: bool, isPM: bool): (h: int)
    requires IsHour(hour)
    ensures IsHour(h)
    ensures h % 12 == hour % 12
    ensures isPM ==> h >= 12
    ensures isAM && !isPM ==> h < 12
    ensures !isAM && !isPM ==> h == hour
  {
    var h1 := if isAM && hour >= 12 then hour - 12 else hour;
    if isPM && h1 < 12 then h1 + 12 else h1
  }

  /** The switch never moves the highlighted hour mark, and switching twice
      to the same half of the day is the same as switching once. */
  lemma SwitchKeepsMark(hour: int, isAM: bool, isPM: bool)
    requires IsHour(hour)
    ensures Get12Hour(SwitchedHour(hour, isAM, isPM)) == Get12Hour(hour)
    ensures SwitchedHour(SwitchedHour(hour, isAM, isPM), isAM, isPM) == SwitchedHour(hour, isAM, isPM)
  {
  }

  /** The hour-or-minute display mode after `showTime(userTap)`: a tap
      toggles it when the time is already shown and selects hours when it
      is not, any other call leaves it, and a sixty-minute step always
      ends in hour mode. */
  function NextShowingHour(userTap: bool, timeShown: bool, step: TimeStep, showingHour: bool): (r: bool)
    ensures step == SixtyMinutes ==> r
    ensures step != SixtyMinutes && !userTap ==> r == showingHour
    ensures step != SixtyMinutes && userTap && timeShown ==> r == !showingHour
    ensures userTap && !timeShown ==> r
  {
    var toggled := if userTap then (if timeShown then !showingHour else true) else showingHour;
    if step == SixtyMinutes then true else toggled
  }

  /** Two taps while the time is shown come back to the same mode. */
  lemma DoubleTapRestoresMode(step: TimeStep, showingHour: bool)
    requires step != SixtyMinutes
    ensures NextShowingHour(true, true, step, NextShowingHour(true, true, step, showingHour)) == showingHour
  {
  }

  /** `m` is the minute table of `step`: `0, step, 2 * step, ...` below 60. */
  ghost predicate IsMinuteTable(m: seq<int>, step: TimeStep)
  {
    |m| == 60 / step.Minutes() && forall i :: 0 <= i < |m| ==> m[i] == i * step.Minutes()
  }

  /** What the minute table holds: it starts at 0, rises strictly, stays
      within 0..59, and holds exactly the minutes that are multiples of the
      step. */
  lemma MinuteTableShape(m: seq<int>, step: TimeStep)
    requires IsMinuteTable(m, step)
    ensures |m| > 0 && m[0] == 0
    ensures forall i, j :: 0 <= i < j < |m| ==> m[i] < m[j]
    ensures forall i :: 0 <= i < |m| ==> IsMinute(m[i]) && m[i] % step.Minutes() == 0
    ensures forall x :: x in m <==> IsMinute(x) && x % step.Minutes() == 0
  {
    var s := step.Minutes();
    forall i, j | 0 <= i < j < |m| ensures m[i] < m[j] {
      StepOrder(step, i, j);
    }
    forall i | 0 <= i < |m| ensures IsMinute(m[i]) && m[i] % s == 0 {
      StepMultiple(step, i);
    }
    forall x | IsMinute(x) && x % s == 0 ensures x in m {
      StepQuotient(step, x);
      assert m[x / s] == x;
    }
  }

  /** The `i`-th multiple of a step, for `i` at most the number of marks. */
  lemma StepMultiple(step: TimeStep, i: int)
    requires 0 <= i <= 60 / step.Minutes()
    ensures var s := step.Minutes();
            0 <= i * s <= 60 && (i < 60 / s ==> i * s < 60) && (i * s) % s == 0
  {
    match step
    case OneMinute =>
    case FiveMinutes =>
    case TenMinutes =>
    case FifteenMinutes =>
    case ThirtyMinutes =>
    case SixtyMinutes =>
  }

  /** Multiples of a step grow with the multiplier. */
  lemma StepOrder(step: TimeStep, i: int, j: int)
    requires i < j
    ensures i * step.Minutes() < j * step.Minutes()
  {
    match step
    case OneMinute =>
    case FiveMinutes =>
    case TenMinutes =>
    case FifteenMinutes =>
    case ThirtyMinutes =>
    case SixtyMinutes =>
  }

  /** A minute on the step is the multiple of the step by its quotient, and
      that quotient indexes a mark. */
  lemma StepQuotient(step: TimeStep, x: int)
    requires 0 <= x < 60 && x % step.Minutes() == 0
    ensures (x / step.Minutes()) * step.Minutes() == x && 0 <= x / step.Minutes() < 60 / step.Minutes()
  {
    match step
    case OneMinute =>
    case FiveMinutes =>
    case TenMinutes =>
    case FifteenMinutes =>
    case ThirtyMinutes =>
    case SixtyMinutes =>
  }

  /** The hour and minute of the selector's current date, which the clock
      reads and, through its delegate calls, sets. */
  class CurrentTime {
    var hour: int
    var minute: int

    ghost predicate Valid()
      reads this
    {
      IsHour(hour) && IsMinute(minute)
    }

    constructor (hour: int, minute: int)
      requires IsHour(hour) && IsMinute(minute)
      ensures Valid() && this.hour == hour && this.minute == minute
    {
      this.hour := hour;
      this.minute := minute;
    }

    /** `WWClockSetHourMilitary`: change the hour, keep the minute. */
    method SetHourMilitary(h: int)
      requires Valid() && IsHour(h)
      modifies this
      ensures Valid() && hour == h && minute == old(minute)
    {
      hour := h;
    }

    /** `WWClockSetMinute`: change the minute, keep the hour. */
    method SetMinute(m: int)
      requires Valid() && IsMinute(m)
      modifies this
      ensures Valid() && minute == m && hour == old(hour)
    {
      minute := m;
    }
  }
}
