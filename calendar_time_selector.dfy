/** The time-related state of `WWCalendarTimeSelector`: the hour-or-minute
    display mode, the minute-step option, the current-components style, the
    current date's hour and minute (which the clock view updates through its
    delegate) and the clock view itself.
 */
module CalendarTimeSelector {
  import opened TimeOfDay
  import opened SelectorStyle
  import opened Clock

  class Selector {
    var selTimeStateHour: bool
    const optionTimeStep: TimeStep
    const selCurrent: Style
    const optionCurrentDate: CurrentTime
    const clockView: Clock

    /** The object invariant; its last line is the promise of the
        sixty-minute step: minute selection is never shown. */
    ghost predicate Valid()
      reads this, selCurrent, optionCurrentDate, clockView
    {
      && selCurrent.Valid() && optionCurrentDate.Valid() && clockView.Valid()
      && clockView.delegate == optionCurrentDate
      && clockView.minuteStep == optionTimeStep
      && (optionTimeStep == SixtyMinutes ==> selTimeStateHour && clockView.showingHour)
    }

    /** The selector after `viewDidLoad`: hour mode, only the date component
        current, and a clock whose delegate is this selector's date. */
    constructor (step: TimeStep, hour: int, minute: int)
      requires IsHour(hour) && IsMinute(minute)
      ensures Valid() && selTimeStateHour && optionTimeStep == step
      ensures fresh(selCurrent) && fresh(optionCurrentDate) && fresh(clockView)
      ensures optionCurrentDate.hour == hour && optionCurrentDate.minute == minute
      ensures selCurrent.isSingular
      ensures selCurrent.showDateMonth && !selCurrent.showMonth && !selCurrent.showYear && !selCurrent.showTime
      ensures clockView.showingHour
    {
      selTimeStateHour := true;
      optionTimeStep := step;
      selCurrent := new Style.SingularDate();
      var time := new CurrentTime(hour, minute);
      optionCurrentDate := time;
      clockView := new Clock(step, time);
    }

    /** `showTime(_:animated:)`: update the display mode, make time the
        current component (`changeSelTime`), and on a tap hand the mode to
        the clock view. */
    method ShowTime(userTap: bool)
      requires Valid()
      modifies this, selCurrent, clockView
      ensures Valid()
      ensures selTimeStateHour == NextShowingHour(userTap, old(selCurrent.showTime), optionTimeStep, old(selTimeStateHour))
      ensures clockView.showingHour == if userTap then selTimeStateHour else old(clockView.showingHour)
      ensures clockView.minutes == old(clockView.minutes) && clockView.minuteStep == old(clockView.minuteStep)
      ensures clockView.delegate == old(clockView.delegate)
      ensures selCurrent.showTime && (selCurrent.isSingular ==> selCurrent.CountComponents() == 1)
      ensures !selCurrent.isSingular ==>
                selCurrent.showDateMonth == old(selCurrent.showDateMonth) &&
                selCurrent.showMonth == old(selCurrent.showMonth) &&
                selCurrent.showYear == old(selCurrent.showYear)
    {
      if userTap {
        if selCurrent.showTime {
          selTimeStateHour := !selTimeStateHour;
        } else {
          selTimeStateHour := true;
        }
      }
      if optionTimeStep == SixtyMinutes {
        selTimeStateHour := true;
      }
      selCurrent.ShowTime(true);
      if userTap {
        clockView.showingHour := selTimeStateHour;
      }
    }

    /** `WWClockSwitchAMPM`: move the current hour into the requested half
        of the day, keeping its position on the dial. */
    method SwitchAMPM(isAM: bool, isPM: bool)
      requires Valid()
      modifies optionCurrentDate
      ensures Valid()
      ensures optionCurrentDate.hour == SwitchedHour(old(optionCurrentDate.hour), isAM, isPM)
      ensures optionCurrentDate.minute == old(optionCurrentDate.minute)
    {
      var newHour := optionCurrentDate.hour;
      if isAM && newHour >= 12 {
        newHour := newHour - 12;
      }
      if isPM && newHour < 12 {
        newHour := newHour + 12;
      }
      optionCurrentDate.SetHourMilitary(newHour);
    }
  }
}
