/** The time-related state of `VNClockViewController`, the time-only picker:
    the same display-mode and AM/PM logic as the calendar selector, plus the
    AM and PM buttons, exactly one of which carries the highlight colour
    after a switch, and the first-layout step that runs both.
 */
module VNClockController {
  import opened TimeOfDay
  import opened SelectorStyle
  import opened Clock

  class ClockViewController {
    var selTimeStateHour: bool
    var isFirstLoad: bool
    /** Whether each button's background is the highlight colour (otherwise clear). */
    var amButtonHighlighted: bool
    var pmButtonHighlighted: bool
    const optionTimeStep: TimeStep
    const selCurrent: Style
    const optionCurrentDate: CurrentTime
    const clockView: Clock

    ghost predicate Valid()
      reads this, selCurrent, optionCurrentDate, clockView
    {
      && selCurrent.Valid() && optionCurrentDate.Valid() && clockView.Valid()
      && clockView.delegate == optionCurrentDate
      && clockView.minuteStep == optionTimeStep
      && (optionTimeStep == SixtyMinutes ==> selTimeStateHour && clockView.showingHour)
    }

    /** The controller after `viewDidLoad`: hour mode, only the time
        component current, first layout pending. */
    constructor (step: TimeStep, hour: int, minute: int)
      requires IsHour(hour) && IsMinute(minute)
      ensures Valid() && selTimeStateHour && isFirstLoad && optionTimeStep == step
      ensures fresh(selCurrent) && fresh(optionCurrentDate) && fresh(clockView)
      ensures optionCurrentDate.hour == hour && optionCurrentDate.minute == minute
      ensures selCurrent.isSingular
      ensures !selCurrent.showDateMonth && !selCurrent.showMonth && !selCurrent.showYear && selCurrent.showTime
      ensures clockView.showingHour
    {
      selTimeStateHour := true;
      isFirstLoad := true;
      amButtonHighlighted, pmButtonHighlighted := false, false;
      optionTimeStep := step;
      selCurrent := new Style.SingularTime();
      var time := new CurrentTime(hour, minute);
      optionCurrentDate := time;
      clockView := new Clock(step, time);
    }

    /** `showTime(_:animated:)`, as in the calendar selector. */
    method ShowTime(userTap: bool)
      requires Valid()
      modifies this, selCurrent, clockView
      ensures Valid()
      ensures selTimeStateHour == NextShowingHour(userTap, old(selCurrent.showTime), optionTimeStep, old(selTimeStateHour))
      ensures clockView.showingHour == if userTap then selTimeStateHour else old(clockView.showingHour)
      ensures clockView.minutes == old(clockView.minutes) && clockView.minuteStep == old(clockView.minuteStep)
      ensures clockView.delegate == old(clockView.delegate)
      ensures selCurrent.showTime && (selCurrent.isSingular ==> selCurrent.CountComponents() == 1)
      ensures !selCurrent.isSingular ==>
                selCurrent.showDateMonth == old(selCurrent.showDateMonth) &&
                selCurrent.showMonth == old(selCurrent.showMonth) &&
                selCurrent.showYear == old(selCurrent.showYear)
      ensures isFirstLoad == old(isFirstLoad)
      ensures amButtonHighlighted == old(amButtonHighlighted) && pmButtonHighlighted == old(pmButtonHighlighted)
    {
      if userTap {
        if selCurrent.showTime {
          selTimeStateHour := !selTimeStateHour;
        } else {
          selTimeStateHour := true;
        }
      }
      if optionTimeStep == SixtyMinutes {
        selTimeStateHour := true;
      }
      selCurrent.ShowTime(true);
      if userTap {
        clockView.showingHour := selTimeStateHour;
      }
    }

    /** `VNClockSwitchAMPM`: move the hour into the requested half of the
        day and highlight the AM button when `isAM`, the PM button otherwise. */
    method SwitchAMPM(isAM: bool, isPM: bool)
      requires Valid()
      modifies this, optionCurrentDate
      ensures Valid()
      ensures optionCurrentDate.hour == SwitchedHour(old(optionCurrentDate.hour), isAM, isPM)
      ensures optionCurrentDate.minute == old(optionCurrentDate.minute)
      ensures amButtonHighlighted == isAM && pmButtonHighlighted == !isAM
      ensures selTimeStateHour == old(selTimeStateHour) && isFirstLoad == old(isFirstLoad)
    {
      var newHour := optionCurrentDate.hour;
      if isAM && newHour >= 12 {
        newHour := newHour - 12;
      }
      if isPM && newHour < 12 {
        newHour := newHour + 12;
      }
      optionCurrentDate.SetHourMilitary(newHour);
      if isAM {
        amButtonHighlighted, pmButtonHighlighted := true, false;
      } else {
        amButtonHighlighted, pmButtonHighlighted := false, true;
      }
    }

    /** The first-load branch of `viewDidLayoutSubviews`: a tap on the time
        followed by a switch to AM. With the time component already current
        the tap toggles, so a picker opened in hour mode ends in minute mode
        (unless the step is sixty minutes), and the hour always ends before
        noon. */
    method ViewDidLayoutSubviews()
      requires Valid()
      modifies this, selCurrent, clockView, optionCurrentDate
      ensures Valid() && !isFirstLoad
      ensures old(isFirstLoad) ==>
                selTimeStateHour == NextShowingHour(true, old(selCurrent.showTime), optionTimeStep, old(selTimeStateHour)) &&
                clockView.showingHour == selTimeStateHour &&
                optionCurrentDate.hour == SwitchedHour(old(optionCurrentDate.hour), true, false) &&
                optionCurrentDate.hour < 12 &&
                amButtonHighlighted && !pmButtonHighlighted &&
                selCurrent.showTime && (selCurrent.isSingular ==> selCurrent.CountComponents() == 1)
      ensures old(isFirstLoad) && old(selCurrent.showTime) && old(selTimeStateHour) && optionTimeStep != SixtyMinutes ==>
                !clockView.showingHour
      ensures !old(isFirstLoad) ==>
                selTimeStateHour == old(selTimeStateHour) && clockView.showingHour == old(clockView.showingHour) &&
                optionCurrentDate.hour == old(optionCurrentDate.hour) &&
                amButtonHighlighted == old(amButtonHighlighted) && pmButtonHighlighted == old(pmButtonHighlighted) &&
                selCurrent.showDateMonth == old(selCurrent.showDateMonth) &&
                selCurrent.showMonth == old(selCurrent.showMonth) &&
                selCurrent.showYear == old(selCurrent.showYear) &&
                selCurrent.showTime == old(selCurrent.showTime)
      ensures !selCurrent.isSingular ==>
                selCurrent.showDateMonth == old(selCurrent.showDateMonth) &&
                selCurrent.showMonth == old(selCurrent.showMonth) &&
                selCurrent.showYear == old(selCurrent.showYear)
      ensures optionCurrentDate.minute == old(optionCurrentDate.minute)
      ensures clockView.minutes == old(clockView.minutes) && clockView.minuteStep == old(clockView.minuteStep)
      ensures clockView.delegate == old(clockView.delegate)
    {
      if isFirstLoad {
        isFirstLoad := false;
        ShowTime(true);
        SwitchAMPM(true, false);
      }
    }
  }

  /** A time picker opened at 15:30 with a five-minute step: after its first
      layout it shows minutes, the time reads 3:30, and AM is highlighted. */
  method OpenAtHalfPastThree() returns (hour: int, minute: int, showingHour: bool, amHighlighted: bool)
    ensures hour == 3 && minute == 30 && !showingHour && amHighlighted
  {
    var c := new ClockViewController(FiveMinutes, 15, 30);
    c.ViewDidLayoutSubviews();
    hour, minute := c.optionCurrentDate.hour, c.optionCurrentDate.minute;
    showingHour, amHighlighted := c.clockView.showingHour, c.amButtonHighlighted;
  }
}
