/** Which components a selector shows (`WWCalendarTimeSelectorStyle`, and
    `VNCalendarTimeSelectorStyle`, which has the same setters and differs
    only in its singular initializer). Date-with-month and month exclude
    each other; a singular style has at most one component on, and exactly
    the one last switched on.
 */
module SelectorStyle {

  class Style {
    var showDateMonth: bool
    var showMonth: bool
    var showYear: bool
    var showTime: bool
    const isSingular: bool

    /** Number of components switched on. */
    function CountComponents(): (n: int)
      reads this
      ensures 0 <= n <= 4
      ensures n == 0 <==> !showDateMonth && !showMonth && !showYear && !showTime
      ensures n == 4 <==> showDateMonth && showMonth && showYear && showTime
    {
      (if showDateMonth then 1 else 0) +
      (if showMonth then 1 else 0) +
      (if showYear then 1 else 0) +
      (if showTime then 1 else 0)
    }

    /** What every setter keeps. */
    ghost predicate Valid()
      reads this
    {
      !(showDateMonth && showMonth) && (isSingular ==> CountComponents() <= 1)
    }

    /** The default style: date, year and time on, month off, not singular. */
    constructor ()
      ensures Valid() && !isSingular
      ensures showDateMonth && !showMonth && showYear && showTime
    {
      showDateMonth, showMonth, showYear, showTime := true, false, true, true;
      isSingular := false;
    }

    /** `init(isSingular:)` of the calendar selector: only the date is on. */
    constructor SingularDate()
      ensures Valid() && isSingular && CountComponents() == 1
      ensures showDateMonth && !showMonth && !showYear && !showTime
    {
      showDateMonth, showMonth, showYear, showTime := true, false, false, false;
      isSingular := true;
    }

    /** `init(isSingular:)` of the clock view controller: only the time is on. */
    constructor SingularTime()
      ensures Valid() && isSingular && CountComponents() == 1
      ensures !showDateMonth && !showMonth && !showYear && showTime
    {
      showDateMonth, showMonth, showYear, showTime := false, false, false, true;
      isSingular := true;
    }

    method ShowDateMonth(show: bool)
      requires Valid()
      modifies this
      ensures Valid()
      ensures showDateMonth == show
      ensures show ==> !showMonth
      ensures !show ==> showMonth == old(showMonth)
      ensures showYear == (old(showYear) && !(show && isSingular))
      ensures showTime == (old(showTime) && !(show && isSingular))
      ensures show && isSingular ==> CountComponents() == 1
    {
      showDateMonth := show;
      showMonth := if show then false else showMonth;
      if show && isSingular {
        showMonth := false;
        showYear := false;
        showTime := false;
      }
    }

    method ShowMonth(show: bool)
      requires Valid()
      modifies this
      ensures Valid()
      ensures showMonth == show
      ensures show ==> !showDateMonth
      ensures !show ==> showDateMonth == old(showDateMonth)
      ensures showYear == (old(showYear) && !(show && isSingular))
      ensures showTime == (old(showTime) && !(show && isSingular))
      ensures show && isSingular ==> CountComponents() == 1
    {
      showMonth := show;
      showDateMonth := if show then false else showDateMonth;
      if show && isSingular {
        showDateMonth := false;
        showYear := false;
        showTime := false;
      }
    }

    method ShowYear(show: bool)
      requires Valid()
      modifies this
      ensures Valid()
      ensures showYear == show
      ensures showDateMonth == (old(showDateMonth) && !(show && isSingular))
      ensures showMonth == (old(showMonth) && !(show && isSingular))
      ensures showTime == (old(showTime) && !(show && isSingular))
      ensures show && isSingular ==> CountComponents() == 1
    {
      showYear := show;
      if show && isSingular {
        showDateMonth := false;
        showMonth := false;
        showTime := false;
      }
    }

    method ShowTime(show: bool)
      requires Valid()
      modifies this
      ensures Valid()
      ensures showTime == show
      ensures showDateMonth == (old(showDateMonth) && !(show && isSingular))
      ensures showMonth == (old(showMonth) && !(show && isSingular))
      ensures showYear == (old(showYear) && !(show && isSingular))
      ensures show && isSingular ==> CountComponents() == 1
    {
      showTime := show;
      if show && isSingular {
        showDateMonth := false;
        showMonth := false;
        showYear := false;
      }
    }
  }
}
