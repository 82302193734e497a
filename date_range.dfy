/** `WWCalendarTimeSelectorDateRange`: a start and an end day. Days are
    integer day numbers, so taking the beginning of a day is the identity
    and adding one day adds 1.
 */
module DateRange {

  class DateRange {
    var start: int
    var end: int

    ghost predicate Valid()
      reads this
    {
      start <= end
    }

    /** Both ends start at today. */
    constructor (today: int)
      ensures Valid() && start == today && end == today
    {
      start, end := today, today;
    }

    /** Move the start; the end follows only if the start would pass it. */
    method SetStartDate(date: int)
      modifies this
      ensures Valid() && start == date
      ensures end == if date > old(end) then date else old(end)
    {
      start := date;
      if start > end {
        end := start;
      }
    }

    /** Move the end; the start follows only if the end would fall before it. */
    method SetEndDate(date: int)
      modifies this
      ensures Valid() && end == date
      ensures start == if date < old(start) then date else old(start)
    {
      end := date;
      if start > end {
        start := end;
      }
    }

    /** The `array` property: every day from start to end, in order, each
        once; empty only if the range is inverted, which the setters never
        leave. */
    method Array() returns (dates: seq<int>)
      ensures |dates| == if start <= end then end - start + 1 else 0
      ensures forall i, j :: 0 <= i < j < |dates| ==> dates[i] < dates[j]
      ensures forall d :: d in dates <==> start <= d <= end
      ensures Valid() ==> |dates| > 0 && dates[0] == start && dates[|dates| - 1] == end
    {
      dates := [];
      var i := start;
      var j := end;
      while i <= j
        invariant i == start || start <= i <= j + 1
        invariant |dates| == i - start
        invariant forall k :: 0 <= k < |dates| ==> dates[k] == start + k
        decreases j - i
      {
        dates := dates + [i];
        i := i + 1;
      }
      forall d | start <= d <= end ensures d in dates {
        assert dates[d - start] == d;
      }
    }
  }
}
