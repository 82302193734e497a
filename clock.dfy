/** The analog clock view (`WWClock`; `VNClock` is the same code under other
    names): its minute step and minute marks, whether it shows hours or
    minutes, the touch handling that sets the delegate's hour or minute,
    and which marks `draw` highlights and labels. Pixel drawing is not
    modelled; `draw` is reduced to one `MarkRender` per mark.
 */
module Clock {
  import opened TimeOfDay
  import ClockGeometry

  /** The highlight circle behind a mark: none, the small ring used for an
      unlabelled one-minute position, or the full ring. */
  datatype Ring = NoRing | SmallRing | LargeRing

  /** What `draw` does for one mark: its value, whether it is the current
      one (needle, ring and highlight font), the ring size, and whether its
      number is written. */
  datatype MarkRender = MarkRender(value: int, highlighted: bool, ring: Ring, labelled: bool)

  /** Drawing of one hour mark given the current 12-hour value. */
  function HourMarkRender(element: int, currentHour: int): (r: MarkRender)
  {
    var current := element == currentHour;
    MarkRender(element, current, if current then LargeRing else NoRing, true)
  }

  /** Drawing of one minute mark given the current minute and the step. */
  function MinuteMarkRender(element: int, currentMinute: int, step: TimeStep): (r: MarkRender)
  {
    var current := element == currentMinute;
    var between := step.Minutes() < 5 && element % 5 != 0;
    MarkRender(element, current,
               if !current then NoRing else if between then SmallRing else LargeRing,
               step.Minutes() >= 5 || element % 5 == 0)
  }

  class Clock {
    var showingHour: bool
    var minuteStep: TimeStep
    var minutes: seq<int>
    var delegate: CurrentTime

    ghost predicate Valid()
      reads this
    {
      IsMinuteTable(minutes, minuteStep)
    }

    /** A clock as the selector sets it up in `viewDidLoad`: delegate and
        minute step assigned, hours shown. */
    constructor (step: TimeStep, delegate: CurrentTime)
      ensures Valid() && showingHour && minuteStep == step && this.delegate == delegate
    {
      showingHour := true;
      this.delegate := delegate;
      minuteStep := step;
      new;
      SetMinuteStep(step);
    }

    /** The `minuteStep` observer: rebuild the minute marks
        `0, step, 2 * step, ...` below 60. */
    method SetMinuteStep(step: TimeStep)
      modifies this
      ensures Valid() && minuteStep == step
      ensures |minutes| == 60 / step.Minutes()
      ensures forall i :: 0 <= i < |minutes| ==> minutes[i] == i * step.Minutes()
      ensures showingHour == old(showingHour) && delegate == old(delegate)
    {
      minuteStep := step;
      minutes := [];
      var iter := 60 / step.Minutes();
      for i := 0 to iter
        invariant minuteStep == step && showingHour == old(showingHour) && delegate == old(delegate)
        invariant |minutes| == i
        invariant forall j :: 0 <= j < i ==> minutes[j] == j * step.Minutes()
      {
        minutes := minutes + [i * step.Minutes()];
      }
    }

    /** `touchClock`: the touch angle picks a mark (the one whose sector holds
        it); in hour mode the delegate's hour becomes that mark's hour in the
        current half of the day, in minute mode the delegate's minute becomes
        the mark's minute. The ghost result is the picked mark's index. */
    method TouchClock(angle: real) returns (ghost index: int)
      requires Valid() && delegate.Valid()
      modifies delegate
      ensures delegate.Valid()
      ensures showingHour ==>
                0 <= index < |Hours| && ClockGeometry.InSector(angle, |Hours|, index) &&
                delegate.hour == ResolveHour(Hours[index], old(delegate.hour)) &&
                delegate.minute == old(delegate.minute)
      ensures !showingHour ==>
                0 <= index < |minutes| && ClockGeometry.InSector(angle, |minutes|, index) &&
                delegate.minute == minutes[index] &&
                delegate.minute % minuteStep.Minutes() == 0 &&
                delegate.hour == old(delegate.hour)
    {
      MinuteTableShape(minutes, minuteStep);
      if showingHour {
        var i := ClockGeometry.MarkIndex(angle, |Hours|);
        var hour := Hours[i];
        var time := delegate.hour;
        if hour == 12 {
          delegate.SetHourMilitary(if time < 12 then 0 else 12);
        } else {
          delegate.SetHourMilitary(if time < 12 then hour else 12 + hour);
        }
        index := i;
      } else {
        var i := ClockGeometry.MarkIndex(angle, |minutes|);
        delegate.SetMinute(minutes[i]);
        index := i;
      }
    }

    /** The hour face of `draw`: every mark is written, and exactly one, the
        mark at index `hour % 12` that shows the hour, is highlighted. */
    method DrawHourMarks(hour: int) returns (marks: seq<MarkRender>)
      requires IsHour(hour)
      ensures |marks| == |Hours|
      ensures forall i :: 0 <= i < |marks| ==> marks[i].value == Hours[i] && marks[i].labelled
      ensures forall i :: 0 <= i < |marks| ==> (marks[i].highlighted <==> i == hour % 12)
      ensures forall i :: 0 <= i < |marks| ==> (marks[i].ring == LargeRing <==> marks[i].highlighted)
      ensures forall i :: 0 <= i < |marks| ==> marks[i].ring != SmallRing
    {
      var currentHour := Get12Hour(hour);
      marks := [];
      for i := 0 to |Hours|
        invariant |marks| == i
        invariant forall j :: 0 <= j < i ==> marks[j] == HourMarkRender(Hours[j], currentHour)
      {
        marks := marks + [HourMarkRender(Hours[i], currentHour)];
      }
      forall i | 0 <= i < |marks| ensures marks[i].highlighted <==> i == hour % 12 {
        HighlightedHourMark(hour, i);
      }
    }

    /** The minute face of `draw`: one entry per minute mark; a mark is
        highlighted exactly when it equals the current minute, so at most one
        is, and one is unless the minute is off the step; only multiples of
        5 are written, and a highlighted mark between them (one-minute step)
        gets the small ring. */
    method DrawMinuteMarks(minute: int) returns (marks: seq<MarkRender>)
      requires Valid() && IsMinute(minute)
      ensures |marks| == |minutes|
      ensures forall i :: 0 <= i < |marks| ==> marks[i].value == minutes[i]
      ensures forall i :: 0 <= i < |marks| ==> (marks[i].highlighted <==> minutes[i] == minute)
      ensures forall i, j :: 0 <= i < |marks| && 0 <= j < |marks| && marks[i].highlighted && marks[j].highlighted ==> i == j
      ensures (exists i :: 0 <= i < |marks| && marks[i].highlighted) <==> minute % minuteStep.Minutes() == 0
      ensures forall i :: 0 <= i < |marks| ==> (marks[i].labelled <==> marks[i].value % 5 == 0)
      ensures forall i :: 0 <= i < |marks| ==> (marks[i].ring != NoRing <==> marks[i].highlighted)
      ensures forall i :: 0 <= i < |marks| ==>
                (marks[i].ring == SmallRing <==> marks[i].highlighted && !marks[i].labelled)
    {
      var currentMinute := minute;
      marks := [];
      for i := 0 to |minutes|
        invariant |marks| == i
        invariant forall j :: 0 <= j < i ==> marks[j] == MinuteMarkRender(minutes[j], currentMinute, minuteStep)
      {
        marks := marks + [MinuteMarkRender(minutes[i], currentMinute, minuteStep)];
      }
      MinuteTableShape(minutes, minuteStep);
      MultiplesOfStepAreLabelled(minuteStep);
      if minute % minuteStep.Minutes() == 0 {
        assert minute in minutes;
        var k :| 0 <= k < |minutes| && minutes[k] == minute;
        assert marks[k].highlighted;
      }
    }
  }

  /** Every minute mark of a step of 5 or more is a multiple of 5. */
  lemma MultiplesOfStepAreLabelled(step: TimeStep)
    ensures step.Minutes() >= 5 ==> forall x :: x % step.Minutes() == 0 ==> x % 5 == 0
  {
    if step.Minutes() >= 5 {
      var s := step.Minutes();
      forall x | x % s == 0 ensures x % 5 == 0 {
        assert x == (x / s) * s;
        assert s == (s / 5) * 5;
        assert x == ((x / s) * (s / 5)) * 5;
      }
    }
  }
}
