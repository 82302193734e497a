# Clock picker core of WWCalendarTimeSelector

This project models the discrete rules behind the picker's analog clock and
the selector's bookkeeping. The original is a UIKit date/time picker with two
near-identical variants: the calendar selector `WWCalendarTimeSelector` and
the time-only `VNClockViewController`. The model proves properties of:

- **Touch quantisation** (`ClockGeometry`). A touch angle, in degrees
  clockwise from twelve o'clock, becomes the index of a clock mark. The steps
  are the clamp of a negative angle, the half-step shift, the floor plus one,
  and the wrap of an out-of-range index to 0. The method `MarkIndex` is proved
  to return the unique mark whose *sector* holds the angle. `InSector` is an
  independent, geometric description of which angles each mark owns. It
  measures the clamped angle in mark widths (`Position`), and
  `InSectorDegrees` restates it in degrees.
- **Hours and minutes** (`TimeOfDay`). This covers the minute-step option,
  the hour marks `12, 1, …, 11`, and `get12Hour`. It also covers hour
  resolution for a tapped mark (the AM/PM half is kept) and the AM/PM switch
  arithmetic. The display-mode rule of `showTime` is here too, along with the
  minute table `0, step, 2·step, … < 60`. The hour and minute of the current
  date are a `CurrentTime` object. The clock's delegate calls update it.
- **The clock view** (`Clock`). `WWClock` and `VNClock` are the same code, so
  one class models both. It covers:
  - the `minuteStep` observer that rebuilds the minute marks in a loop;
  - `touchClock`, which sets the delegate's hour or minute;
  - the highlight and label rules of `draw`: which mark gets the needle and
    ring, which ring size, and which numbers are written.
- **The style flags** (`SelectorStyle`). `WWCalendarTimeSelectorStyle` and
  `VNCalendarTimeSelectorStyle` have the same setters. Their singular
  initialisers differ, so one class has two named constructors. The setters
  keep date-with-month and month exclusive. A singular style keeps at most one
  component on.
- **The date range** (`DateRange`). Days are integer day numbers. The setters
  keep `start <= end`. `array` lists every day of the range.
- **The two hosts** (`CalendarTimeSelector`, `VNClockController`). This covers
  `showTime(_:animated:)` and the AM/PM switch. The VN variant also sets the
  AM/PM button highlight and has a first-layout step. Both hosts keep the
  promise of the sixty-minute step as an object invariant: the clock never
  shows minutes.

Two places where the source's behaviour is easy to misread:
- A touch exactly on the boundary between two marks selects the higher index.
  The lower edge of each sector is closed. This is what the code's floor does.
- A user tap toggles the hour/minute mode whenever the time component is
  already current, whichever mode is showing.

The time-only controller's style starts with the time component current. Its
first layout performs a tap and then switches to AM. So it opens in minute
mode unless the step is sixty minutes, and the hour always ends before noon.
`VNClockController.ClockViewController.ViewDidLayoutSubviews` states both.

## Model

| member | source | states |
|---|---|---|
| `ClockGeometry.InSectorDegrees` | Sources/WWCalendarTimeSelector.swift:1297-1304 | a touch lies in the sector of mark `k` (for `0 < k < count`) exactly when its clamped angle is at most half a width before `k` widths and less than half a width after |
| `ClockGeometry.ShiftedQuotient` | Sources/WWCalendarTimeSelector.swift:1303-1304 | `(angle - width/2) / width`, the quotient the source floors, is the position in mark widths less one half |
| `ClockGeometry.MarkIndex` | Sources/WWCalendarTimeSelector.swift:1297-1308 | the touch index, computed with the mark width `360 / count` and the clamp of a negative angle to 0, is always in `[0, count-1]` and is a mark whose sector holds the angle (same code for minutes at lines 1320-1331 and in VNClockViewController.swift:684-693) |
| `ClockGeometry.FloorSector` | Sources/WWCalendarTimeSelector.swift:1303-1304 | an in-range value of `floor((angle - width/2) / width) + 1` names the sector of the angle; an out-of-range value only occurs in mark 0's sector |
| `ClockGeometry.SectorUnique` | Sources/WWCalendarTimeSelector.swift:1299-1308 | no angle lies in two sectors, so the selected mark is determined by the angle |
| `ClockGeometry.MarkAngleSelectsMark` | Sources/WWCalendarTimeSelector.swift:1299-1308 | an angle of exactly `k * (360 / count)` selects mark `k` |
| `ClockGeometry.PastLastSectorWrapsToZero` | Sources/WWCalendarTimeSelector.swift:1306-1308 | every angle at or past the half-step before 360 degrees lies in mark 0's sector, so with `SectorUnique` it selects mark 0 (wrap to the first mark, not a modulo reduction) |
| `ClockGeometry.NegativeAngleSelectsTop` | Sources/WWCalendarTimeSelector.swift:1300-1302 | a negative angle lies in mark 0's sector, so with `SectorUnique` it selects mark 0 |
| `TimeOfDay.TimeStep.Minutes` | Sources/WWCalendarTimeSelector.swift:116-130 | every step divides 60; the step is below 5 only for one minute and is 60 only for sixty minutes |
| `TimeOfDay.Get12Hour` | Sources/WWCalendarTimeSelector.swift:1255-1258 | the 12-hour value lies in 1..12 and equals the hour modulo 12, so 0 and 12 give 12 (same code at VNClockViewController.swift:640-643) |
| `TimeOfDay.HighlightedHourMark` | Sources/WWCalendarTimeSelector.swift:1090-1095 | exactly one entry of the hour marks equals `get12Hour`, the one at index `hour % 12` |
| `TimeOfDay.ResolveHour` | Sources/WWCalendarTimeSelector.swift:1310-1317 | the hour set by tapping mark `h` is a valid hour in the same half of the day as before, and its 12-hour form is `h` (same code at VNClockViewController.swift:695-702) |
| `TimeOfDay.ResolveHighlightedMark` | Sources/WWCalendarTimeSelector.swift:1310-1317 | tapping the highlighted hour mark leaves the hour unchanged |
| `TimeOfDay.SwitchedHour` | Sources/WWCalendarTimeSelector.swift:942-951 | the switched hour keeps `hour % 12`; PM puts it at 12 or above, AM alone below 12; with neither flag it is unchanged |
| `TimeOfDay.SwitchKeepsMark` | Sources/WWCalendarTimeSelector.swift:942-951 | the switch never moves the highlighted hour mark and is idempotent |
| `TimeOfDay.NextShowingHour` | Sources/WWCalendarTimeSelector.swift:831-843 | a sixty-minute step gives hour mode; otherwise a tap toggles when time is shown and selects hours when it is not, and a non-tap call keeps the mode |
| `TimeOfDay.DoubleTapRestoresMode` | Sources/WWCalendarTimeSelector.swift:831-843 | two taps while the time is shown restore the mode |
| `TimeOfDay.MinuteTableShape` | Sources/WWCalendarTimeSelector.swift:1012-1020 | the minute table starts at 0, rises strictly, stays in 0..59, and holds exactly the minutes that are multiples of the step |
| `TimeOfDay.CurrentTime.SetHourMilitary` | Sources/WWCalendarTimeSelector.swift:965-969 | the delegate's hour becomes the given hour and the minute is kept |
| `TimeOfDay.CurrentTime.SetMinute` | Sources/WWCalendarTimeSelector.swift:971-975 | the delegate's minute becomes the given minute and the hour is kept |
| `Clock.Clock.constructor` | Sources/WWCalendarTimeSelector.swift:682-684 | a clock set up by the selector has its delegate and step, valid minute marks, and shows hours |
| `Clock.Clock.SetMinuteStep` | Sources/WWCalendarTimeSelector.swift:1012-1020 | after setting a step the table has `60 / step` entries and entry `i` is `i * step` (same code at VNClockViewController.swift:397-405) |
| `Clock.Clock.TouchClock` | Sources/WWCalendarTimeSelector.swift:1293-1336 | in hour mode the delegate's hour becomes the resolved hour of the mark whose sector holds the angle, minute kept; in minute mode the delegate's minute becomes that mark's minute, a multiple of the step, hour kept (same code at VNClockViewController.swift:678-720) |
| `Clock.Clock.DrawHourMarks` | Sources/WWCalendarTimeSelector.swift:1075-1138 | every hour mark is labelled; exactly one, the one at index `hour % 12`, is highlighted and gets the full ring |
| `Clock.Clock.DrawMinuteMarks` | Sources/WWCalendarTimeSelector.swift:1140-1243 | at most one minute mark is highlighted, and one is exactly when the minute is a multiple of the step; only multiples of 5 are labelled; a highlighted unlabelled mark gets the small ring (same code at VNClockViewController.swift:525-628) |
| `Clock.MultiplesOfStepAreLabelled` | Sources/WWCalendarTimeSelector.swift:1194-1217 | with a step of 5 or more, every multiple of the step is a multiple of 5, so every mark is labelled |
| `SelectorStyle.Style.CountComponents` | Sources/WWCalendarTimeSelector.swift:55-60 | the count is in 0..4; it is 0 exactly when every component is off and 4 exactly when all are on |
| `SelectorStyle.Style.constructor` | Sources/WWCalendarTimeSelector.swift:12-16 | the default style shows date, year and time, not month, and is not singular |
| `SelectorStyle.Style.SingularDate` | Sources/WWCalendarTimeSelector.swift:62-69 | the calendar selector's singular style has only the date component on |
| `SelectorStyle.Style.SingularTime` | Sources/VNClockViewController.swift:63-70 | the clock controller's singular style has only the time component on |
| `SelectorStyle.Style.ShowDateMonth` | Sources/WWCalendarTimeSelector.swift:18-26 | switching date-with-month on clears month; in singular mode only it stays on; the invariant is kept |
| `SelectorStyle.Style.ShowMonth` | Sources/WWCalendarTimeSelector.swift:28-36 | switching month on clears date-with-month; in singular mode only it stays on; the invariant is kept |
| `SelectorStyle.Style.ShowYear` | Sources/WWCalendarTimeSelector.swift:38-45 | sets year; in singular mode switching it on turns every other component off |
| `SelectorStyle.Style.ShowTime` | Sources/WWCalendarTimeSelector.swift:47-53 | sets time; in singular mode switching it on turns every other component off (same setters at VNClockViewController.swift:18-54) |
| `DateRange.DateRange.constructor` | Sources/WWCalendarTimeSelector.swift:132-133 | a new range starts and ends today |
| `DateRange.DateRange.SetStartDate` | Sources/WWCalendarTimeSelector.swift:145-150 | after setting the start, `start <= end`; the end moves, to the start, only if the start would pass it |
| `DateRange.DateRange.SetEndDate` | Sources/WWCalendarTimeSelector.swift:152-157 | after setting the end, `start <= end`; the start moves, to the end, only if the end would fall before it |
| `DateRange.DateRange.Array` | Sources/WWCalendarTimeSelector.swift:134-143 | lists every day from start to end inclusive in ascending order, one entry per day |
| `CalendarTimeSelector.Selector.constructor` | Sources/WWCalendarTimeSelector.swift:594-596 | a selector starts in hour mode with a fresh singular style whose only current component is the date, a fresh current time, and a fresh clock whose delegate is that time and whose step is the option (set up at lines 683-684) |
| `CalendarTimeSelector.Selector.ShowTime` | Sources/WWCalendarTimeSelector.swift:831-849 | the new mode is the display-mode rule applied to the old one; a tap hands it to the clock; time becomes the current component; a sixty-minute step never shows minutes |
| `CalendarTimeSelector.Selector.SwitchAMPM` | Sources/WWCalendarTimeSelector.swift:942-951 | the current hour becomes the switched hour and the minute is kept |
| `VNClockController.ClockViewController.constructor` | Sources/VNClockViewController.swift:80-83 | the controller starts in hour mode with a fresh singular style whose only current component is the time, a fresh current time and a fresh clock wired to it (lines 141-142), and its first layout pending (line 165) |
| `VNClockController.ClockViewController.ShowTime` | Sources/VNClockViewController.swift:196-216 | same display-mode rule as the calendar selector and the same new style state; the button highlights are untouched |
| `VNClockController.ClockViewController.SwitchAMPM` | Sources/VNClockViewController.swift:280-298 | the hour becomes the switched hour; exactly one button is highlighted, AM when `isAM`, PM otherwise |
| `VNClockController.ClockViewController.ViewDidLayoutSubviews` | Sources/VNClockViewController.swift:169-179 | the first layout runs a tap and a switch to AM: the hour ends before noon, AM is highlighted, and a controller opened in hour mode ends in minute mode unless the step is sixty minutes; later layouts change neither mode, hour, buttons nor style; the minute and the minute table are always kept |
| `VNClockController.OpenAtHalfPastThree` | Sources/VNClockViewController.swift:135-179 | a new controller opened at 15:30 with a five-minute step ends its first layout in minute mode at 3:30 with AM highlighted |

## Left out

- The `atan2` call, the degree/radian conversions and `getClockRad` are floating-point trigonometry. The touch angle is an input in degrees (a `real`), and mark positions are not computed.
- Real numbers stand in for `CGFloat`. Rounding is not modelled, and neither is a trap in `Int(floor(...))` on a non-finite angle.
- All CoreGraphics drawing (ellipses, needle lines, transforms, font metrics) is pixel rendering. `draw` is reduced to a value, highlight, ring size and label flag per mark.
- Touch-event plumbing (`touchesEnded`/`touchesMoved`, sorting touches by timestamp) is UIKit event delivery. `TouchClock` receives the angle of the latest touch.
- Animations, `layoutIfNeeded`, orientation handling, storyboard and bundle loading, and notification observers are UI plumbing. The calendar selector's `didRotateOrNot` calls `showTime(false)`, which `ShowTime(false)` covers. Its first-layout step is not modelled.
- Layout ratio properties are screen geometry.
- `Date` calendar arithmetic (`change(hour:)`, `beginningOfDay`, `+ 1.day`, calendar row start dates) lives in extension files that are not part of this model. Time is an integer hour and minute. Dates are integer day numbers, with the beginning of a day as the identity.
- `get60Minute` only returns the current date's minute. It is `CurrentTime.minute` itself, so it has no member of its own.
- `updateDate` label formatting depends on a foreign date formatter.
- Theming colour and font options are plain assignments of UIKit values.
- The delegate is a weak reference in the source. Here it is a plain reference to the `CurrentTime` object that the host also holds.
- `optionTimeStep` is a constant of each host. In the source, `viewDidLoad` copies it into the clock once, and later changes do not reach the clock.
- The storyboard colours of the AM/PM buttons before the first switch are not modelled. The constructor leaves both unhighlighted.
- Multiple and range selection bookkeeping beyond `WWCalendarTimeSelectorDateRange`, calendar and year grids, and `done`/`cancel` delegate calls are outside this core.
