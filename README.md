# Date navigators of react-scheduler, in Dafny

This project models the date arithmetic behind react-scheduler's three
period navigators, `DayDateBtn`, `WeekDateBtn` and `MonthDateBtn`. Each one
shows the current period, has a previous and a next arrow, and has a popover
date picker. For each navigator the model covers:

- the date the previous and next arrows pass to `onChange`;
- the arrow-disabled flags, computed from the optional `minDate`/`maxDate`
  of `navigationPickerProps`;
- the week bounds `weekStart`/`weekEnd` for a configured `weekStartOn`;
- the popover state: `anchorEl` is set by `handleOpen`, cleared by
  `handleClose`, and cleared by `handleChange` after it forwards the picked
  date.

Files:

- `calendar.dfy` (module `Calendar`): the date-fns operations the
  components call. These are `addDays`, `startOfWeek`, `endOfWeek`,
  `setMonth`, `startOfMonth`, `endOfMonth` and `isAfter`, on the proleptic
  Gregorian calendar. `getMonth` is the `month` field of a `Date`, read by
  `MonthNav.CurrentMonth`. They are written from date-fns's
  documented behaviour, because date-fns is not part of this model.
  - An `Instant` is a local calendar date plus a millisecond of the day.
  - Months are numbered 0..11 and weekdays 0 (Sunday) .. 6 (Saturday), as
    in JavaScript.
  - `Ordinal` is the instant's position on one millisecond time line, and
    `isAfter` compares it strictly.
- `day_nav.dfy` (`DayNav`), `week_nav.dfy` (`WeekNav`), `month_nav.dfy`
  (`MonthNav`): one module per component. Each has the emitted dates and
  the flags as functions, lemmas about them, and a class for the
  component instance.
  - The class holds the props and store settings it was rendered with,
    `anchorEl`, and `emitted`.
  - `emitted` logs every date passed to `onChange`, so "calls `onChange`
    exactly once with d" reads `emitted == old(emitted) + [d]`.
- `option.dfy` (`Optional`): the optional value used for `minDate`,
  `maxDate` and the picker's result.

Inputs the components read from elsewhere are parameters:
- `minDate`/`maxDate`, which come from `useStore`;
- the wall-clock "now" that replaces a null pick;
- the clicked button that becomes `anchorEl`.

Two points of the code that shape the model:

- The components compare full instants (`isAfter` on
  `addDays(weekEnd, 1)`, which carries 23:59:59.999), so the model keeps the
  millisecond of the day (`WeekNav.NextDisabledByMidnightMax`).
- `handleOpen` replaces `anchorEl` whatever it held before; so does
  `HandleOpen`.

## Model

| member | source | states |
|---|---|---|
| `Calendar.DaysInMonth` | src/lib/components/nav/MonthDateBtn.tsx:32 | a month has 28..31 days, and 29 exactly when it is February of a Gregorian leap year; `setMonth` clamps to this length |
| `Calendar.Weekday` | src/lib/components/nav/WeekDateBtn.tsx:20-21 | `getDay`, the weekday 0 (Sunday) .. 6 (Saturday) that `startOfWeek` and `endOfWeek` measure from |
| `Calendar.WeekdayAfterNextDay` | src/lib/components/nav/WeekDateBtn.tsx:20-21 | the weekday of the next day is one more, Saturday wrapping to Sunday |
| `Calendar.WeekdayOfUnixEpoch` | src/lib/components/nav/WeekDateBtn.tsx:20-21 | 1 January 1970 is a Thursday (4), which anchors the weekday numbering to the real calendar |
| `Calendar.NextDay` | src/lib/components/nav/DayDateBtn.tsx:35 | the day after a valid date is a valid date whose day number is one more (month and year rollover included) |
| `Calendar.PrevDay` | src/lib/components/nav/DayDateBtn.tsx:31 | the day before a valid date is a valid date whose day number is one less (month and year rollback included) |
| `Calendar.ShiftDate` | src/lib/components/nav/WeekDateBtn.tsx:20-21 | moving a date by n days, one day at a time, gives a valid date exactly n day numbers away |
| `Calendar.IsAfter` | src/lib/components/nav/DayDateBtn.tsx:44 | `isAfter` is a strict comparison on the time line: true exactly when the first instant's date is later in the calendar, or the dates are equal and its time of day is later |
| `Calendar.OrdinalFollowsCalendar` | src/lib/components/nav/DayDateBtn.tsx:52 | the millisecond position on the time line orders instants by calendar date first and by time of day second, in both directions |
| `Calendar.AddDays` | src/lib/components/nav/DayDateBtn.tsx:31 | `addDays` keeps the time of day and moves the instant by exactly amount × 86 400 000 ms on the time line |
| `Calendar.DayNumberInjective` | src/lib/components/nav/DayDateBtn.tsx:44 | two valid dates with the same position on the time line are the same date, so `isAfter` compares calendar dates faithfully |
| `Calendar.StartOfWeek` | src/lib/components/nav/WeekDateBtn.tsx:20 | `startOfWeek` gives 00:00 on a day whose weekday is `weekStartsOn`, 0 to 6 days before the given date |
| `Calendar.EndOfWeek` | src/lib/components/nav/WeekDateBtn.tsx:21 | `endOfWeek` gives 23:59:59.999 on the sixth day after `startOfWeek` of the same date |
| `Calendar.SetMonth` | src/lib/components/nav/MonthDateBtn.tsx:32 | `setMonth` lands `month − getMonth(i)` calendar months after the month of `i` (`MonthIndex`), so −1 and 12 carry into the adjacent year; it keeps the day of month when the target month has it, else takes the target month's last day; it keeps the time |
| `Calendar.StartOfMonth` | src/lib/components/nav/MonthDateBtn.tsx:56 | `startOfMonth` is 00:00 on the day (day − 1) days before the given date |
| `Calendar.EndOfMonth` | src/lib/components/nav/MonthDateBtn.tsx:45 | `endOfMonth` is 23:59:59.999 on the day (month length − day) days after the given date |
| `Calendar.EndOfMonthMeetsNextStart` | src/lib/components/nav/MonthDateBtn.tsx:43-56 | the last instant of a month is exactly one millisecond before the first instant of the following month, across year ends too |
| `DayNav.PrevTarget` | src/lib/components/nav/DayDateBtn.tsx:30-33 | the previous-day date has the same time of day, and its next calendar day is the selected date |
| `DayNav.NextTarget` | src/lib/components/nav/DayDateBtn.tsx:34-37 | the next-day date has the same time of day, and its previous calendar day is the selected date |
| `DayNav.DisabledPrev` | src/lib/components/nav/DayDateBtn.tsx:39-45 | disabled exactly when `minDate` is given and lies no earlier than 24 h before the selected instant; never without `minDate` |
| `DayNav.DisabledNext` | src/lib/components/nav/DayDateBtn.tsx:47-53 | disabled exactly when `maxDate` is given and lies less than 24 h after the selected instant; never without `maxDate` |
| `DayNav.PrevNextRoundTrip` | src/lib/components/nav/DayDateBtn.tsx:30-37 | next after previous, and previous after next, give back the selected instant exactly |
| `DayNav.PrevArrowRespectsMin` | src/lib/components/nav/DayDateBtn.tsx:39-45 | the previous arrow is enabled exactly when the date it emits is strictly after `minDate` (always without `minDate`) |
| `DayNav.NextArrowRespectsMax` | src/lib/components/nav/DayDateBtn.tsx:47-53 | the next arrow is enabled exactly when the date it emits is at or before `maxDate` (always without `maxDate`) |
| `DayNav.DayDateBtn.constructor` | src/lib/components/nav/DayDateBtn.tsx:14-16 | a new instance starts with the popover closed (`anchorEl` null) and no date emitted |
| `DayNav.DayDateBtn.Rerender` | src/lib/components/nav/DayDateBtn.tsx:14-15 | new props and store settings replace the old ones; `anchorEl` and the emitted log are kept |
| `DayNav.DayDateBtn.HandleOpen` | src/lib/components/nav/DayDateBtn.tsx:18-20 | `anchorEl` becomes the clicked button, so the popover is open; nothing is emitted |
| `DayNav.DayDateBtn.HandleClose` | src/lib/components/nav/DayDateBtn.tsx:21-23 | `anchorEl` becomes null, so the popover is closed; nothing is emitted |
| `DayNav.DayDateBtn.HandleChange` | src/lib/components/nav/DayDateBtn.tsx:25-28 | exactly one date is emitted, the picked one unchanged or "now" when the picker gives none, and the popover ends closed |
| `DayNav.DayDateBtn.HandlePrev` | src/lib/components/nav/DayDateBtn.tsx:30-33 | exactly one date, the previous day, is emitted; the popover is untouched |
| `DayNav.DayDateBtn.HandleNext` | src/lib/components/nav/DayDateBtn.tsx:34-37 | exactly one date, the next day, is emitted; the popover is untouched |
| `WeekNav.WeekStart` | src/lib/components/nav/WeekDateBtn.tsx:20 | `weekStart` is 00:00 on a `weekStartOn` weekday, at or before the selected instant and less than seven days before its date |
| `WeekNav.WeekEnd` | src/lib/components/nav/WeekDateBtn.tsx:21 | `weekEnd` is the last millisecond of the sixth day after `weekStart`, and at or after the selected instant |
| `WeekNav.WeekStartUnique` | src/lib/components/nav/WeekDateBtn.tsx:20 | `weekStart` is the only date with weekday `weekStartOn` among the seven days ending on the selected date |
| `WeekNav.WeekStartOfDayInWeek` | src/lib/components/nav/WeekDateBtn.tsx:20-21 | every instant between `weekStart` and `weekEnd` has that same week |
| `WeekNav.PrevTarget` | src/lib/components/nav/WeekDateBtn.tsx:35-38 | the previous arrow emits 00:00 on the day whose next day is `weekStart` |
| `WeekNav.NextTarget` | src/lib/components/nav/WeekDateBtn.tsx:40-43 | the next arrow emits 23:59:59.999 on the seventh day after `weekStart` |
| `WeekNav.PrevWeekStartsSevenDaysEarlier` | src/lib/components/nav/WeekDateBtn.tsx:35-38 | the week of the emitted previous date starts exactly seven days before `weekStart` |
| `WeekNav.NextWeekStartsSevenDaysLater` | src/lib/components/nav/WeekDateBtn.tsx:40-43 | the week of the emitted next date starts exactly seven days after `weekStart` |
| `WeekNav.PrevNextSameWeek` | src/lib/components/nav/WeekDateBtn.tsx:35-43 | next after previous returns to the selected date's week |
| `WeekNav.DisablePrev` | src/lib/components/nav/WeekDateBtn.tsx:45-51 | disabled exactly when `minDate` is given and lies no earlier than 00:00 of the day before `weekStart`; never without `minDate` |
| `WeekNav.DisableNext` | src/lib/components/nav/WeekDateBtn.tsx:53-59 | disabled exactly when `maxDate` is given and lies before 23:59:59.999 of the day after `weekEnd`; never without `maxDate` |
| `WeekNav.SameWeekSameFlags` | src/lib/components/nav/WeekDateBtn.tsx:45-59 | two selected dates with the same week give the same `disablePrev` and the same `disableNext` |
| `WeekNav.PrevArrowRespectsMin` | src/lib/components/nav/WeekDateBtn.tsx:45-51 | the previous arrow is enabled exactly when the date it emits is strictly after `minDate` (always without `minDate`) |
| `WeekNav.NextArrowRespectsMax` | src/lib/components/nav/WeekDateBtn.tsx:53-59 | the next arrow is enabled exactly when the date it emits is at or before `maxDate` (always without `maxDate`) |
| `WeekNav.NextDisabledByMidnightMax` | src/lib/components/nav/WeekDateBtn.tsx:57-58 | a `maxDate` at 00:00 on the first day of the next week disables the next arrow, because the emitted date carries 23:59:59.999 |
| `WeekNav.WeekOfTenthJanuary2024` | src/lib/components/nav/WeekDateBtn.tsx:19-21 | with weeks starting on Monday, Wednesday 2024-01-10 lies in the week 2024-01-08 00:00 .. 2024-01-14 23:59:59.999 |
| `WeekNav.WeekDateBtn.constructor` | src/lib/components/nav/WeekDateBtn.tsx:16-19 | a new instance starts with the popover closed and no date emitted |
| `WeekNav.WeekDateBtn.Rerender` | src/lib/components/nav/WeekDateBtn.tsx:16-19 | new props and store settings replace the old ones; `anchorEl` and the emitted log are kept |
| `WeekNav.WeekDateBtn.HandleOpen` | src/lib/components/nav/WeekDateBtn.tsx:23-25 | `anchorEl` becomes the clicked button, so the popover is open; nothing is emitted |
| `WeekNav.WeekDateBtn.HandleClose` | src/lib/components/nav/WeekDateBtn.tsx:26-28 | `anchorEl` becomes null, so the popover is closed; nothing is emitted |
| `WeekNav.WeekDateBtn.HandleChange` | src/lib/components/nav/WeekDateBtn.tsx:30-33 | exactly one date is emitted, the raw picked one (not moved to its week start) or "now" when none, and the popover ends closed |
| `WeekNav.WeekDateBtn.HandlePrev` | src/lib/components/nav/WeekDateBtn.tsx:35-38 | exactly one date, the day before `weekStart`, is emitted; the popover is untouched |
| `WeekNav.WeekDateBtn.HandleNext` | src/lib/components/nav/WeekDateBtn.tsx:40-43 | exactly one date, the day after `weekEnd`, is emitted; the popover is untouched |
| `MonthNav.CurrentMonth` | src/lib/components/nav/MonthDateBtn.tsx:16 | `currentMonth` is a month index 0..11 |
| `MonthNav.PrevTarget` | src/lib/components/nav/MonthDateBtn.tsx:30-33 | the previous arrow emits a date in the previous month (January goes to December of the year before), with the same time, and the same day of month unless that month is shorter, then its last day |
| `MonthNav.NextTarget` | src/lib/components/nav/MonthDateBtn.tsx:34-37 | the next arrow emits a date in the next month (December goes to January of the year after), with the same time, and the same day of month unless that month is shorter, then its last day |
| `MonthNav.DisabledPrev` | src/lib/components/nav/MonthDateBtn.tsx:39-48 | disabled exactly when `minDate` is given and lies no earlier than the millisecond before the selected month begins, i.e. the whole previous month is at or before it; never without `minDate` |
| `MonthNav.DisabledNext` | src/lib/components/nav/MonthDateBtn.tsx:50-59 | disabled exactly when `maxDate` is given and lies no later than the end of the selected month, i.e. the next month begins after it; never without `maxDate` |
| `MonthNav.FlagsDependOnMonthOnly` | src/lib/components/nav/MonthDateBtn.tsx:39-59 | two selected dates in the same year and month give the same flags, whatever their day or time |
| `MonthNav.PrevNextSameMonth` | src/lib/components/nav/MonthDateBtn.tsx:30-37 | next after previous returns to the selected year and month with the same time; the day can only shrink, and is unchanged up to the 28th |
| `MonthNav.NextPrevSameMonth` | src/lib/components/nav/MonthDateBtn.tsx:30-37 | previous after next returns to the selected year and month with the same time; the day can only shrink, and is unchanged up to the 28th |
| `MonthNav.PrevArrowRespectsMin` | src/lib/components/nav/MonthDateBtn.tsx:39-48 | the previous arrow is enabled exactly when the last instant of the emitted date's month is strictly after `minDate` |
| `MonthNav.NextArrowRespectsMax` | src/lib/components/nav/MonthDateBtn.tsx:50-59 | the next arrow is enabled exactly when the first instant of the emitted date's month is at or before `maxDate` |
| `MonthNav.NextMayPassMax` | src/lib/components/nav/MonthDateBtn.tsx:50-59 | from 2024-01-20 with `maxDate` 2024-02-10 the next arrow is enabled and emits 2024-02-20, which is after `maxDate` |
| `MonthNav.PrevClampsEndOfMarch` | src/lib/components/nav/MonthDateBtn.tsx:30-33 | 31 March 2024 steps back to 29 February 2024, and 31 March 2023 to 28 February 2023 |
| `MonthNav.NextDisabledAtEndOfJanuary` | src/lib/components/nav/MonthDateBtn.tsx:50-59 | from 2024-01-15 with `maxDate` 2024-01-31 the next arrow is disabled |
| `MonthNav.MonthDateBtn.constructor` | src/lib/components/nav/MonthDateBtn.tsx:14-17 | a new instance starts with the popover closed and no date emitted |
| `MonthNav.MonthDateBtn.Rerender` | src/lib/components/nav/MonthDateBtn.tsx:14-16 | new props and store settings replace the old ones; `anchorEl` and the emitted log are kept |
| `MonthNav.MonthDateBtn.HandleOpen` | src/lib/components/nav/MonthDateBtn.tsx:19-21 | `anchorEl` becomes the clicked button, so the popover is open; nothing is emitted |
| `MonthNav.MonthDateBtn.HandleClose` | src/lib/components/nav/MonthDateBtn.tsx:22-24 | `anchorEl` becomes null, so the popover is closed; nothing is emitted |
| `MonthNav.MonthDateBtn.HandleChange` | src/lib/components/nav/MonthDateBtn.tsx:26-29 | exactly one date is emitted, the picked one or "now" when none, and the popover ends closed |
| `MonthNav.MonthDateBtn.HandlePrev` | src/lib/components/nav/MonthDateBtn.tsx:30-33 | exactly one date, `setMonth(selectedDate, currentMonth - 1)`, is emitted; the popover is untouched |
| `MonthNav.MonthDateBtn.HandleNext` | src/lib/components/nav/MonthDateBtn.tsx:34-37 | exactly one date, `setMonth(selectedDate, currentMonth + 1)`, is emitted; the popover is untouched |

## Left out

- Rendering: the JSX and the MUI pieces are not modelled. That covers
  `Button`, `Popover` placement, `DateCalendar` with its `views`/`openTo`,
  `DateProvider`, `LocaleArrow` and the aria labels. They are UI toolkit
  code outside this model.
- Label text: the `format(..., "dd MMMM yyyy" / "MMMM yyyy" / "dd MMM yyyy",
  { locale })` labels are not modelled. They are locale-dependent string
  formatting inside date-fns, and `locale` affects nothing else.
- `useStore` and `useMemo`: `minDate`/`maxDate` are inputs, and the
  memoised flags are plain functions of their inputs.
- React's deferred state updates: `setAnchorEl` is modelled as taking
  effect at once. The handlers never read `anchorEl`, so the order of
  effects is the same.
- `new Date()`: the wall-clock "now" is a parameter of `HandleChange`.
- Mouse events: `HandleOpen` receives the clicked button, which stands for
  `event.currentTarget`.
- Time zones and daylight saving: instants are a local date plus a
  millisecond of the day, and every day has 86 400 000 ms. date-fns runs in
  the host's local time, which a model cannot reproduce.
- JavaScript's `Date` range and invalid dates: years are unbounded
  integers, and a `Date` beyond ±8.64·10^15 ms or an "Invalid Date" is not
  represented.
- Min/max checks inside `DateCalendar`: any such check is library
  behaviour. The components forward picked dates without re-checking them,
  and so do the `HandleChange` methods.
- Clicks on a disabled arrow: the toolkit's disabled state makes them
  no-ops, not code in these files. The `HandlePrev`/`HandleNext` methods
  therefore emit their target whatever the flags say (they do not consult
  them).
- `weekStartOn`: it is limited to 0..6 by the subset type `WeekStartDay`,
  as the week props' type limits it. The range check of some date-fns
  versions is not modelled.
