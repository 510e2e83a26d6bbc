/**
  The month navigator (`MonthDateBtn`): the arrows move the selected date to
  the previous or next month with `setMonth` (day of month clamped to the
  target month's length), each disabled against the optional
  `minDate`/`maxDate`: the previous arrow when the whole previous month lies
  at or before `minDate`, the next arrow when the next month begins after
  `maxDate`. The popover picker forwards any picked date.
*/
module MonthNav {
  import opened Optional
  import opened Calendar

  /** `currentMonth`: `getMonth(selectedDate)`, 0 = January .. 11 = December. */
  function CurrentMonth(selected: Instant): (m: int)
    requires selected.Valid()
    ensures 0 <= m < 12
  {
    selected.date.month
  }

  /** What `handlePrev` emits: `setMonth(selectedDate, currentMonth - 1)`. */
  function PrevTarget(selected: Instant): (r: Instant)
    requires selected.Valid()
    ensures r.Valid() && r.ms == selected.ms
    ensures if selected.date.month == 0
            then r.date.year == selected.date.year - 1 && r.date.month == 11
            else r.date.year == selected.date.year && r.date.month == selected.date.month - 1
    ensures r.date.day == if selected.date.day <= DaysInMonth(r.date.year, r.date.month)
                          then selected.date.day else DaysInMonth(r.date.year, r.date.month)
  {
    SetMonth(selected, CurrentMonth(selected) - 1)
  }

  /** What `handleNext` emits: `setMonth(selectedDate, currentMonth + 1)`. */
  function NextTarget(selected: Instant): (r: Instant)
    requires selected.Valid()
    ensures r.Valid() && r.ms == selected.ms
    ensures if selected.date.month == 11
            then r.date.year == selected.date.year + 1 && r.date.month == 0
            else r.date.year == selected.date.year && r.date.month == selected.date.month + 1
    ensures r.date.day == if selected.date.day <= DaysInMonth(r.date.year, r.date.month)
                          then selected.date.day else DaysInMonth(r.date.year, r.date.month)
  {
    SetMonth(selected, CurrentMonth(selected) + 1)
  }

  /**
    `disabledPrev`: the last instant of the previous month is not strictly
    after `minDate`, i.e. `minDate` is no earlier than the millisecond
    before the selected month begins.
  */
  function DisabledPrev(selected: Instant, minDate: Option<Instant>): (r: bool)
    requires selected.Valid()
    requires minDate.Some? ==> minDate.value.Valid()
    ensures r <==> minDate.Some? && Ordinal(minDate.value) >= Ordinal(StartOfMonth(selected)) - 1
  {
    if minDate.None? then false
    else
      var lastDayOfPrevMonth := EndOfMonth(SetMonth(selected, CurrentMonth(selected) - 1));
      EndOfMonthMeetsNextStart(SetMonth(selected, CurrentMonth(selected) - 1), selected);
      !IsAfter(lastDayOfPrevMonth, minDate.value)
  }

  /**
    `disabledNext`: 00:00 on the first of the next month is strictly after
    `maxDate`, i.e. `maxDate` is no later than the end of the selected month.
  */
  function DisabledNext(selected: Instant, maxDate: Option<Instant>): (r: bool)
    requires selected.Valid()
    requires maxDate.Some? ==> maxDate.value.Valid()
    ensures r <==> maxDate.Some? && Ordinal(maxDate.value) <= Ordinal(EndOfMonth(selected))
  {
    if maxDate.None? then false
    else
      var firstDayOfNextMonth := StartOfMonth(SetMonth(selected, CurrentMonth(selected) + 1));
      EndOfMonthMeetsNextStart(selected, SetMonth(selected, CurrentMonth(selected) + 1));
      IsAfter(firstDayOfNextMonth, maxDate.value)
  }

  /** Both flags depend only on the year and month of the selected date. */
  lemma FlagsDependOnMonthOnly(a: Instant, b: Instant, minDate: Option<Instant>, maxDate: Option<Instant>)
    requires a.Valid() && b.Valid()
    requires minDate.Some? ==> minDate.value.Valid()
    requires maxDate.Some? ==> maxDate.value.Valid()
    requires a.date.year == b.date.year && a.date.month == b.date.month
    ensures DisabledPrev(a, minDate) == DisabledPrev(b, minDate)
    ensures DisabledNext(a, maxDate) == DisabledNext(b, maxDate)
  {
  }

  /**
    Next after previous returns to the selected month at the same time of
    day; the day of month is kept unless the previous month was too short
    for it, in which case it can only have shrunk.
  */
  lemma PrevNextSameMonth(selected: Instant)
    requires selected.Valid()
    ensures var back := NextTarget(PrevTarget(selected));
            && back.date.year == selected.date.year && back.date.month == selected.date.month
            && back.ms == selected.ms && back.date.day <= selected.date.day
            && (selected.date.day <= 28 ==> back == selected)
  {
  }

  /**
    Previous after next returns to the selected month at the same time of
    day, with the same kind of day-of-month shrinkage.
  */
  lemma NextPrevSameMonth(selected: Instant)
    requires selected.Valid()
    ensures var back := PrevTarget(NextTarget(selected));
            && back.date.year == selected.date.year && back.date.month == selected.date.month
            && back.ms == selected.ms && back.date.day <= selected.date.day
            && (selected.date.day <= 28 ==> back == selected)
  {
  }

  /**
    An enabled previous arrow means some instant of the previous month lies
    strictly after `minDate` (its last one); a disabled one means none does.
  */
  lemma PrevArrowRespectsMin(selected: Instant, minDate: Option<Instant>)
    requires selected.Valid()
    requires minDate.Some? ==> minDate.value.Valid()
    ensures minDate.None? ==> !DisabledPrev(selected, minDate)
    ensures minDate.Some? ==>
              (!DisabledPrev(selected, minDate) <==> IsAfter(EndOfMonth(PrevTarget(selected)), minDate.value))
  {
  }

  /**
    An enabled next arrow means the next month begins at or before
    `maxDate`; a disabled one means it begins after it.
  */
  lemma NextArrowRespectsMax(selected: Instant, maxDate: Option<Instant>)
    requires selected.Valid()
    requires maxDate.Some? ==> maxDate.value.Valid()
    ensures maxDate.None? ==> !DisabledNext(selected, maxDate)
    ensures maxDate.Some? ==>
              (!DisabledNext(selected, maxDate) <==> !IsAfter(StartOfMonth(NextTarget(selected)), maxDate.value))
  {
  }

  /**
    Unlike the day and week navigators, an enabled month arrow may emit a
    date beyond the bound: from 20 January 2024 with `maxDate` 10 February
    2024, next is enabled and emits 20 February.
  */
  lemma NextMayPassMax()
    ensures var selected := Instant(Date(2024, 0, 20), 0);
            var maxDate := Instant(Date(2024, 1, 10), 0);
            && !DisabledNext(selected, Some(maxDate))
            && NextTarget(selected) == Instant(Date(2024, 1, 20), 0)
            && IsAfter(NextTarget(selected), maxDate)
  {
  }

  /** 31 March steps back to 29 February in a leap year and to 28 February otherwise. */
  lemma PrevClampsEndOfMarch()
    ensures PrevTarget(Instant(Date(2024, 2, 31), 0)) == Instant(Date(2024, 1, 29), 0)
    ensures PrevTarget(Instant(Date(2023, 2, 31), 0)) == Instant(Date(2023, 1, 28), 0)
  {
  }

  /** From 15 January 2024, a `maxDate` of 31 January 2024 disables next. */
  lemma NextDisabledAtEndOfJanuary()
    ensures DisabledNext(Instant(Date(2024, 0, 15), 0), Some(Instant(Date(2024, 0, 31), 0)))
  {
  }

  /**
    One `MonthDateBtn` instance: the props it was rendered with, the
    settings it reads from the store, its `anchorEl` state, and the log of
    every date it has passed to `onChange`.
  */
  class MonthDateBtn {
    var selectedDate: Instant
    var minDate: Option<Instant>
    var maxDate: Option<Instant>
    var anchorEl: object?
    var emitted: seq<Instant>

    ghost predicate Valid()
      reads this
    {
      && selectedDate.Valid()
      && (minDate.Some? ==> minDate.value.Valid())
      && (maxDate.Some? ==> maxDate.value.Valid())
      && forall k :: 0 <= k < |emitted| ==> emitted[k].Valid()
    }

    /** The popover is shown while `anchorEl` is set. */
    predicate IsOpen()
      reads this
    {
      anchorEl != null
    }

    /** First render: the popover starts closed and nothing has been emitted. */
    constructor (selectedDate: Instant, minDate: Option<Instant>, maxDate: Option<Instant>)
      requires selectedDate.Valid()
      requires minDate.Some? ==> minDate.value.Valid()
      requires maxDate.Some? ==> maxDate.value.Valid()
      ensures Valid() && !IsOpen() && emitted == []
      ensures this.selectedDate == selectedDate && this.minDate == minDate && this.maxDate == maxDate
    {
      this.selectedDate := selectedDate;
      this.minDate := minDate;
      this.maxDate := maxDate;
      anchorEl := null;
      emitted := [];
    }

    /** A later render with new props or settings; the `anchorEl` state survives it. */
    method Rerender(selectedDate: Instant, minDate: Option<Instant>, maxDate: Option<Instant>)
      requires Valid() && selectedDate.Valid()
      requires minDate.Some? ==> minDate.value.Valid()
      requires maxDate.Some? ==> maxDate.value.Valid()
      modifies this`selectedDate, this`minDate, this`maxDate
      ensures Valid()
      ensures this.selectedDate == selectedDate && this.minDate == minDate && this.maxDate == maxDate
    {
      this.selectedDate := selectedDate;
      this.minDate := minDate;
      this.maxDate := maxDate;
    }

    /** `handleOpen`: anchor the popover at the clicked button. */
    method HandleOpen(target: object)
      requires Valid()
      modifies this`anchorEl
      ensures Valid() && IsOpen() && anchorEl == target
    {
      anchorEl := target;
    }

    /** `handleClose`: clear the anchor. */
    method HandleClose()
      requires Valid()
      modifies this`anchorEl
      ensures Valid() && !IsOpen()
    {
      anchorEl := null;
    }

    /** `handleChange`: emit the picked date (or `now` when the picker gives none), then close. */
    method HandleChange(picked: Option<Instant>, now: Instant)
      requires Valid() && now.Valid()
      requires picked.Some? ==> picked.value.Valid()
      modifies this`anchorEl, this`emitted
      ensures Valid() && !IsOpen()
      ensures emitted == old(emitted) + [if picked.Some? then picked.value else now]
    {
      emitted := emitted + [if picked.Some? then picked.value else now];
      HandleClose();
    }

    /** `handlePrev`: emit the same day (clamped) of the previous month; the popover is left as it is. */
    method HandlePrev()
      requires Valid()
      modifies this`emitted
      ensures Valid()
      ensures emitted == old(emitted) + [PrevTarget(selectedDate)]
    {
      var target := PrevTarget(selectedDate);
      emitted := emitted + [target];
    }

    /** `handleNext`: emit the same day (clamped) of the next month; the popover is left as it is. */
    method HandleNext()
      requires Valid()
      modifies this`emitted
      ensures Valid()
      ensures emitted == old(emitted) + [NextTarget(selectedDate)]
    {
      var target := NextTarget(selectedDate);
      emitted := emitted + [target];
    }
  }
}
