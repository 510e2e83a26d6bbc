/**
  The week navigator (`WeekDateBtn`): the label spans `startOfWeek` ..
  `endOfWeek` of the selected date for the configured first weekday; the
  previous arrow emits the day before the week, the next arrow the day after
  it, each disabled against the optional `minDate`/`maxDate`; the popover
  picker forwards the raw picked date.
*/
module WeekNav {
  import opened Optional
  import opened Calendar

  /** `weekStartOn`: 0 = Sunday .. 6 = Saturday. */
  type WeekStartDay = w: int | 0 <= w < 7

  /** `weekStart`: 00:00 on the latest `weekStartOn` weekday at or before the selected date. */
  function WeekStart(selected: Instant, weekStartOn: WeekStartDay): (r: Instant)
    requires selected.Valid()
    ensures r.Valid() && r.ms == 0 && Weekday(r.date) == weekStartOn
    ensures Ordinal(r) <= Ordinal(selected)
    ensures DayNumber(selected.date) - DayNumber(r.date) < 7
  {
    StartOfWeek(selected, weekStartOn)
  }

  /** `weekEnd`: the last millisecond of the sixth day after `weekStart`. */
  function WeekEnd(selected: Instant, weekStartOn: WeekStartDay): (r: Instant)
    requires selected.Valid()
    ensures r.Valid() && r.ms == LastMs
    ensures DayNumber(r.date) == DayNumber(WeekStart(selected, weekStartOn).date) + 6
    ensures Ordinal(selected) <= Ordinal(r)
  {
    EndOfWeek(selected, weekStartOn)
  }

  /** What `handlePrev` emits: `addDays(weekStart, -1)`, 00:00 on the last day of the previous week. */
  function PrevTarget(selected: Instant, weekStartOn: WeekStartDay): (r: Instant)
    requires selected.Valid()
    ensures r.Valid() && r.ms == 0
    ensures NextDay(r.date) == WeekStart(selected, weekStartOn).date
  {
    var start := WeekStart(selected, weekStartOn);
    var r := AddDays(start, -1);
    DayNumberInjective(NextDay(r.date), start.date);
    r
  }

  /** What `handleNext` emits: `addDays(weekEnd, 1)`, 23:59:59.999 on the first day of the next week. */
  function NextTarget(selected: Instant, weekStartOn: WeekStartDay): (r: Instant)
    requires selected.Valid()
    ensures r.Valid() && r.ms == LastMs
    ensures DayNumber(r.date) == DayNumber(WeekStart(selected, weekStartOn).date) + 7
  {
    AddDays(WeekEnd(selected, weekStartOn), 1)
  }

  /** `disablePrev`: the day before `weekStart` is not strictly after `minDate`. */
  function DisablePrev(selected: Instant, weekStartOn: WeekStartDay, minDate: Option<Instant>): (r: bool)
    requires selected.Valid()
    requires minDate.Some? ==> minDate.value.Valid()
    ensures r <==> minDate.Some? &&
                   Ordinal(minDate.value) >= Ordinal(WeekStart(selected, weekStartOn)) - MsPerDay
  {
    if minDate.None? then false
    else !IsAfter(AddDays(WeekStart(selected, weekStartOn), -1), minDate.value)
  }

  /** `disableNext`: the day after `weekEnd` is strictly after `maxDate`. */
  function DisableNext(selected: Instant, weekStartOn: WeekStartDay, maxDate: Option<Instant>): (r: bool)
    requires selected.Valid()
    requires maxDate.Some? ==> maxDate.value.Valid()
    ensures r <==> maxDate.Some? &&
                   Ordinal(maxDate.value) < Ordinal(WeekEnd(selected, weekStartOn)) + MsPerDay
  {
    if maxDate.None? then false
    else IsAfter(AddDays(WeekEnd(selected, weekStartOn), 1), maxDate.value)
  }

  /**
    `weekStart` is the only date that has weekday `weekStartOn` and lies in
    the seven days ending on the selected date.
  */
  lemma WeekStartUnique(selected: Instant, weekStartOn: WeekStartDay, d: Date)
    requires selected.Valid() && d.Valid()
    requires Weekday(d) == weekStartOn
    requires 0 <= DayNumber(selected.date) - DayNumber(d) < 7
    ensures d == WeekStart(selected, weekStartOn).date
  {
    SameWeekdayWithinAWeek(d, WeekStart(selected, weekStartOn).date);
  }

  /** Every date of the week `weekStart` .. `weekEnd` has that same week. */
  lemma WeekStartOfDayInWeek(selected: Instant, weekStartOn: WeekStartDay, other: Instant)
    requires selected.Valid() && other.Valid()
    requires Ordinal(WeekStart(selected, weekStartOn)) <= Ordinal(other) <= Ordinal(WeekEnd(selected, weekStartOn))
    ensures WeekStart(other, weekStartOn) == WeekStart(selected, weekStartOn)
  {
    var start := WeekStart(selected, weekStartOn);
    var end := WeekEnd(selected, weekStartOn);
    assert DayNumber(end.date) == DayNumber(start.date) + 6;
    assert DayNumber(start.date) <= DayNumber(other.date) <= DayNumber(end.date);
    WeekStartUnique(other, weekStartOn, start.date);
  }

  /** The week of the date `handlePrev` emits starts exactly seven days before `weekStart`. */
  lemma PrevWeekStartsSevenDaysEarlier(selected: Instant, weekStartOn: WeekStartDay)
    requires selected.Valid()
    ensures DayNumber(WeekStart(PrevTarget(selected, weekStartOn), weekStartOn).date)
            == DayNumber(WeekStart(selected, weekStartOn).date) - 7
  {
    var start := WeekStart(selected, weekStartOn);
    var earlier := AddDays(start, -7).date;
    WeekdayWeekApart(start.date, earlier);
    WeekStartUnique(PrevTarget(selected, weekStartOn), weekStartOn, earlier);
  }

  /** The week of the date `handleNext` emits starts exactly seven days after `weekStart`. */
  lemma NextWeekStartsSevenDaysLater(selected: Instant, weekStartOn: WeekStartDay)
    requires selected.Valid()
    ensures DayNumber(WeekStart(NextTarget(selected, weekStartOn), weekStartOn).date)
            == DayNumber(WeekStart(selected, weekStartOn).date) + 7
  {
    var start := WeekStart(selected, weekStartOn);
    var later := AddDays(start, 7).date;
    WeekdayWeekApart(start.date, later);
    WeekStartUnique(NextTarget(selected, weekStartOn), weekStartOn, later);
  }

  /** Next after previous comes back to the same week. */
  lemma PrevNextSameWeek(selected: Instant, weekStartOn: WeekStartDay)
    requires selected.Valid()
    ensures WeekStart(NextTarget(PrevTarget(selected, weekStartOn), weekStartOn), weekStartOn)
            == WeekStart(selected, weekStartOn)
  {
    var p := PrevTarget(selected, weekStartOn);
    PrevWeekStartsSevenDaysEarlier(selected, weekStartOn);
    NextWeekStartsSevenDaysLater(p, weekStartOn);
    DayNumberInjective(WeekStart(NextTarget(p, weekStartOn), weekStartOn).date,
                       WeekStart(selected, weekStartOn).date);
  }

  /** Both arrow flags depend only on the week the selected date falls in. */
  lemma SameWeekSameFlags(a: Instant, b: Instant, weekStartOn: WeekStartDay,
                          minDate: Option<Instant>, maxDate: Option<Instant>)
    requires a.Valid() && b.Valid()
    requires minDate.Some? ==> minDate.value.Valid()
    requires maxDate.Some? ==> maxDate.value.Valid()
    requires WeekStart(a, weekStartOn) == WeekStart(b, weekStartOn)
    ensures DisablePrev(a, weekStartOn, minDate) == DisablePrev(b, weekStartOn, minDate)
    ensures DisableNext(a, weekStartOn, maxDate) == DisableNext(b, weekStartOn, maxDate)
  {
    DayNumberInjective(WeekEnd(a, weekStartOn).date, WeekEnd(b, weekStartOn).date);
  }

  /** An enabled previous arrow emits a date strictly after `minDate`; a disabled one would not. */
  lemma PrevArrowRespectsMin(selected: Instant, weekStartOn: WeekStartDay, minDate: Option<Instant>)
    requires selected.Valid()
    requires minDate.Some? ==> minDate.value.Valid()
    ensures minDate.None? ==> !DisablePrev(selected, weekStartOn, minDate)
    ensures minDate.Some? ==>
              (!DisablePrev(selected, weekStartOn, minDate)
               <==> IsAfter(PrevTarget(selected, weekStartOn), minDate.value))
  {
  }

  /** An enabled next arrow emits a date at or before `maxDate`; a disabled one would not. */
  lemma NextArrowRespectsMax(selected: Instant, weekStartOn: WeekStartDay, maxDate: Option<Instant>)
    requires selected.Valid()
    requires maxDate.Some? ==> maxDate.value.Valid()
    ensures maxDate.None? ==> !DisableNext(selected, weekStartOn, maxDate)
    ensures maxDate.Some? ==>
              (!DisableNext(selected, weekStartOn, maxDate)
               <==> !IsAfter(NextTarget(selected, weekStartOn), maxDate.value))
  {
  }

  /**
    Because the emitted date carries `weekEnd`'s 23:59:59.999, a `maxDate`
    at 00:00 on the first day of the next week disables the next arrow,
    although that day itself is not after `maxDate`.
  */
  lemma NextDisabledByMidnightMax(selected: Instant, weekStartOn: WeekStartDay)
    requires selected.Valid()
    ensures var firstDay := Instant(NextDay(WeekEnd(selected, weekStartOn).date), 0);
            firstDay.Valid() && DisableNext(selected, weekStartOn, Some(firstDay))
  {
  }

  /** Wednesday 10 January 2024 with weeks starting on Monday lies in 8 .. 14 January. */
  lemma WeekOfTenthJanuary2024()
    ensures var selected := Instant(Date(2024, 0, 10), 0);
            WeekStart(selected, 1) == Instant(Date(2024, 0, 8), 0)
            && WeekEnd(selected, 1) == Instant(Date(2024, 0, 14), LastMs)
  {
    var selected := Instant(Date(2024, 0, 10), 0);
    assert DayNumber(selected.date) == 738894;
    assert Weekday(selected.date) == 3;
    WeekStartUnique(selected, 1, Date(2024, 0, 8));
    DayNumberInjective(WeekEnd(selected, 1).date, Date(2024, 0, 14));
  }

  /**
    One `WeekDateBtn` instance: its props (`selectedDate`, `weekStartOn`),
    the settings it reads from the store, its `anchorEl` state, and the log
    of every date it has passed to `onChange`.
  */
  class WeekDateBtn {
    var selectedDate: Instant
    var weekStartOn: WeekStartDay
    var minDate: Option<Instant>
    var maxDate: Option<Instant>
    var anchorEl: object?
    var emitted: seq<Instant>

    ghost predicate Valid()
      reads this
    {
      && selectedDate.Valid()
      && (minDate.Some? ==> minDate.value.Valid())
      && (maxDate.Some? ==> maxDate.value.Valid())
      && forall k :: 0 <= k < |emitted| ==> emitted[k].Valid()
    }

    /** The popover is shown while `anchorEl` is set. */
    predicate IsOpen()
      reads this
    {
      anchorEl != null
    }

    /** First render: the popover starts closed and nothing has been emitted. */
    constructor (selectedDate: Instant, weekStartOn: WeekStartDay,
                 minDate: Option<Instant>, maxDate: Option<Instant>)
      requires selectedDate.Valid()
      requires minDate.Some? ==> minDate.value.Valid()
      requires maxDate.Some? ==> maxDate.value.Valid()
      ensures Valid() && !IsOpen() && emitted == []
      ensures this.selectedDate == selectedDate && this.weekStartOn == weekStartOn
      ensures this.minDate == minDate && this.maxDate == maxDate
    {
      this.selectedDate := selectedDate;
      this.weekStartOn := weekStartOn;
      this.minDate := minDate;
      this.maxDate := maxDate;
      anchorEl := null;
      emitted := [];
    }

    /** A later render with new props or settings; the `anchorEl` state survives it. */
    method Rerender(selectedDate: Instant, weekStartOn: WeekStartDay,
                    minDate: Option<Instant>, maxDate: Option<Instant>)
      requires Valid() && selectedDate.Valid()
      requires minDate.Some? ==> minDate.value.Valid()
      requires maxDate.Some? ==> maxDate.value.Valid()
      modifies this`selectedDate, this`weekStartOn, this`minDate, this`maxDate
      ensures Valid()
      ensures this.selectedDate == selectedDate && this.weekStartOn == weekStartOn
      ensures this.minDate == minDate && this.maxDate == maxDate
    {
      this.selectedDate := selectedDate;
      this.weekStartOn := weekStartOn;
      this.minDate := minDate;
      this.maxDate := maxDate;
    }

    /** `handleOpen`: anchor the popover at the clicked button. */
    method HandleOpen(target: object)
      requires Valid()
      modifies this`anchorEl
      ensures Valid() && IsOpen() && anchorEl == target
    {
      anchorEl := target;
    }

    /** `handleClose`: clear the anchor. */
    method HandleClose()
      requires Valid()
      modifies this`anchorEl
      ensures Valid() && !IsOpen()
    {
      anchorEl := null;
    }

    /**
      `handleChange`: emit the picked date as it is (not moved to its week's
      start), or `now` when the picker gives none, then close.
    */
    method HandleChange(picked: Option<Instant>, now: Instant)
      requires Valid() && now.Valid()
      requires picked.Some? ==> picked.value.Valid()
      modifies this`anchorEl, this`emitted
      ensures Valid() && !IsOpen()
      ensures emitted == old(emitted) + [if picked.Some? then picked.value else now]
    {
      emitted := emitted + [if picked.Some? then picked.value else now];
      HandleClose();
    }

    /** `handlePrev`: emit the last day of the previous week; the popover is left as it is. */
    method HandlePrev()
      requires Valid()
      modifies this`emitted
      ensures Valid()
      ensures emitted == old(emitted) + [PrevTarget(selectedDate, weekStartOn)]
    {
      var target := PrevTarget(selectedDate, weekStartOn);
      emitted := emitted + [target];
    }

    /** `handleNext`: emit the first day of the next week; the popover is left as it is. */
    method HandleNext()
      requires Valid()
      modifies this`emitted
      ensures Valid()
      ensures emitted == old(emitted) + [NextTarget(selectedDate, weekStartOn)]
    {
      var target := NextTarget(selectedDate, weekStartOn);
      emitted := emitted + [target];
    }
  }
}
