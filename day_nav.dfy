/**
  The day navigator (`DayDateBtn`): the previous/next arrows move the
  selected date by one calendar day, each arrow is disabled against the
  optional `minDate`/`maxDate` of the picker settings, and a popover picker
  forwards any picked date.
*/
module DayNav {
  import opened Optional
  import opened Calendar

  /** What `handlePrev` emits: `addDays(selectedDate, -1)`. */
  function PrevTarget(selected: Instant): (r: Instant)
    requires selected.Valid()
    ensures r.Valid() && r.ms == selected.ms
    ensures NextDay(r.date) == selected.date
  {
    var r := AddDays(selected, -1);
    DayNumberInjective(NextDay(r.date), selected.date);
    r
  }

  /** What `handleNext` emits: `addDays(selectedDate, 1)`. */
  function NextTarget(selected: Instant): (r: Instant)
    requires selected.Valid()
    ensures r.Valid() && r.ms == selected.ms
    ensures PrevDay(r.date) == selected.date
  {
    var r := AddDays(selected, 1);
    DayNumberInjective(PrevDay(r.date), selected.date);
    r
  }

  /** `disabledPrev`: the previous day is not strictly after `minDate`. */
  function DisabledPrev(selected: Instant, minDate: Option<Instant>): (r: bool)
    requires selected.Valid()
    requires minDate.Some? ==> minDate.value.Valid()
    ensures r <==> minDate.Some? && Ordinal(minDate.value) >= Ordinal(selected) - MsPerDay
  {
    if minDate.None? then false
    else !IsAfter(AddDays(selected, -1), minDate.value)
  }

  /** `disabledNext`: the next day is strictly after `maxDate`. */
  function DisabledNext(selected: Instant, maxDate: Option<Instant>): (r: bool)
    requires selected.Valid()
    requires maxDate.Some? ==> maxDate.value.Valid()
    ensures r <==> maxDate.Some? && Ordinal(maxDate.value) < Ordinal(selected) + MsPerDay
  {
    if maxDate.None? then false
    else IsAfter(AddDays(selected, 1), maxDate.value)
  }

  /** Next after previous, and previous after next, give back the selected date. */
  lemma PrevNextRoundTrip(selected: Instant)
    requires selected.Valid()
    ensures NextTarget(PrevTarget(selected)) == selected
    ensures PrevTarget(NextTarget(selected)) == selected
  {
  }

  /** An enabled previous arrow emits a date strictly after `minDate`, a disabled one would not. */
  lemma PrevArrowRespectsMin(selected: Instant, minDate: Option<Instant>)
    requires selected.Valid()
    requires minDate.Some? ==> minDate.value.Valid()
    ensures minDate.None? ==> !DisabledPrev(selected, minDate)
    ensures minDate.Some? ==>
              (!DisabledPrev(selected, minDate) <==> IsAfter(PrevTarget(selected), minDate.value))
  {
  }

  /** An enabled next arrow emits a date at or before `maxDate`, a disabled one would not. */
  lemma NextArrowRespectsMax(selected: Instant, maxDate: Option<Instant>)
    requires selected.Valid()
    requires maxDate.Some? ==> maxDate.value.Valid()
    ensures maxDate.None? ==> !DisabledNext(selected, maxDate)
    ensures maxDate.Some? ==>
              (!DisabledNext(selected, maxDate) <==> !IsAfter(NextTarget(selected), maxDate.value))
  {
  }

  /**
    One `DayDateBtn` instance: the props it was rendered with, the settings
    it reads from the store, its `anchorEl` state, and the log of every date
    it has passed to `onChange`.
  */
  class DayDateBtn {
    var selectedDate: Instant
    var minDate: Option<Instant>
    var maxDate: Option<Instant>
    var anchorEl: object?
    var emitted: seq<Instant>

    ghost predicate Valid()
      reads this
    {
      && selectedDate.Valid()
      && (minDate.Some? ==> minDate.value.Valid())
      && (maxDate.Some? ==> maxDate.value.Valid())
      && forall k :: 0 <= k < |emitted| ==> emitted[k].Valid()
    }

    /** The popover is shown while `anchorEl` is set (`open={Boolean(anchorEl)}`). */
    predicate IsOpen()
      reads this
    {
      anchorEl != null
    }

    /** First render: the popover starts closed and nothing has been emitted. */
    constructor (selectedDate: Instant, minDate: Option<Instant>, maxDate: Option<Instant>)
      requires selectedDate.Valid()
      requires minDate.Some? ==> minDate.value.Valid()
      requires maxDate.Some? ==> maxDate.value.Valid()
      ensures Valid() && !IsOpen() && emitted == []
      ensures this.selectedDate == selectedDate && this.minDate == minDate && this.maxDate == maxDate
    {
      this.selectedDate := selectedDate;
      this.minDate := minDate;
      this.maxDate := maxDate;
      anchorEl := null;
      emitted := [];
    }

    /** A later render with new props or settings; the `anchorEl` state survives it. */
    method Rerender(selectedDate: Instant, minDate: Option<Instant>, maxDate: Option<Instant>)
      requires Valid() && selectedDate.Valid()
      requires minDate.Some? ==> minDate.value.Valid()
      requires maxDate.Some? ==> maxDate.value.Valid()
      modifies this`selectedDate, this`minDate, this`maxDate
      ensures Valid()
      ensures this.selectedDate == selectedDate && this.minDate == minDate && this.maxDate == maxDate
    {
      this.selectedDate := selectedDate;
      this.minDate := minDate;
      this.maxDate := maxDate;
    }

    /** `handleOpen`: anchor the popover at the clicked button. */
    method HandleOpen(target: object)
      requires Valid()
      modifies this`anchorEl
      ensures Valid() && IsOpen() && anchorEl == target
    {
      anchorEl := target;
    }

    /** `handleClose`: clear the anchor. */
    method HandleClose()
      requires Valid()
      modifies this`anchorEl
      ensures Valid() && !IsOpen()
    {
      anchorEl := null;
    }

    /** `handleChange`: emit the picked date (or `now` when the picker gives none), then close. */
    method HandleChange(picked: Option<Instant>, now: Instant)
      requires Valid() && now.Valid()
      requires picked.Some? ==> picked.value.Valid()
      modifies this`anchorEl, this`emitted
      ensures Valid() && !IsOpen()
      ensures emitted == old(emitted) + [if picked.Some? then picked.value else now]
    {
      emitted := emitted + [if picked.Some? then picked.value else now];
      HandleClose();
    }

    /** `handlePrev`: emit the previous day; the popover is left as it is. */
    method HandlePrev()
      requires Valid()
      modifies this`emitted
      ensures Valid()
      ensures emitted == old(emitted) + [PrevTarget(selectedDate)]
    {
      var target := PrevTarget(selectedDate);
      emitted := emitted + [target];
    }

    /** `handleNext`: emit the next day; the popover is left as it is. */
    method HandleNext()
      requires Valid()
      modifies this`emitted
      ensures Valid()
      ensures emitted == old(emitted) + [NextTarget(selectedDate)]
    {
      var target := NextTarget(selectedDate);
      emitted := emitted + [target];
    }
  }
}
