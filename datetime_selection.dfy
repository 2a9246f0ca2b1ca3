/**
 * The date-and-time picker of src/components/booking/DatetimeSelection.tsx:
 * the search for the first bookable day when an artist is chosen, the
 * calendar's enabled days, and the "Show More" / "Show All" / "Show Less"
 * paging of the time slots.
 *
 * The component keeps its own copies of `isDateFullyBooked`,
 * `isDateAvailable`, `findNextAvailableDate` and
 * `getNextAvailableTimeForDate`; they compute what the exported ones compute
 * with the artist and the duration taken from the props, so the component
 * calls the Availability members with those props.
 */
module DateTimeSelection {

  import opened Wrappers
  import opened Domain
  import opened Availability

  datatype DisplayMode = Initial | Expanded | All

  /** Five slots on a phone, ten otherwise. */
  function InitialLimit(isMobile: bool): nat
  {
    if isMobile then 5 else 10
  }

  /** Six more rows of two. */
  function ExpandedLimit(isMobile: bool): (n: nat)
    ensures n > InitialLimit(isMobile)
  {
    InitialLimit(isMobile) + 12
  }

  function Min(a: nat, b: nat): nat
  {
    if a <= b then a else b
  }

  /** `getVisibleSlots`: the first slots of the list, as many as the mode allows. */
  function GetVisibleSlots<T>(allSlots: seq<T>, mode: DisplayMode, isMobile: bool): (r: seq<T>)
    ensures r <= allSlots
    ensures mode == Initial ==> |r| == Min(|allSlots|, InitialLimit(isMobile))
    ensures mode == Expanded ==> |r| == Min(|allSlots|, ExpandedLimit(isMobile))
    ensures mode == All ==> r == allSlots
  {
    match mode
    case Initial => allSlots[..Min(|allSlots|, InitialLimit(isMobile))]
    case Expanded => allSlots[..Min(|allSlots|, ExpandedLimit(isMobile))]
    case All => allSlots
  }

  /** How many slots a mode shows out of `total`. */
  function VisibleCount(total: nat, mode: DisplayMode, isMobile: bool): nat
  {
    match mode
    case Initial => Min(total, InitialLimit(isMobile))
    case Expanded => Min(total, ExpandedLimit(isMobile))
    case All => total
  }

  lemma VisibleCountOfSlots<T>(allSlots: seq<T>, mode: DisplayMode, isMobile: bool)
    ensures |GetVisibleSlots(allSlots, mode, isMobile)| == VisibleCount(|allSlots|, mode, isMobile)
  {
  }

  /** `hasMoreSlots`: some slot is hidden. */
  predicate HasMoreSlots(total: nat, mode: DisplayMode, isMobile: bool)
  {
    total > VisibleCount(total, mode, isMobile)
  }

  /** `showExpandButton`: "Show More" in the initial mode when the list is longer than its limit. */
  predicate ShowExpandButton(total: nat, mode: DisplayMode, isMobile: bool)
  {
    mode == Initial && total > InitialLimit(isMobile)
  }

  /** `showAllButton`: "Show All" in the expanded mode when the list is longer than its limit. */
  predicate ShowAllButton(total: nat, mode: DisplayMode, isMobile: bool)
  {
    mode == Expanded && total > ExpandedLimit(isMobile)
  }

  /** "Show Less" outside the initial mode once nothing is hidden. */
  predicate ShowLessButton(total: nat, mode: DisplayMode, isMobile: bool)
  {
    mode != Initial && !HasMoreSlots(total, mode, isMobile)
  }

  /** The mode after a click on "Show More" / "Show All". */
  function NextMode(mode: DisplayMode, total: nat, isMobile: bool): DisplayMode
  {
    match mode
    case Initial => if total <= ExpandedLimit(isMobile) then All else Expanded
    case Expanded => All
    case All => All
  }

  /** A "Show More" or "Show All" button is offered exactly when some slot is hidden. */
  lemma MoreButtonIffHidden(total: nat, mode: DisplayMode, isMobile: bool)
    ensures ShowExpandButton(total, mode, isMobile) || ShowAllButton(total, mode, isMobile)
        <==> HasMoreSlots(total, mode, isMobile)
  {
  }

  /** The growing and the shrinking buttons never show together. */
  lemma ButtonsExclusive(total: nat, mode: DisplayMode, isMobile: bool)
    ensures !(ShowLessButton(total, mode, isMobile)
              && (ShowExpandButton(total, mode, isMobile) || ShowAllButton(total, mode, isMobile)))
  {
    MoreButtonIffHidden(total, mode, isMobile);
  }

  /**
   * A click never reaches a dead end: afterwards either everything is shown
   * or the "Show All" button is there; and two clicks always show everything.
   */
  lemma ClickProgress(total: nat, mode: DisplayMode, isMobile: bool)
    ensures var next := NextMode(mode, total, isMobile);
      !HasMoreSlots(total, next, isMobile) || ShowAllButton(total, next, isMobile)
    ensures NextMode(NextMode(mode, total, isMobile), total, isMobile) == All
    ensures VisibleCount(total, NextMode(mode, total, isMobile), isMobile) >= VisibleCount(total, mode, isMobile)
  {
  }

  /** The day the forward search starts from: tomorrow when today is full or it is 19:00 or later. */
  function InitialSearchDay(artist: Artist, duration: nat, now: Now): (day: int)
    ensures day == now.day || day == now.day + 1
    ensures now.clock >= LastSameDayHour * 60 ==> day == now.day + 1
  {
    if IsDateFullyBooked(artist, now.day, duration) || now.clock / 60 >= LastSameDayHour then now.day + 1
    else now.day
  }

  /** A day without any appointment is never full, so before 19:00 the search starts today. */
  lemma FreeTodayStartsToday(artist: Artist, duration: nat, now: Now)
    requires forall a :: a in artist.dateTimeDto ==> a.start.day != now.day
    requires now.clock < LastSameDayHour * 60
    ensures InitialSearchDay(artist, duration, now) == now.day
  {
  }

  /** The picker's own state, with the props it reads fixed at creation. */
  class DateTimeSelector {
    const isMobile: bool
    const selectedArtist: Option<Artist>
    const appointmentDuration: nat
    var displayMode: DisplayMode
    var nextAvailableDate: Option<Stamp>

    constructor (isMobile: bool, selectedArtist: Option<Artist>, appointmentDuration: nat)
      ensures this.isMobile == isMobile && this.selectedArtist == selectedArtist
      ensures this.appointmentDuration == appointmentDuration
      ensures displayMode == Initial && nextAvailableDate == None
    {
      this.isMobile := isMobile;
      this.selectedArtist := selectedArtist;
      this.appointmentDuration := appointmentDuration;
      displayMode := Initial;
      nextAvailableDate := None;
    }

    /** The slots the list shows in the current mode. */
    function VisibleSlots<T>(allSlots: seq<T>): (r: seq<T>)
      reads this
      ensures r <= allSlots
    {
      GetVisibleSlots(allSlots, displayMode, isMobile)
    }

    /** `handleShowMoreClick`: straight to everything when the expanded view would show it all. */
    method HandleShowMoreClick(totalSlots: nat)
      modifies this
      ensures old(displayMode) == Initial && totalSlots <= ExpandedLimit(isMobile) ==> displayMode == All
      ensures old(displayMode) == Initial && totalSlots > ExpandedLimit(isMobile) ==> displayMode == Expanded
      ensures old(displayMode) != Initial ==> displayMode == All
      ensures displayMode == NextMode(old(displayMode), totalSlots, isMobile)
      ensures nextAvailableDate == old(nextAvailableDate)
    {
      var initialLimit := if isMobile then 5 else 10;
      var expandedLimit := initialLimit + 12;
      if displayMode == Initial {
        if totalSlots <= expandedLimit {
          displayMode := All;
        } else {
          displayMode := Expanded;
        }
      } else if displayMode == Expanded {
        displayMode := All;
      }
    }

    /** The "Show Less" button's handler. */
    method ShowLess()
      modifies this
      ensures displayMode == Initial && nextAvailableDate == old(nextAvailableDate)
    {
      displayMode := Initial;
    }

    /**
     * The effect run when the artist or the duration changes: search from
     * today, or from tomorrow when today is full or it is 19:00 or later, and
     * remember the first bookable day found. The returned day is the one the
     * component passes to `onMonthChange` and `onDateSelect`.
     */
    method FindInitialDate(now: Now) returns (picked: Option<Stamp>)
      modifies this
      ensures selectedArtist.None? ==> picked.None?
      ensures picked.None? ==> nextAvailableDate == old(nextAvailableDate)
      ensures picked.Some? ==>
        && selectedArtist.Some? && nextAvailableDate == picked
        && var start := InitialSearchDay(selectedArtist.value, appointmentDuration, now);
        && start <= picked.value.day < start + MaxDaysToCheck
        && Bookable(picked.value.day, selectedArtist.value, appointmentDuration, now)
        && (forall day :: start <= day < picked.value.day ==> !Bookable(day, selectedArtist.value, appointmentDuration, now))
      ensures picked.None? && selectedArtist.Some? ==>
        var start := InitialSearchDay(selectedArtist.value, appointmentDuration, now);
        forall day :: start <= day < start + MaxDaysToCheck ==> !Bookable(day, selectedArtist.value, appointmentDuration, now)
      ensures displayMode == old(displayMode)
    {
      picked := None;
      if selectedArtist.Some? {
        var artist := selectedArtist.value;
        var startDate := now.day;
        if IsDateFullyBooked(artist, startDate, appointmentDuration) || now.clock / 60 >= LastSameDayHour {
          startDate := startDate + 1;
        }
        picked := FindNextAvailableDate(startDate, selectedArtist, appointmentDuration, now);
        if picked.Some? {
          nextAvailableDate := picked;
        }
      }
    }

    /**
     * The calendar of a month: one button per day, disabled exactly when
     * `isDateAvailable` refuses that day.
     */
    method CalendarDisabled(firstDay: int, daysInMonth: nat, now: Now) returns (disabled: seq<bool>)
      ensures |disabled| == daysInMonth
      ensures forall i :: 0 <= i < daysInMonth ==>
        disabled[i] == !DateAvailable(firstDay + i, selectedArtist, appointmentDuration, now)
    {
      disabled := [];
      var i := 0;
      while i < daysInMonth
        invariant 0 <= i <= daysInMonth && |disabled| == i
        invariant forall j :: 0 <= j < i ==>
          disabled[j] == !DateAvailable(firstDay + j, selectedArtist, appointmentDuration, now)
      {
        var isAvailable := IsDateAvailable(firstDay + i, selectedArtist, appointmentDuration, now);
        disabled := disabled + [!isAvailable];
        i := i + 1;
      }
    }
  }
}
