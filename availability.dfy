/**
 * The appointment availability engine of src/utils/dateTimeSelection.utils.ts:
 * the slot validator, the 30-minute grid search of a day, the "fully booked"
 * gap test, the day filter, the next-free-time scan and the 60-day search.
 *
 * "HH:MM" texts are held as `Clock` values; the lemmas of `TimeOfDay` show that
 * the source's string comparisons on such texts are the integer comparisons
 * used here. "Now" is a parameter, and every date is a day number.
 */
module Availability {

  import opened Wrappers
  import opened JsText
  import opened ClockText
  import opened TimeOfDay
  import opened Domain

  /** Minutes kept free after every appointment. */
  const BreakMinutes := 10
  /** Same-day bookings must start more than two hours ahead ... */
  const LeadMinutes := 120
  /** ... plus this pad. */
  const LeadPadMinutes := 5
  /** From this hour on, today is no longer offered. */
  const LastSameDayHour := 19
  /** The step of the start-time grid. */
  const GridStep := 30
  /** How many days the forward search looks at. */
  const MaxDaysToCheck := 60

  /** The wall clock: today's day number and the time of day. */
  datatype Now = Now(day: int, clock: Clock)

  // ---------------------------------------------------------------------
  // The appointments of one day, ordered by start
  // ---------------------------------------------------------------------

  /** `dateTimeDto.filter(appt => appt.appointmentDateTimeStart.startsWith(dateString))`. */
  function OnDay(dtos: seq<DateTimeDto>, day: int): (r: seq<DateTimeDto>)
    ensures forall a :: a in r <==> a in dtos && a.start.day == day
    ensures |r| <= |dtos|
  {
    if dtos == [] then []
    else if dtos[0].start.day == day then [dtos[0]] + OnDay(dtos[1..], day)
    else OnDay(dtos[1..], day)
  }

  predicate SortedByStart(s: seq<DateTimeDto>)
  {
    forall i, j :: 0 <= i < j < |s| ==> s[i].start.clock <= s[j].start.clock
  }

  /** Inserts `a` after every entry that does not start later, which keeps the sort stable. */
  function InsertByStart(a: DateTimeDto, s: seq<DateTimeDto>): (r: seq<DateTimeDto>)
    requires SortedByStart(s)
    ensures |r| == |s| + 1
    ensures r[0] == a || (s != [] && r[0] == s[0])
    ensures SortedByStart(r)
    ensures multiset(r) == multiset(s) + multiset{a}
  {
    if s == [] then [a]
    else if a.start.clock < s[0].start.clock then
      ConsSorted(a, s);
      [a] + s
    else
      var rest := InsertByStart(a, s[1..]);
      assert s == [s[0]] + s[1..];
      ConsSorted(s[0], rest);
      [s[0]] + rest
  }

  /** An entry that starts no later than the head of a sorted list keeps it sorted in front. */
  lemma ConsSorted(x: DateTimeDto, s: seq<DateTimeDto>)
    requires SortedByStart(s) && (s != [] ==> x.start.clock <= s[0].start.clock)
    ensures SortedByStart([x] + s)
  {
    var r := [x] + s;
    forall i, j | 0 <= i < j < |r| ensures r[i].start.clock <= r[j].start.clock {
      if i == 0 && j > 1 {
        assert r[j] == s[j - 1];
      }
    }
  }

  /**
   * The `.sort` by start time of one day's appointments (a stable insertion
   * sort; on one day, comparing full timestamps is comparing clocks).
   */
  function SortByStart(s: seq<DateTimeDto>): (r: seq<DateTimeDto>)
    ensures SortedByStart(r)
    ensures multiset(r) == multiset(s)
  {
    if s == [] then []
    else
      assert s == s[..|s| - 1] + [s[|s| - 1]];
      InsertByStart(s[|s| - 1], SortByStart(s[..|s| - 1]))
  }

  /** The day's appointments in start order. */
  function DayAppointments(dtos: seq<DateTimeDto>, day: int): (r: seq<DateTimeDto>)
    ensures SortedByStart(r)
    ensures forall a :: a in r <==> a in dtos && a.start.day == day
    ensures |r| == |OnDay(dtos, day)|
  {
    var r := SortByStart(OnDay(dtos, day));
    assert forall a :: a in r <==> a in multiset(r);
    assert |r| == |multiset(r)|;
    r
  }

  // ---------------------------------------------------------------------
  // isSlotAvailable
  // ---------------------------------------------------------------------

  /** The end of an appointment's break, on the clock (it wraps past midnight). */
  function BreakEnd(a: DateTimeDto): (r: Clock)
    ensures a.end.clock + BreakMinutes < MinutesPerDay ==> r == a.end.clock + BreakMinutes
  {
    ClockAdd(a.end.clock, BreakMinutes)
  }

  /** The three-clause test of `[t, e)` against an appointment extended by its break. */
  predicate OverlapsWithBreak(t: Clock, e: Clock, a: DateTimeDto)
  {
    var s, be := a.start.clock, BreakEnd(a);
    (t >= s && t < be) || (e > s && e <= be) || (t <= s && e >= be)
  }

  /** For a proper slot and an appointment whose break does not wrap, the test is interval intersection. */
  lemma OverlapIsIntersection(t: Clock, e: Clock, a: DateTimeDto)
    requires t < e && a.start.clock < BreakEnd(a)
    ensures OverlapsWithBreak(t, e, a) <==> t < BreakEnd(a) && a.start.clock < e
  {
  }

  /** The same-day lead rule: a start at or before now + 2 h + 5 min is refused. */
  predicate TooSoon(t: Clock, day: int, now: Now)
  {
    day == now.day && t <= ClockAdd(now.clock, LeadMinutes) + LeadPadMinutes
  }

  /** No appointment of the day overlaps `[t, e)` or its break. */
  predicate ClearOfAppointments(t: Clock, e: Clock, dtos: seq<DateTimeDto>, day: int)
  {
    forall a :: a in dtos && a.start.day == day ==> !OverlapsWithBreak(t, e, a)
  }

  /** What `isSlotAvailable(time, endTime, date, artist, duration)` accepts. */
  predicate SlotAvailable(t: Clock, e: Clock, day: int, artist: Option<Artist>, duration: nat, now: Now)
  {
    WithinBookingLimits(t, duration) && !TooSoon(t, day, now) && artist.Some?
    && !EndsPastClosingHour(e) && ClearOfAppointments(t, e, artist.value.dateTimeDto, day)
  }

  /** Evaluates `isTimeWithinBookingLimits` on the text of `t`, which is the integer rule. */
  method CheckBookingLimits(t: Clock, duration: nat) returns (ok: bool)
    ensures ok == WithinBookingLimits(t, duration)
  {
    BookingLimitsIff(t, duration);
    ok := IsTimeWithinBookingLimits(MinutesToTime(t), duration);
  }

  /** `isSlotAvailable`: the checks in the source's order, then the loop over the sorted day. */
  method IsSlotAvailable(t: Clock, e: Clock, day: int, artist: Option<Artist>, duration: nat, now: Now)
    returns (ok: bool)
    ensures ok == SlotAvailable(t, e, day, artist, duration, now)
  {
    var inLimits := CheckBookingLimits(t, duration);
    if !inLimits {
      return false;
    }
    if day == now.day && t <= ClockAdd(now.clock, LeadMinutes) + LeadPadMinutes {
      return false;
    }
    if artist.None? {
      return false;
    }
    if e / 60 >= 21 && e % 60 > 0 {
      return false;
    }
    var appts := DayAppointments(artist.value.dateTimeDto, day);
    ok := ScanDay(t, e, appts);
    DayClearIff(t, e, artist.value.dateTimeDto, day);
  }

  /** The loop of `isSlotAvailable` over the day's sorted appointments: false at the first overlap. */
  method ScanDay(t: Clock, e: Clock, appts: seq<DateTimeDto>) returns (clear: bool)
    ensures clear <==> forall j :: 0 <= j < |appts| ==> !OverlapsWithBreak(t, e, appts[j])
  {
    var i := 0;
    while i < |appts|
      invariant 0 <= i <= |appts|
      invariant forall j :: 0 <= j < i ==> !OverlapsWithBreak(t, e, appts[j])
    {
      if OverlapsWithBreak(t, e, appts[i]) {
        return false;
      }
      i := i + 1;
    }
    return true;
  }

  /** Scanning the day's sorted appointments is checking every appointment of that day. */
  lemma DayClearIff(t: Clock, e: Clock, dtos: seq<DateTimeDto>, day: int)
    ensures ClearOfAppointments(t, e, dtos, day) <==>
      var appts := DayAppointments(dtos, day);
      forall j :: 0 <= j < |appts| ==> !OverlapsWithBreak(t, e, appts[j])
  {
    var appts := DayAppointments(dtos, day);
    if forall j :: 0 <= j < |appts| ==> !OverlapsWithBreak(t, e, appts[j]) {
      forall a | a in dtos && a.start.day == day
        ensures !OverlapsWithBreak(t, e, a)
      {
        var j :| 0 <= j < |appts| && appts[j] == a;
      }
    } else {
      var j :| 0 <= j < |appts| && OverlapsWithBreak(t, e, appts[j]);
      assert appts[j] in appts;
    }
  }

  /**
   * For a positive duration and a day whose breaks do not wrap past midnight,
   * a slot is free exactly when it lies in the booking limits, is not too soon,
   * and its interval misses every appointment together with its break.
   */
  lemma SlotAvailableIff(t: Clock, day: int, artist: Artist, duration: nat, now: Now)
    requires duration > 0
    requires forall a :: a in artist.dateTimeDto && a.start.day == day ==> a.start.clock < BreakEnd(a)
    ensures SlotAvailable(t, ClockAdd(t, duration), day, Some(artist), duration, now) <==>
      WithinBookingLimits(t, duration) && !TooSoon(t, day, now)
      && forall a :: a in artist.dateTimeDto && a.start.day == day ==>
           t + duration <= a.start.clock || BreakEnd(a) <= t
  {
    if WithinBookingLimits(t, duration) {
      EndGuardRedundant(t, duration);
      var e := ClockAdd(t, duration);
      assert e == t + duration;
      forall a | a in artist.dateTimeDto && a.start.day == day
        ensures OverlapsWithBreak(t, e, a) <==> !(t + duration <= a.start.clock || BreakEnd(a) <= t)
      {
        OverlapIsIntersection(t, e, a);
      }
    }
  }

  /** A slot starting exactly when an appointment's break ends is not blocked by it. */
  lemma StartAtBreakEndNotBlocked(t: Clock, e: Clock, a: DateTimeDto)
    requires a.start.clock < BreakEnd(a) && t == BreakEnd(a) && t < e
    ensures !OverlapsWithBreak(t, e, a)
  {
  }

  /**
   * At now = 11:55 on the day itself, starts 13:54, 13:55 and 14:00 are
   * refused (14:00 is 2 h + 5 min ahead, and the test is `<=`), while 14:01 is
   * accepted on a free day.
   */
  lemma LeadTimeAtFiveToNoon(artist: Artist)
    requires forall a :: a in artist.dateTimeDto ==> a.start.day != 20133
    ensures !SlotAvailable(834, 894, 20133, Some(artist), 60, Now(20133, 715))
    ensures !SlotAvailable(835, 895, 20133, Some(artist), 60, Now(20133, 715))
    ensures !SlotAvailable(840, 900, 20133, Some(artist), 60, Now(20133, 715))
    ensures SlotAvailable(841, 901, 20133, Some(artist), 60, Now(20133, 715))
  {
  }

  /**
   * The lead rule the component's test expects: a start before now + 2 h +
   * 5 min is refused, and the end of that buffer itself is accepted.
   */
  predicate TooSoonIntended(t: Clock, day: int, now: Now)
  {
    day == now.day && t < ClockAdd(now.clock, LeadMinutes) + LeadPadMinutes
  }

  /** The slot validator with the intended lead rule in place of the written one. */
  predicate SlotAvailableIntended(t: Clock, e: Clock, day: int, artist: Option<Artist>, duration: nat, now: Now)
  {
    WithinBookingLimits(t, duration) && !TooSoonIntended(t, day, now) && artist.Some?
    && !EndsPastClosingHour(e) && ClearOfAppointments(t, e, artist.value.dateTimeDto, day)
  }

  /**
   * The intended rule accepts everything the written one does, and more only
   * at the single start that lies exactly at the end of the buffer.
   */
  lemma IntendedDiffersAtBufferEnd(t: Clock, e: Clock, day: int, artist: Option<Artist>, duration: nat, now: Now)
    ensures SlotAvailable(t, e, day, artist, duration, now) ==> SlotAvailableIntended(t, e, day, artist, duration, now)
    ensures SlotAvailableIntended(t, e, day, artist, duration, now) && !SlotAvailable(t, e, day, artist, duration, now)
            <==> SlotAvailableIntended(t, e, day, artist, duration, now)
                 && day == now.day && t == ClockAdd(now.clock, LeadMinutes) + LeadPadMinutes
  {
  }

  /** At now = 11:55, the intended rule gives the test's answers: 13:54 and 13:55 refused, 14:00 accepted. */
  lemma IntendedLeadTimeAtFiveToNoon(artist: Artist)
    requires forall a :: a in artist.dateTimeDto ==> a.start.day != 20133
    ensures !SlotAvailableIntended(834, 894, 20133, Some(artist), 60, Now(20133, 715))
    ensures !SlotAvailableIntended(835, 895, 20133, Some(artist), 60, Now(20133, 715))
    ensures SlotAvailableIntended(840, 900, 20133, Some(artist), 60, Now(20133, 715))
  {
  }

  /** The slot validator does not refuse a day in the past. */
  lemma PastDayNotRefused(artist: Artist, now: Now)
    requires forall a :: a in artist.dateTimeDto ==> a.start.day != now.day - 1
    ensures SlotAvailable(StoreOpen, 600, now.day - 1, Some(artist), 60, now)
  {
  }

  // ---------------------------------------------------------------------
  // hasAvailableTimeSlots
  // ---------------------------------------------------------------------

  /** Rounds a time up to the next :00 or :30, wrapping past midnight like `setMinutes(60)` does. */
  function RoundUpToHalfHour(c: Clock): (r: Clock)
    ensures r % GridStep == 0
    ensures c <= 1410 ==> c <= r < c + GridStep
    ensures c > 1410 ==> r == 0
  {
    var m := c % 60;
    if m % GridStep == 0 then c
    else
      var up := (m + GridStep - 1) / GridStep * GridStep;
      assert up == if m < GridStep then GridStep else 2 * GridStep;
      (c - m + up) % MinutesPerDay
  }

  /** Where the grid starts: 09:00, or for today two hours ahead rounded up. */
  function GridStart(day: int, now: Now): (r: Clock)
    ensures r % GridStep == 0
    ensures day != now.day ==> r == StoreOpen
  {
    if day == now.day then RoundUpToHalfHour(ClockAdd(now.clock, LeadMinutes)) else StoreOpen
  }

  /** The `k`-th start on the grid. */
  function GridPoint(start: Clock, k: nat): (r: int)
    ensures r >= start
  {
    start + GridStep * k
  }

  /** The `k`-th grid start is reached by the loop and passes the slot validator. */
  predicate FreeGridPoint(start: Clock, k: nat, day: int, artist: Option<Artist>, duration: nat, now: Now)
  {
    GridPoint(start, k) + duration <= StoreClose
    && SlotAvailable(GridPoint(start, k), ClockAdd(GridPoint(start, k), duration), day, artist, duration, now)
  }

  /** What `hasAvailableTimeSlots` answers: some grid start of the day is free. */
  ghost predicate HasSlotOnGrid(day: int, artist: Option<Artist>, duration: nat, now: Now)
  {
    artist.Some? && exists k: nat :: FreeGridPoint(GridStart(day, now), k, day, artist, duration, now)
  }

  /** `hasAvailableTimeSlots`: walk the grid while the start is at most the last possible start. */
  method HasAvailableTimeSlots(day: int, artist: Option<Artist>, duration: nat, now: Now)
    returns (found: bool)
    ensures found == HasSlotOnGrid(day, artist, duration, now)
  {
    if artist.None? {
      return false;
    }
    var start := GridStart(day, now);
    var current: Clock := start;
    ghost var k: nat := 0;
    LastStartIff(current, duration);
    while LexLessEq(MinutesToTime(current), GetLastPossibleBookingTime(duration))
      invariant current == GridPoint(start, k)
      invariant LexLessEq(MinutesToTime(current), GetLastPossibleBookingTime(duration)) <==> current + duration <= StoreClose
      invariant forall j: nat :: j < k ==> !FreeGridPoint(start, j, day, artist, duration, now)
      decreases MinutesPerDay - current
    {
      var end := ClockAdd(current, duration);
      var ok := IsSlotAvailable(current, end, day, artist, duration, now);
      if ok {
        assert FreeGridPoint(start, k, day, artist, duration, now);
        return true;
      }
      assert !FreeGridPoint(start, k, day, artist, duration, now);
      forall j: nat | j < k + 1
        ensures !FreeGridPoint(start, j, day, artist, duration, now)
      {
      }
      current := ClockAdd(current, GridStep);
      k := k + 1;
      LastStartIff(current, duration);
    }
    forall j: nat ensures !FreeGridPoint(start, j, day, artist, duration, now) {
      if j >= k {
        assert GridPoint(start, j) >= current;
      }
    }
    return false;
  }

  /** Nothing is found when the last possible start is before the grid's first start. */
  lemma NoSlotPastLastStart(day: int, artist: Option<Artist>, duration: nat, now: Now)
    requires GridStart(day, now) + duration > StoreClose
    ensures !HasSlotOnGrid(day, artist, duration, now)
  {
  }

  /** A service longer than the twelve opening hours never finds a slot. */
  lemma NoSlotForOverlongService(day: int, artist: Option<Artist>, duration: nat, now: Now)
    requires duration > StoreClose - StoreOpen
    ensures !HasSlotOnGrid(day, artist, duration, now)
  {
  }

  /** On a day other than today with no appointments, 09:00 is found for any service that fits the day. */
  lemma FreeDayHasSlot(day: int, artist: Artist, duration: nat, now: Now)
    requires day != now.day && duration <= StoreClose - StoreOpen
    requires forall a :: a in artist.dateTimeDto ==> a.start.day != day
    ensures HasSlotOnGrid(day, Some(artist), duration, now)
  {
    EndGuardRedundant(StoreOpen, duration);
    assert GridPoint(GridStart(day, now), 0) == StoreOpen;
    assert FreeGridPoint(GridStart(day, now), 0, day, Some(artist), duration, now);
  }

  /**
   * At 22:30 the grid for today starts at 00:30 (two hours ahead, past
   * midnight), so today still "has a slot" at 09:00; only the 19:00 cut-off
   * of the day filter hides it.
   */
  lemma LateNightGridWraps(artist: Artist)
    requires forall a :: a in artist.dateTimeDto ==> a.start.day != 20133
    ensures GridStart(20133, Now(20133, 1350)) == 30
    ensures HasSlotOnGrid(20133, Some(artist), 60, Now(20133, 1350))
  {
    assert GridPoint(30, 17) == StoreOpen;
    assert FreeGridPoint(30, 17, 20133, Some(artist), 60, Now(20133, 1350));
  }

  // ---------------------------------------------------------------------
  // isDateFullyBooked
  // ---------------------------------------------------------------------

  /** The zero-duration test at index `i`: morning, following, or evening gap of at least the break. */
  predicate ZeroGapAt(appts: seq<DateTimeDto>, i: int)
    requires 0 <= i < |appts|
  {
    var n := |appts|;
    (i == 0 && appts[0].start.clock - StoreOpen >= BreakMinutes)
    || (i < n - 1 && appts[i + 1].start.clock - appts[i].end.clock >= BreakMinutes)
    || (i == n - 1 && StoreClose - appts[i].end.clock >= BreakMinutes)
  }

  /**
   * The positive-duration test at index `i`: a gap of duration + break that
   * ends its candidate by "22:00"; the evening gap runs to 21:00 - duration,
   * which is not a time (NaN) when the duration exceeds 21 hours.
   */
  predicate GapAt(appts: seq<DateTimeDto>, i: int, duration: nat)
    requires 0 <= i < |appts|
  {
    var n, need := |appts|, duration + BreakMinutes;
    (i == 0 && appts[0].start.clock - StoreOpen >= need && ClockAdd(StoreOpen, duration) <= Overtime)
    || (i < n - 1 && appts[i + 1].start.clock - appts[i].end.clock >= need
        && ClockAdd(appts[i].end.clock, duration) <= Overtime)
    || (i == n - 1 && ClockAdd(appts[i].end.clock, duration) <= Overtime
        && duration <= StoreClose && (StoreClose - duration) - appts[i].end.clock >= need)
  }

  /** `isDateFullyBooked`: the day has appointments and no gap test passes. */
  function IsDateFullyBooked(artist: Artist, day: int, duration: nat): (full: bool)
    ensures full ==> exists a :: a in artist.dateTimeDto && a.start.day == day
  {
    if |artist.dateTimeDto| == 0 then false
    else
      var appts := DayAppointments(artist.dateTimeDto, day);
      if |appts| == 0 then false
      else if duration == 0 then !(exists i :: 0 <= i < |appts| && ZeroGapAt(appts, i))
      else
        var full := !(exists i :: 0 <= i < |appts| && GapAt(appts, i, duration));
        assert appts[0] in appts;
        full
  }

  /**
   * For a zero duration the day is full exactly when it has appointments and
   * the morning gap, every gap between neighbours and the gap to 21:00 are all
   * shorter than the break.
   */
  lemma ZeroDurationFullIff(artist: Artist, day: int)
    ensures var a := DayAppointments(artist.dateTimeDto, day);
      IsDateFullyBooked(artist, day, 0) <==>
        |a| > 0
        && a[0].start.clock - StoreOpen < BreakMinutes
        && (forall i :: 0 <= i < |a| - 1 ==> a[i + 1].start.clock - a[i].end.clock < BreakMinutes)
        && StoreClose - a[|a| - 1].end.clock < BreakMinutes
  {
    var a := DayAppointments(artist.dateTimeDto, day);
    if |a| > 0 {
      assert a[0] in artist.dateTimeDto;
      ZeroGapsIff(a);
    }
  }

  /** No zero-duration gap test passes exactly when every gap is shorter than the break. */
  lemma ZeroGapsIff(a: seq<DateTimeDto>)
    requires |a| > 0
    ensures !(exists i :: 0 <= i < |a| && ZeroGapAt(a, i)) <==>
        a[0].start.clock - StoreOpen < BreakMinutes
        && (forall i :: 0 <= i < |a| - 1 ==> a[i + 1].start.clock - a[i].end.clock < BreakMinutes)
        && StoreClose - a[|a| - 1].end.clock < BreakMinutes
  {
    if !(exists i :: 0 <= i < |a| && ZeroGapAt(a, i)) {
      assert !ZeroGapAt(a, 0) && !ZeroGapAt(a, |a| - 1);
      forall i | 0 <= i < |a| - 1
        ensures a[i + 1].start.clock - a[i].end.clock < BreakMinutes
      {
        assert !ZeroGapAt(a, i);
      }
    }
  }

  /**
   * When the day has appointments whose breaks do not wrap, the first of them
   * leaves room for duration + break after 09:00, and the day is not today,
   * 09:00 is a free slot.
   */
  lemma MorningGapIsBookable(artist: Artist, day: int, duration: nat, now: Now)
    requires day != now.day && 0 < duration <= StoreClose - StoreOpen
    requires forall a :: a in artist.dateTimeDto && a.start.day == day ==> a.start.clock < BreakEnd(a)
    requires var appts := DayAppointments(artist.dateTimeDto, day);
      |appts| > 0 && appts[0].start.clock - StoreOpen >= duration + BreakMinutes
    ensures SlotAvailable(StoreOpen, ClockAdd(StoreOpen, duration), day, Some(artist), duration, now)
  {
    var appts := DayAppointments(artist.dateTimeDto, day);
    SlotAvailableIff(StoreOpen, day, artist, duration, now);
    forall a | a in artist.dateTimeDto && a.start.day == day
      ensures StoreOpen + duration <= a.start.clock
    {
      var i :| 0 <= i < |appts| && appts[i] == a;
      assert appts[0].start.clock <= appts[i].start.clock;
    }
  }

  /**
   * The gap test demands a break before the next appointment, the slot
   * validator does not: one appointment 09:30-20:40 makes the day "fully
   * booked" for 30 minutes although 09:00-09:30 is free.
   */
  lemma FullyBookedYetSlotFree(artist: Artist, day: int, now: Now)
    requires day != now.day
    requires artist.dateTimeDto == [DateTimeDto(Stamp(day, 540), Stamp(day, 570), Stamp(day, 1240))]
    ensures IsDateFullyBooked(artist, day, 30)
    ensures SlotAvailable(StoreOpen, 570, day, Some(artist), 30, now)
  {
    var appts := DayAppointments(artist.dateTimeDto, day);
    assert appts == artist.dateTimeDto by {
      assert artist.dateTimeDto[0] in appts;
    }
    assert !GapAt(appts, 0, 30);
  }

  /**
   * The gap test lets a candidate run to "22:00": appointments 09:00-20:00 and
   * 21:30-21:40 leave the day "not fully booked" for 60 minutes, yet no start
   * passes the slot validator.
   */
  lemma NotFullyBookedYetNoSlot(artist: Artist, day: int, now: Now)
    requires artist.dateTimeDto == [DateTimeDto(Stamp(day, 540), Stamp(day, 540), Stamp(day, 1200)),
                                    DateTimeDto(Stamp(day, 540), Stamp(day, 1290), Stamp(day, 1300))]
    ensures !IsDateFullyBooked(artist, day, 60)
    ensures forall t: Clock :: !SlotAvailable(t, ClockAdd(t, 60), day, Some(artist), 60, now)
  {
    var dtos := artist.dateTimeDto;
    var appts := DayAppointments(dtos, day);
    assert dtos[0] in appts && dtos[1] in appts;
    assert appts == dtos by {
      assert appts[0].start.clock <= appts[1].start.clock;
    }
    assert GapAt(appts, 0, 60);
    forall t: Clock ensures !SlotAvailable(t, ClockAdd(t, 60), day, Some(artist), 60, now) {
      if WithinBookingLimits(t, 60) {
        assert OverlapsWithBreak(t, ClockAdd(t, 60), dtos[0]);
      }
    }
  }

  // ---------------------------------------------------------------------
  // isDateAvailable
  // ---------------------------------------------------------------------

  /** The workday filter: "Alldays", "Weekdays", "Weekends", or a list of weekday names. */
  predicate WorksOn(workday: seq<string>, weekday: string)
  {
    "Alldays" in workday
    || (!("Weekdays" in workday && IsWeekend(weekday))
        && !("Weekends" in workday && !IsWeekend(weekday))
        && ("Weekdays" in workday || "Weekends" in workday || weekday in workday))
  }

  lemma WorksOnRules(workday: seq<string>, weekday: string)
    ensures "Alldays" in workday ==> WorksOn(workday, weekday)
    ensures "Alldays" !in workday && "Weekdays" in workday && "Weekends" !in workday ==>
      (WorksOn(workday, weekday) <==> !IsWeekend(weekday))
    ensures "Alldays" !in workday && "Weekends" in workday && "Weekdays" !in workday ==>
      (WorksOn(workday, weekday) <==> IsWeekend(weekday))
    ensures "Alldays" !in workday && "Weekdays" !in workday && "Weekends" !in workday ==>
      (WorksOn(workday, weekday) <==> weekday in workday)
  {
  }

  /** Listing both "Weekdays" and "Weekends" without "Alldays" rules out every day. */
  lemma BothPatternsNoDay(workday: seq<string>, weekday: string)
    requires "Alldays" !in workday && "Weekdays" in workday && "Weekends" in workday
    ensures !WorksOn(workday, weekday)
  {
  }

  /** What `isDateAvailable` answers. */
  ghost predicate DateAvailable(day: int, artist: Option<Artist>, duration: nat, now: Now)
  {
    artist.Some? && day >= now.day && !(day == now.day && now.clock / 60 >= LastSameDayHour)
    && WorksOn(artist.value.workday, WeekdayName(day))
    && HasSlotOnGrid(day, artist, duration, now)
  }

  /** `isDateAvailable`: the early refusals in the source's order, then the grid search. */
  method IsDateAvailable(day: int, artist: Option<Artist>, duration: nat, now: Now)
    returns (available: bool)
    ensures available == DateAvailable(day, artist, duration, now)
  {
    if artist.None? {
      return false;
    }
    if day < now.day {
      return false;
    }
    if day == now.day && now.clock / 60 >= LastSameDayHour {
      return false;
    }
    var workday := artist.value.workday;
    var weekday := WeekdayName(day);
    if "Alldays" !in workday {
      if "Weekdays" in workday && IsWeekend(weekday) {
        return false;
      }
      if "Weekends" in workday && !IsWeekend(weekday) {
        return false;
      }
      if "Weekdays" !in workday && "Weekends" !in workday && weekday !in workday {
        return false;
      }
    }
    available := HasAvailableTimeSlots(day, artist, duration, now);
  }

  /** Past days, and today from 19:00 on, are never offered, whatever the schedule. */
  lemma DateAvailableCutoffs(day: int, artist: Option<Artist>, duration: nat, now: Now)
    requires day < now.day || (day == now.day && now.clock >= LastSameDayHour * 60)
    ensures !DateAvailable(day, artist, duration, now)
  {
  }

  // ---------------------------------------------------------------------
  // getNextAvailableTimeForDate
  // ---------------------------------------------------------------------

  /** The morning fits: the first appointment starts after 09:00 and leaves duration + break. */
  predicate MorningFits(appts: seq<DateTimeDto>, duration: nat)
    requires |appts| > 0
  {
    appts[0].start.clock > StoreOpen && appts[0].start.clock - StoreOpen >= duration + BreakMinutes
  }

  /** The gap after appointment `i` fits, and both of its ends are within store hours. */
  predicate BetweenFits(appts: seq<DateTimeDto>, i: int, duration: nat)
    requires 0 <= i < |appts| - 1
  {
    appts[i + 1].start.clock - appts[i].end.clock >= duration + BreakMinutes
    && StoreOpen <= appts[i].end.clock <= StoreClose
    && StoreOpen <= appts[i + 1].start.clock <= StoreClose
  }

  /** The evening fits: the last appointment ends before 21:00 and leaves duration + break. */
  predicate EveningFits(appts: seq<DateTimeDto>, duration: nat)
    requires |appts| > 0
  {
    var last := appts[|appts| - 1].end.clock;
    last < StoreClose && StoreClose - last >= duration + BreakMinutes
  }

  /** The first index at or after `from` whose following gap fits. */
  function FirstBetween(appts: seq<DateTimeDto>, from: nat, duration: nat): (r: Option<nat>)
    requires from <= |appts|
    ensures r.Some? ==> from <= r.value < |appts| - 1 && BetweenFits(appts, r.value, duration)
    ensures r.Some? ==> forall j :: from <= j < r.value ==> !BetweenFits(appts, j, duration)
    ensures r.None? ==> forall j :: from <= j < |appts| - 1 ==> !BetweenFits(appts, j, duration)
    decreases |appts| - from
  {
    if from + 1 >= |appts| then None
    else if BetweenFits(appts, from, duration) then Some(from)
    else FirstBetween(appts, from + 1, duration)
  }

  /** The time `getNextAvailableTimeForDate` proposes for a day with these sorted appointments. */
  function NextTimeForDay(appts: seq<DateTimeDto>, duration: nat): (r: Option<Clock>)
    ensures appts == [] ==> r == Some(StoreOpen)
    ensures r.Some? ==> r.value <= StoreClose
    ensures r.Some? ==> r.value == StoreOpen || exists i :: 0 <= i < |appts| && r.value == appts[i].end.clock
  {
    if appts == [] then Some(StoreOpen)
    else if MorningFits(appts, duration) then Some(StoreOpen)
    else match FirstBetween(appts, 0, duration)
      case Some(i) => Some(appts[i].end.clock)
      case None =>
        if EveningFits(appts, duration) then Some(appts[|appts| - 1].end.clock) else None
  }

  /** The date-time the scan proposes for a day, if any. */
  function NextStampForDay(artist: Artist, day: int, duration: nat): (r: Option<Stamp>)
    ensures r.Some? ==> r.value.day == day
  {
    match NextTimeForDay(DayAppointments(artist.dateTimeDto, day), duration)
    case None => None
    case Some(c) => Some(Stamp(day, c))
  }

  /** The loop over the gaps between neighbours: the first that fits, if any. */
  method FindFittingGap(appts: seq<DateTimeDto>, duration: nat) returns (r: Option<nat>)
    ensures r == FirstBetween(appts, 0, duration)
  {
    var need := duration + BreakMinutes;
    var i := 0;
    while i + 1 < |appts|
      invariant 0 <= i <= |appts|
      invariant FirstBetween(appts, 0, duration) == FirstBetween(appts, i, duration)
    {
      var currentEnd := appts[i].end.clock;
      var nextStart := appts[i + 1].start.clock;
      if nextStart - currentEnd >= need && StoreOpen <= currentEnd <= StoreClose
        && StoreOpen <= nextStart <= StoreClose {
        return Some(i);
      }
      i := i + 1;
    }
    return None;
  }

  /** The body of `getNextAvailableTimeForDate` on the sorted day: morning, the gaps in order, the evening. */
  method NextTimeInDay(appts: seq<DateTimeDto>, duration: nat) returns (r: Option<Clock>)
    ensures r == NextTimeForDay(appts, duration)
  {
    if |appts| == 0 {
      return Some(StoreOpen);
    }
    var need := duration + BreakMinutes;
    var firstStart := appts[0].start.clock;
    if firstStart > StoreOpen {
      if firstStart - StoreOpen >= need {
        return Some(StoreOpen);
      }
    }
    var gap := FindFittingGap(appts, duration);
    if gap.Some? {
      return Some(appts[gap.value].end.clock);
    }
    var lastEnd := appts[|appts| - 1].end.clock;
    if lastEnd < StoreClose {
      if StoreClose - lastEnd >= need {
        return Some(lastEnd);
      }
    }
    return None;
  }

  /** `getNextAvailableTimeForDate`: the proposed time on the day's sorted appointments, as a date-time. */
  method GetNextAvailableTimeForDate(artist: Artist, day: int, duration: nat) returns (r: Option<Stamp>)
    ensures r == NextStampForDay(artist, day, duration)
  {
    var appts := DayAppointments(artist.dateTimeDto, day);
    var time := NextTimeInDay(appts, duration);
    if time.Some? {
      r := Some(Stamp(day, time.value));
    } else {
      r := None;
    }
  }

  /** Where the free time after appointment `i` ends: the next start, or 21:00 after the last one. */
  function NextBoundary(appts: seq<DateTimeDto>, i: int): int
    requires 0 <= i < |appts|
  {
    if i < |appts| - 1 then appts[i + 1].start.clock else StoreClose
  }

  /**
   * Unless the morning fits, the proposed time is the end of some appointment
   * `i`, and the free time from there to the next boundary holds duration + break.
   */
  lemma ProposedTimeLeavesRoom(appts: seq<DateTimeDto>, duration: nat)
    requires appts != [] && !MorningFits(appts, duration)
    requires NextTimeForDay(appts, duration).Some?
    ensures var x := NextTimeForDay(appts, duration).value;
      exists i :: 0 <= i < |appts| && x == appts[i].end.clock
        && NextBoundary(appts, i) - x >= duration + BreakMinutes
  {
    var x := NextTimeForDay(appts, duration).value;
    match FirstBetween(appts, 0, duration)
    case Some(i) =>
      assert x == appts[i].end.clock;
    case None =>
      var i := |appts| - 1;
      assert EveningFits(appts, duration);
      assert x == appts[i].end.clock && NextBoundary(appts, i) - x >= duration + BreakMinutes;
  }

  /**
   * The scan proposes an appointment's own end, not the end of its break; for
   * a positive duration the slot validator refuses that very start.
   */
  lemma ProposedEndIsRefused(artist: Artist, a: DateTimeDto, duration: nat, now: Now)
    requires a in artist.dateTimeDto && a.start.clock < a.end.clock && a.end.clock + BreakMinutes < MinutesPerDay
    requires duration > 0
    ensures !SlotAvailable(a.end.clock, ClockAdd(a.end.clock, duration), a.start.day, Some(artist), duration, now)
  {
    assert OverlapsWithBreak(a.end.clock, ClockAdd(a.end.clock, duration), a);
  }

  /**
   * The evening branch does not look at opening time: one appointment 07:00-08:00
   * makes the scan propose 08:00, an hour before the store opens.
   */
  lemma ProposesBeforeOpening(day: int)
    ensures NextTimeForDay([DateTimeDto(Stamp(day, 420), Stamp(day, 420), Stamp(day, 480))], 30) == Some(480)
  {
  }

  // ---------------------------------------------------------------------
  // findNextAvailableDate
  // ---------------------------------------------------------------------

  /** A day the forward search stops at: available, and the scan proposes a time. */
  ghost predicate Bookable(day: int, artist: Artist, duration: nat, now: Now)
  {
    DateAvailable(day, Some(artist), duration, now) && NextStampForDay(artist, day, duration).Some?
  }

  lemma NoneBookableStep(startDay: int, current: int, artist: Artist, duration: nat, now: Now)
    requires forall day :: startDay <= day < current ==> !Bookable(day, artist, duration, now)
    requires !Bookable(current, artist, duration, now)
    ensures forall day :: startDay <= day < current + 1 ==> !Bookable(day, artist, duration, now)
  {
  }

  /**
   * `findNextAvailableDate`: the first bookable day among the 60 from
   * `startDay`, with the time the scan proposes for it.
   */
  method FindNextAvailableDate(startDay: int, artist: Option<Artist>, duration: nat, now: Now)
    returns (r: Option<Stamp>)
    ensures artist.None? ==> r.None?
    ensures r.None? && artist.Some? ==>
      forall day :: startDay <= day < startDay + MaxDaysToCheck ==> !Bookable(day, artist.value, duration, now)
    ensures r.Some? ==>
      && artist.Some? && startDay <= r.value.day < startDay + MaxDaysToCheck
      && Bookable(r.value.day, artist.value, duration, now)
      && r == NextStampForDay(artist.value, r.value.day, duration)
      && (forall day :: startDay <= day < r.value.day ==> !Bookable(day, artist.value, duration, now))
  {
    if artist.None? {
      return None;
    }
    var current := startDay;
    var checked := 0;
    while checked < MaxDaysToCheck
      invariant 0 <= checked <= MaxDaysToCheck && current == startDay + checked
      invariant forall day :: startDay <= day < current ==> !Bookable(day, artist.value, duration, now)
    {
      var available := IsDateAvailable(current, artist, duration, now);
      var next: Option<Stamp> := None;
      if available {
        next := GetNextAvailableTimeForDate(artist.value, current, duration);
      }
      if next.Some? {
        return next;
      }
      NoneBookableStep(startDay, current, artist.value, duration, now);
      current := current + 1;
      checked := checked + 1;
    }
    return None;
  }
}
