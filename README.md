# Salon booking: the availability engine, in Dafny

This project models the core of a salon's appointment-booking front end, a
React application written in TypeScript. A client books in a fixed order:
treatments, then an artist who offers them, then a date and a start time,
then contact details. The code modelled here covers five parts.

- **Availability.** It decides which days and start times the client may
  choose. The store is open 09:00-21:00 and every appointment is followed
  by a 10-minute break. A start on the same day must be more than
  2 h + 5 min away, and from 19:00 on today is not offered at all. Each
  artist works on some weekdays.
- **Suggestions.** It searches forward up to 60 days for the first bookable
  day. For that day it proposes a start time and builds the list of
  time-slot buttons.
- **Text formats.** It converts between "9am"/"1:15pm", 24-hour "HH:MM"
  text and the duration text shown in the summary.
- **Booking state.** It keeps the choices so far in a reducer store and a
  state hook. Changing an earlier choice clears the later ones.
- **Validation.** It checks the contact details and the booking's
  completeness, both in a validation service and in a generic form hook.
  The page's own helpers are modelled too: its field check, the artist
  filter, the parser for the services text of an appointment being
  updated, and the effect that prefills the page from that appointment.

## How the model represents the program

- **Dates and times.** A date is a day number counted from 1970-01-01. A
  time of day is a `Clock`, a minute count in `[0, 1440)`. A
  "YYYY-MM-DDTHH:MM" appointment field is a `Stamp(day, clock)`.
- **Comparisons of time text.** The source compares zero-padded "HH:MM"
  strings with `<` and `<=`. The model keeps that string order (`LexLess`)
  and proves that on clock text it is the order of the minute counts
  (`TimeOfDay.ClockTextLess`). The string rules are then restated on
  integers: `TimeOfDay.BookingLimitsIff`, `TimeOfDay.WithinStoreHoursIff`
  and `TimeOfDay.LastStartIff`.
- **The current time** is a parameter `Now(day, clock)`.
- **Wrap-around.** `Date` arithmetic read back with
  `toTimeString().slice(0, 5)` wraps at midnight. The model writes this
  out as `ClockAdd`. JavaScript's truncating `%` is written out as `JsRem`.
- **Stateful parts become classes.**
  - `BookingStateHook.BookingStateHolder` for the state hook.
  - `DateTimeSelection.DateTimeSelector` for the component's state.
  - `FormValidation.Form` for the form hook.

  Their methods have `modifies` clauses and state the whole new state.
- **Loops become methods with invariants.** Each is proved equal to a
  specification function, and the properties are proved about that
  function. Examples: the slot validator, the grid search, the gap scan,
  the 60-day search, the slot list, the merge of fetched appointments, the
  grouping reduce and the token loop of the service parser.
- **The copies in the date/time component.** `isDateFullyBooked`,
  `isDateAvailable`, `findNextAvailableDate` and
  `getNextAvailableTimeForDate` appear both in
  `src/utils/dateTimeSelection.utils.ts` and as closures inside
  `src/components/booking/DatetimeSelection.tsx`. The two copies have the
  same text. Each is modelled once, and the component class calls the
  shared definitions with its props.
- **The booking page's `groupServicesByCategory`** has the same text as the
  one in `src/utils/utils.ts` and is modelled once, as
  `Utils.GroupServicesByCategory`.

Behaviours of the code that the lemmas make explicit (the model follows
the code in each case):

- **Same-day lead time.**
  - The rule is "at or before now + 2 h + 5 min is refused". At 11:55 this
    refuses 14:00 and accepts 14:01 (`Availability.LeadTimeAtFiveToNoon`).
    The component's test expects 14:00 to be accepted; see "## Findings".
  - The slot validator does not refuse a past day
    (`Availability.PastDayNotRefused`). Only `isDateAvailable` does.
- **The "fully booked" test and the slot validator disagree in both
  directions.**
  - `Availability.FullyBookedYetSlotFree`: the day is reported full although
    a slot is free.
  - `Availability.NotFullyBookedYetNoSlot`: the day is reported not full
    although no slot passes.
- **Times the next-time scan proposes.**
  - It proposes an appointment's own end, inside its break, so the
    validator refuses that very start (`Availability.ProposedEndIsRefused`).
  - Its evening branch can propose a time before opening
    (`Availability.ProposesBeforeOpening`).
- **The slot list of `src/utils/utils.ts`** has no closing-time test
  (`Utils.NoClosingTest`).
- **The generic form hook's rules are looser than the validation service.**
  - Its `required` accepts a blank string
    (`FormValidation.RequiredWeakerThanService`).
  - A rule set of required, email, phone and either-or accepts a one-letter
    name that the service refuses
    (`FormValidation.ContactRulesLooserThanService`).

## Model

| member | source | states |
|---|---|---|
| ClockText.JsRem | src/utils/dateTimeSelection.utils.ts:13-17 | JavaScript `%` with a positive divisor: the Euclidean remainder for non-negative operands, a non-positive one above `-b` for negative operands |
| TimeOfDay.ClockAdd | src/utils/dateTimeSelection.utils.ts:219-221 | adding minutes and reading back the clock time wraps at midnight: unchanged sum below 24 h, minus one day below 48 h |
| TimeOfDay.TimeToMinutesOfParts | src/utils/dateTimeSelection.utils.ts:8-11 | `timeToMinutes` of two digit runs around a colon is hours * 60 + minutes |
| TimeOfDay.TimeToMinutesOfFive | src/utils/dateTimeSelection.utils.ts:8-11 | `timeToMinutes` of "ab:cd" is (10a + b) hours and 10c + d minutes |
| TimeOfDay.ClockTextOfDigits | src/utils/dateTimeSelection.utils.ts:13-17 | `minutesToTime` of the count of the digits "ab:cd" writes exactly those digits |
| TimeOfDay.TimeToMinutesOfMinutesToTime | src/utils/dateTimeSelection.utils.ts:8-17 | reading back the text `minutesToTime` writes gives the minute count (below 100 hours) |
| TimeOfDay.MinutesToTimeOfTimeToMinutes | src/utils/dateTimeSelection.utils.ts:8-17 | on zero-padded clock text, `timeToMinutes` yields a time of day and `minutesToTime` gives the text back |
| TimeOfDay.ClockTextOfItsValue | src/utils/dateTimeSelection.utils.ts:13-17 | zero-padded clock text is what `minutesToTime` writes for the count it denotes |
| TimeOfDay.MinutesToTimeIsClockText | src/utils/dateTimeSelection.utils.ts:13-17 | every time of day is written as zero-padded "HH:MM" |
| TimeOfDay.ClockTextLess | src/utils/dateTimeSelection.utils.ts:25-40 | string `<` on the text of two minute counts holds iff the counts are ordered |
| TimeOfDay.ClockTextLessEq | src/utils/dateTimeSelection.utils.ts:25-40 | string `<=` on the text of two minute counts holds iff the counts are ordered |
| TimeOfDay.NegativeTextBelow | src/utils/dateTimeSelection.utils.ts:19-23 | the text of a negative count (an over-long duration) sorts below every time of day |
| TimeOfDay.StoreTexts | src/utils/dateTimeSelection.utils.ts:5-6 | the opening and closing constants are the texts of 540 and 1260 minutes |
| TimeOfDay.GetLastPossibleBookingTime | src/utils/dateTimeSelection.utils.ts:19-23 | the last start is 21:00 minus the duration; a duration beyond 21 h gives negative text |
| TimeOfDay.LastStartIff | src/utils/dateTimeSelection.utils.ts:136-138 | the grid loop's string test admits a start iff start + duration ends by 21:00 |
| TimeOfDay.OvertimeIff | src/utils/dateTimeSelection.utils.ts:224 | the end test against "22:00" is end <= 1320 minutes |
| TimeOfDay.WithinStoreHoursIff | src/utils/dateTimeSelection.utils.ts:25-27 | `isWithinStoreHours` on clock text is 09:00 <= t <= 21:00 |
| TimeOfDay.EndTextAfterCloseIff | src/utils/dateTimeSelection.utils.ts:29-33 | the end test of the booking limits is end > 21:00, below 100 hours |
| TimeOfDay.BookingLimitsIff | src/utils/dateTimeSelection.utils.ts:29-40 | `isTimeWithinBookingLimits` on clock text holds iff the start is at or after 09:00 and the end at or before 21:00 |
| TimeOfDay.BookingLimitsOfClock | src/utils/dateTimeSelection.utils.ts:29-40 | the string rule on a time of day, restated on minute counts |
| TimeOfDay.BookingLimitsOfParsed | src/utils/dateTimeSelection.utils.ts:29-40 | the rule on any text whose `timeToMinutes` is a given count |
| TimeOfDay.EndGuardRedundant | src/utils/dateTimeSelection.utils.ts:78-81 | within the booking limits the end-hour guard of the slot validator never fires |
| Domain.WeekdayName | src/utils/dateTimeSelection.utils.ts:285 | every day number has one of the seven English weekday names |
| Domain.SampleWeekdays | src/utils/dateTimeSelection.utils.ts:285 | 2025-02-14 was a Friday and 2025-02-15 a Saturday |
| Availability.OnDay | src/utils/dateTimeSelection.utils.ts:84-85 | the day filter keeps exactly the appointments starting that day |
| Availability.InsertByStart | src/utils/dateTimeSelection.utils.ts:86-88 | inserting into a start-sorted list keeps it sorted and adds exactly one entry |
| Availability.ConsSorted | src/utils/dateTimeSelection.utils.ts:86-88 | an appointment starting no later than the head of a start-sorted list keeps it sorted when put in front |
| Availability.SortByStart | src/utils/dateTimeSelection.utils.ts:86-88 | the sort by start time yields a sorted permutation |
| Availability.DayAppointments | src/utils/dateTimeSelection.utils.ts:84-88 | the day's appointments, sorted, with exactly that day's entries |
| Availability.BreakEnd | src/utils/dateTimeSelection.utils.ts:94-97 | the break ends 10 minutes after the appointment, wrapping past midnight |
| Availability.OverlapIsIntersection | src/utils/dateTimeSelection.utils.ts:100-102 | the three-clause overlap test is interval intersection with the appointment plus its break |
| Availability.ScanDay | src/utils/dateTimeSelection.utils.ts:90-107 | the loop stops with false at the first appointment whose interval plus break overlaps the slot, and returns true iff none does |
| Availability.DayClearIff | src/utils/dateTimeSelection.utils.ts:84-107 | scanning the sorted day list is the same as checking every appointment that starts on the day |
| Availability.CheckBookingLimits | src/utils/dateTimeSelection.utils.ts:50-52 | evaluating the string rule on the start's text gives the integer booking limits |
| Availability.IsSlotAvailable | src/utils/dateTimeSelection.utils.ts:42-108 | the validator, with its checks in source order and its loop, returns exactly `SlotAvailable` |
| Availability.SlotAvailableIff | src/utils/dateTimeSelection.utils.ts:42-108 | a slot is free iff it is within the limits, not too soon on the day itself, and misses every appointment plus its break |
| Availability.StartAtBreakEndNotBlocked | src/utils/dateTimeSelection.utils.ts:100-102 | a start exactly at the end of an appointment's break is not blocked by it |
| Availability.LeadTimeAtFiveToNoon | src/utils/dateTimeSelection.utils.ts:60-73 | at 11:55 today, 13:54, 13:55 and 14:00 are refused and 14:01 is accepted |
| Availability.IntendedDiffersAtBufferEnd | src/utils/dateTimeSelection.utils.ts:60-73 | the strict lead rule accepts everything the written rule accepts, and more exactly at the start lying at now + 2 h + 5 min |
| Availability.IntendedLeadTimeAtFiveToNoon | src/components/booking/__tests__/DateTimeSelection.test.tsx:60-78 | at 11:55 the strict lead rule refuses 13:54 and 13:55 and accepts 14:00, as the component's test expects |
| Availability.PastDayNotRefused | src/utils/dateTimeSelection.utils.ts:54-73 | the validator's lead rule applies only to today, so a past day passes |
| Availability.RoundUpToHalfHour | src/utils/dateTimeSelection.utils.ts:127-133 | rounds up to the next :00 or :30, wrapping to 00:00 after 23:30 |
| Availability.GridStart | src/utils/dateTimeSelection.utils.ts:119-134 | the search grid starts at 09:00 on other days and on a half-hour for today |
| Availability.GridPoint | src/utils/dateTimeSelection.utils.ts:147-148 | grid starts advance from the first one |
| Availability.HasAvailableTimeSlots | src/utils/dateTimeSelection.utils.ts:110-152 | the loop answers exactly whether some grid start up to the last possible start passes the validator |
| Availability.NoSlotPastLastStart | src/utils/dateTimeSelection.utils.ts:136-149 | nothing is found when the grid starts after the last possible start |
| Availability.NoSlotForOverlongService | src/utils/dateTimeSelection.utils.ts:136-149 | a service longer than the twelve opening hours never finds a slot |
| Availability.FreeDayHasSlot | src/utils/dateTimeSelection.utils.ts:110-152 | a free day other than today has a slot for any service that fits the day |
| Availability.LateNightGridWraps | src/utils/dateTimeSelection.utils.ts:124-134 | at 22:30 today's grid wraps to 00:30 and still finds 09:00 |
| Availability.IsDateFullyBooked | src/utils/dateTimeSelection.utils.ts:154-268 | a day reported full has appointments |
| Availability.ZeroDurationFullIff | src/utils/dateTimeSelection.utils.ts:170-205 | for duration 0, full iff the day has appointments and every gap is shorter than the break |
| Availability.ZeroGapsIff | src/utils/dateTimeSelection.utils.ts:170-205 | no zero-duration gap test passes iff the morning gap, every gap between neighbours and the evening gap are each shorter than the break |
| Availability.MorningGapIsBookable | src/utils/dateTimeSelection.utils.ts:207-230 | a morning gap of duration + break makes 09:00 a free slot on another day |
| Availability.FullyBookedYetSlotFree | src/utils/dateTimeSelection.utils.ts:207-267 | a day reported full for 30 minutes while 09:00-09:30 passes the validator |
| Availability.NotFullyBookedYetNoSlot | src/utils/dateTimeSelection.utils.ts:245-267 | a day reported not full for 60 minutes while no start passes the validator |
| Availability.WorksOnRules | src/utils/dateTimeSelection.utils.ts:288-300 | the workday filter: "Alldays" any day, "Weekdays" Monday-Friday, "Weekends" Saturday-Sunday, otherwise the listed names |
| Availability.BothPatternsNoDay | src/utils/dateTimeSelection.utils.ts:288-300 | listing both "Weekdays" and "Weekends" without "Alldays" rules out every day |
| Availability.IsDateAvailable | src/utils/dateTimeSelection.utils.ts:270-303 | the early refusals in source order, then the grid search, return exactly `DateAvailable` |
| Availability.DateAvailableCutoffs | src/utils/dateTimeSelection.utils.ts:277-283 | past days, and today from 19:00, are never available |
| Availability.FirstBetween | src/utils/dateTimeSelection.utils.ts:355-368 | the first gap between neighbours that fits, and no earlier one fits |
| Availability.NextTimeForDay | src/utils/dateTimeSelection.utils.ts:326-384 | an empty day proposes 09:00; any proposal is 09:00 or some appointment's end, and no later than 21:00 |
| Availability.NextStampForDay | src/utils/dateTimeSelection.utils.ts:326-384 | the proposed date-time lies on the requested day |
| Availability.FindFittingGap | src/utils/dateTimeSelection.utils.ts:355-368 | the gap loop returns the first fitting gap |
| Availability.NextTimeInDay | src/utils/dateTimeSelection.utils.ts:341-383 | morning, gaps and evening in order give `NextTimeForDay` |
| Availability.GetNextAvailableTimeForDate | src/utils/dateTimeSelection.utils.ts:326-384 | the method returns `NextStampForDay` |
| Availability.ProposedTimeLeavesRoom | src/utils/dateTimeSelection.utils.ts:354-381 | outside the morning case, the proposal is an appointment's end with room for duration + break before the next boundary |
| Availability.ProposedEndIsRefused | src/utils/dateTimeSelection.utils.ts:363-366 | an appointment's own end, proposed as a start, is refused by the validator |
| Availability.ProposesBeforeOpening | src/utils/dateTimeSelection.utils.ts:370-381 | one appointment 07:00-08:00 makes the scan propose 08:00 |
| Availability.FindNextAvailableDate | src/utils/dateTimeSelection.utils.ts:305-324 | the first bookable day among 60, with its proposed time; none found means no bookable day in range |
| Utils.SumsOfConcatenation | src/utils/utils.ts:66-70 | total price and duration add up over concatenated selections |
| Utils.SumsOfOne | src/utils/utils.ts:66-70 | one service costs its price and takes its duration |
| Utils.DurationCoversEach | src/utils/utils.ts:69-70 | the total duration is at least each selected service's duration |
| Utils.CategoryName | src/utils/utils.ts:106 | the found category's name, or "" when no category has the id |
| Utils.InCategory | src/utils/utils.ts:103-115 | a bucket holds exactly the services of that category |
| Utils.GroupServicesByCategory | src/utils/utils.ts:103-115 | one key per category present, each bucket that category's services in input order |
| Utils.ExactlyOneBucket | src/utils/utils.ts:103-115 | every service is in its own category's bucket and in no other |
| Utils.OneCategoryKeepsAll | src/utils/utils.ts:103-115 | a bucket whose services all share a category is the input itself |
| Utils.CatalogueBuckets | src/utils/utils.ts:106 | catalogue treatments land under "Threading"/"Lashes"; an unknown category under "" |
| Utils.AsDto | src/utils/utils.ts:132-136 | the entry built for a fetched appointment starts at its creation time |
| Utils.FindByName | src/utils/utils.ts:129 | the first artist with the name, or none has it |
| Utils.MergeFetched | src/utils/utils.ts:117-163 | the merge loop leaves the artists equal to `MergeResponse` of the old list |
| Utils.MergeAllExtends | src/utils/utils.ts:128-156 | merging only appends entries: no artist renamed, reordered or dropped |
| Utils.MergeLeavesOthers | src/utils/utils.ts:128-156 | an artist named by no fetched appointment is unchanged |
| Utils.MergeContains | src/utils/utils.ts:128-156 | every fetched appointment of a known artist ends up in that artist's list |
| Utils.MergeIdempotent | src/utils/utils.ts:143-154 | merging the same response twice equals merging once |
| Utils.MergeKeepsNoRepeats | src/utils/utils.ts:143-154 | the existence check keeps every list free of repeats |
| Utils.SlotInterval | src/utils/utils.ts:223 | 30-minute steps for services up to 30 minutes, hourly otherwise |
| Utils.SlotCount | src/utils/utils.ts:226-232 | 24 or 12 steps fill 09:00-21:00 |
| Utils.SlotStart | src/utils/utils.ts:226-247 | each slot starts on the step grid between 09:00 and 21:00 |
| Utils.BuildSlot | src/utils/utils.ts:233-243 | one loop pass builds `SlotAt` for its start |
| Utils.GenerateTimeSlots | src/utils/utils.ts:172-250 | no slots without date or artist; otherwise exactly one slot per grid start, each `SlotAt` |
| Utils.SlotAvailabilityIff | src/utils/utils.ts:203-220 | a slot is available iff it is not before now + 2 h and misses every appointment plus its break |
| Utils.PastDaySlotsRefused | src/utils/utils.ts:181-205 | on a past day every slot is unavailable |
| Utils.NoClosingTest | src/utils/utils.ts:223-247 | a 90-minute slot at 20:00 is offered though the validator refuses it |
| Utils.SlotLabelRoundTrip | src/utils/utils.ts:236 | a slot's start label, combined with its date, gives back its "HH:MM" |
| Utils.HourLabelIsFormatTime | src/utils/utils.ts:165-170 | the hour labels of the constants are `formatTime` on whole hours |
| TimeFormat.FormatDuration | src/utils/utils.ts:6-19 | under an hour the text ends in " mins" |
| TimeFormat.HoursUnit | src/utils/utils.ts:15 | "hrs" iff more than one hour, else "hr" |
| TimeFormat.RoundTripUnderAnHour | src/utils/utils.ts:7-8 | "N mins" reads back as N |
| TimeFormat.RoundTripWholeHours | src/utils/utils.ts:14-16 | "Hhr"/"Hhrs" reads back as 60H |
| TimeFormat.RoundTripMixed | src/utils/utils.ts:18 | "Hhr M mins" reads back as 60H + M |
| TimeFormat.ReadMixedText | src/utils/utils.ts:18 | the text of H hours and M minutes reads back as their total |
| TimeFormat.FormatDurationRoundTrip | src/utils/utils.ts:6-19 | the duration text loses nothing: it reads back as the minutes |
| TimeFormat.FormatDurationSamples | src/utils/utils.ts:6-19 | 45 is "45 mins" and 90 is "1hr 30 mins" |
| TimeFormat.FormatDurationHourSamples | src/utils/utils.ts:14-16 | 60 is "1hr" and 120 is "2hrs" |
| TimeFormat.ParseTimeString | src/utils/utils.ts:21-34 | a match yields period "am" or "pm"; anything else is the format error |
| TimeFormat.ParseAfterHour | src/utils/utils.ts:22-33 | the part after the hour keeps the hour and yields a lower-case period, or the format error |
| TimeFormat.ParseDialText | src/utils/utils.ts:21-34 | "D:MM p" and "D p" parse to their hour, minutes and period |
| TimeFormat.ConvertTo24HourTime | src/utils/utils.ts:37-45 | 1-11 pm gain twelve hours |
| TimeFormat.ConvertTo24HourTimeBijective | src/utils/utils.ts:37-45 | on dial hours 1-12 the conversion is a bijection onto 0-23 |
| TimeFormat.Format24HourTimeIsClockText | src/utils/utils.ts:48-52 | the 24-hour text of a time of day is its zero-padded clock text |
| TimeFormat.DialHour | src/utils/utils.ts:167 | `hours % 12 \|\| 12` lies in 1-12 |
| TimeFormat.SpaceBeforePeriodAfterDigits | src/utils/utils.ts:59 | the normalisation puts one space before the period |
| TimeFormat.MinutesSuffixShape | src/utils/utils.ts:168 | the minutes part is empty for zero minutes, else ':' and two digits that read back as the minutes |
| TimeFormat.FormatTimeSpaced | src/utils/utils.ts:59 | normalising `formatTime` text inserts one space before the period |
| TimeFormat.ParseFormatTime | src/utils/utils.ts:21-34 | the parser reads `formatTime` text back as its dial hour, minutes and period |
| TimeFormat.DialHourConverts | src/utils/utils.ts:37-45 | the 24-hour conversion of the dial hour and period of a time of day is its hour |
| TimeFormat.CombineDateAndTime | src/utils/utils.ts:54-64 | no date is the "Date is required" error; a success keeps the date |
| TimeFormat.CombineFormatTimeRoundTrip | src/utils/utils.ts:54-64 | combining a date with `formatTime` text gives the zero-padded "HH:MM" of that time |
| Constants.SubServicesHaveCategories | src/utils/Constants.tsx:3-16 | every treatment belongs to a listed category |
| Constants.SampleCalendarShape | src/utils/Constants.tsx:24-65 | sample bookings end after they start; the list is unsorted and one runs past 21:00 |
| Constants.HourLabel | src/utils/Constants.tsx:93 | label length: four characters for 10-12, three otherwise |
| Constants.GenerateHourLabels | src/utils/Constants.tsx:90-97 | thirteen labels, one per hour from 9 to 21 |
| Constants.HourLabelSamples | src/utils/Constants.tsx:90-97 | the first, noon and last labels are "9am", "12pm", "9pm" |
| Constants.HourLabelsDistinct | src/utils/Constants.tsx:90-97 | the thirteen labels are pairwise different |
| DateTimeSelection.ExpandedLimit | src/components/booking/DatetimeSelection.tsx:341-342 | the expanded limit exceeds the initial one |
| DateTimeSelection.GetVisibleSlots | src/components/booking/DatetimeSelection.tsx:340-354 | a prefix of the slots, as long as the mode allows; all of them in "all" mode |
| DateTimeSelection.VisibleCountOfSlots | src/components/booking/DatetimeSelection.tsx:340-354 | the number shown depends only on the total, the mode and the device |
| DateTimeSelection.MoreButtonIffHidden | src/components/booking/DatetimeSelection.tsx:380-382 | "Show More"/"Show All" is offered iff some slot is hidden |
| DateTimeSelection.ButtonsExclusive | src/components/booking/DatetimeSelection.tsx:418-432 | growing and shrinking buttons never show together |
| DateTimeSelection.ClickProgress | src/components/booking/DatetimeSelection.tsx:356-370 | a click never shows fewer; two clicks show everything |
| DateTimeSelection.InitialSearchDay | src/components/booking/DatetimeSelection.tsx:279-287 | the search starts today or tomorrow, tomorrow from 19:00 |
| DateTimeSelection.FreeTodayStartsToday | src/components/booking/DatetimeSelection.tsx:282-287 | a free day is never full, so before 19:00 the search starts today |
| DateTimeSelection.DateTimeSelector.constructor | src/components/booking/DatetimeSelection.tsx:38-41 | initial mode, no suggested date |
| DateTimeSelection.DateTimeSelector.VisibleSlots | src/components/booking/DatetimeSelection.tsx:376 | the shown slots are a prefix of the list |
| DateTimeSelection.DateTimeSelector.HandleShowMoreClick | src/components/booking/DatetimeSelection.tsx:356-370 | initial goes to all or expanded by the expanded limit; expanded goes to all |
| DateTimeSelection.DateTimeSelector.ShowLess | src/components/booking/DatetimeSelection.tsx:432-434 | back to the initial mode |
| DateTimeSelection.DateTimeSelector.FindInitialDate | src/components/booking/DatetimeSelection.tsx:276-296 | remembers the first bookable day from the chosen start day, or keeps the old one when none |
| DateTimeSelection.DateTimeSelector.CalendarDisabled | src/components/booking/DatetimeSelection.tsx:298-321 | one button per day, disabled iff the day is not available |
| BookingContext.MergeClientInfo | src/context/BookingContext.tsx:72-76 | each key the partial carries wins, the others are kept |
| BookingContext.BookingReducer | src/context/BookingContext.tsx:45-97 | every action keeps date, start and end time chosen together or not at all |
| BookingContext.SetServicesClearsChain | src/context/BookingContext.tsx:47-56 | new services clear artist, date and times, and change nothing else |
| BookingContext.SetArtistClearsDateTime | src/context/BookingContext.tsx:57-64 | a new artist clears date and times and keeps the services |
| BookingContext.SetDateTimeOnlyDateTime | src/context/BookingContext.tsx:65-71 | setting the date and time touches only those three fields |
| BookingContext.MergeClientInfoLaws | src/context/BookingContext.tsx:72-76 | an empty partial changes nothing; merging is idempotent; two merges are one merge of the overlay |
| BookingContext.SingleFieldActions | src/context/BookingContext.tsx:77-91 | loading, error and confirmation each change their own field only |
| BookingContext.ResetIdempotent | src/context/BookingContext.tsx:92-93 | reset yields the initial state from anywhere |
| BookingContext.UnknownActionIgnored | src/context/BookingContext.tsx:94-95 | an unknown action leaves the state unchanged |
| BookingContext.DispatchKeepsDateTimeTogether | src/context/BookingContext.tsx:114-160 | any sequence of dispatched actions keeps date and times together |
| BookingContext.NoStaleDate | src/context/BookingContext.tsx:47-56 | after new services, no date survives unless set again |
| BookingContext.NoDateWithoutSetDateTime | src/context/BookingContext.tsx:45-97 | without SET_DATE_TIME no date appears |
| BookingStateHook.OrNull | src/hooks/useBookingState.ts:41-47 | `value \|\| null`: present iff truthy, and then unchanged |
| BookingStateHook.BookingStateHolder.constructor | src/hooks/useBookingState.ts:38-48 | each field seeded from the initial state or its default when missing or falsy; a given service array is kept as the same reference |
| BookingStateHook.BookingStateHolder.SetServices | src/hooks/useBookingState.ts:75-85 | a different list clears artist, date and times and leaves the booking incomplete; totals follow the new list |
| BookingStateHook.BookingStateHolder.SetArtist | src/hooks/useBookingState.ts:87-96 | another artist clears date and times, the same one keeps them |
| BookingStateHook.BookingStateHolder.SetDateTime | src/hooks/useBookingState.ts:98-105 | the three fields and nothing else |
| BookingStateHook.BookingStateHolder.SetClientInfo | src/hooks/useBookingState.ts:107-112 | contact details become the merge with the partial |
| BookingStateHook.BookingStateHolder.SetLoading | src/hooks/useBookingState.ts:114-119 | the loading flag only |
| BookingStateHook.BookingStateHolder.SetError | src/hooks/useBookingState.ts:121-126 | the error only |
| BookingStateHook.BookingStateHolder.ResetBooking | src/hooks/useBookingState.ts:128-139 | everything back to empty; incomplete, total price and duration 0 |
| BookingStateHook.ServicesChangeMakesIncomplete | src/hooks/useBookingState.ts:62-72 | in the reducer store too, new services leave no booking complete |
| BookingStateHook.ReselectInitialServices | src/hooks/useBookingState.ts:38-83 | passing the seeded service array again keeps the seeded artist, and a new array clears it |
| Patterns.DomainHasNoAt | src/services/validation.ts:4 | a matched domain holds no '@' |
| Patterns.LocalHasNoAt | src/services/validation.ts:4 | a local part holds no '@' |
| Patterns.OnlyAtSplit | src/services/validation.ts:4 | in an address split at an '@', that is the only '@' |
| Patterns.EmailHasOneAt | src/services/validation.ts:4 | a matched address has exactly one '@' |
| Patterns.PhoneLengthBounds | src/services/validation.ts:5 | an accepted phone is 10 to 15 characters long |
| Patterns.EmailAccepted | src/services/validation.ts:4 | "jo@mail.co" matches the address pattern |
| Patterns.EmailShortTopLevelRefused | src/services/validation.ts:4 | "jo@mail.c" does not: the top-level part needs two letters |
| Patterns.EmailWithoutAtRefused | src/services/validation.ts:4 | "jo.mail.com" does not: there is no '@' |
| Patterns.PlainPhoneAccepted | src/services/validation.ts:5 | ten bare digits match the first alternative |
| Patterns.CountryCodePhoneAccepted | src/services/validation.ts:5 | "+1 5551234567" matches the first alternative |
| Patterns.GroupedPhoneAccepted | src/services/validation.ts:5 | "555-123-4567" matches the second alternative |
| Patterns.BracketedPhoneAccepted | src/services/validation.ts:5 | "(555) 123-4567" matches the third alternative |
| Patterns.ShortPhoneRefused | src/services/validation.ts:5 | the seven-digit "555-1234" matches no alternative |
| Validation.Required | src/services/validation.ts:13-19 | valid iff some non-space character; otherwise "<field> is required" |
| Validation.MinLength | src/services/validation.ts:21-27 | valid iff length >= min, with its message otherwise |
| Validation.MaxLength | src/services/validation.ts:29-35 | valid iff length <= max, with its message otherwise |
| Validation.Email | src/services/validation.ts:37-44 | valid iff empty or matching the address pattern |
| Validation.Phone | src/services/validation.ts:46-53 | valid iff empty or matching the phone pattern |
| Validation.EmailOrPhone | src/services/validation.ts:55-61 | valid iff either is non-empty |
| Validation.NameError | src/services/validation.ts:73-87 | no error iff non-blank and 2-50 long; otherwise the first failing message, the maximum winning over the minimum |
| Validation.OwnEmailError | src/services/validation.ts:89-100 | no error iff absent, or matching and at most 60 long |
| Validation.OwnPhoneError | src/services/validation.ts:102-108 | no error iff absent or matching |
| Validation.MessageError | src/services/validation.ts:117-123 | no error iff at most 250 characters |
| Validation.FieldErrors | src/services/validation.ts:73-108 | the name, address and phone blocks give an entry for a field iff its own check fails, holding that check's message |
| Validation.AddEither | src/services/validation.ts:110-115 | with both contact fields empty, the either-or message goes to each contact field with no or an empty entry; existing messages and other fields stay |
| Validation.ClientInfoErrors | src/services/validation.ts:65-129 | the keys and messages of the error map, field by field, with the either-or error on empty contact fields |
| Validation.ClientInfoValidIff | src/services/validation.ts:125-128 | the map is empty iff every field passes |
| Validation.OwnEmailErrorNotEither | src/services/validation.ts:89-115 | no own address error reads like the either-or error |
| Validation.EitherErrorOnlyWhenBothEmpty | src/services/validation.ts:110-115 | the either-or error fires only when both contact fields are empty, and then it is written |
| Validation.CheckName | src/services/validation.ts:73-87 | the name block writes exactly the name's own error, if any, and leaves other keys alone |
| Validation.CheckEmail | src/services/validation.ts:89-100 | the e-mail block writes exactly the address's own error, if any |
| Validation.CheckPhone | src/services/validation.ts:102-108 | the phone block writes exactly the phone's own error, if any |
| Validation.CheckEither | src/services/validation.ts:110-115 | the either-or block writes its error only to contact fields with no entry |
| Validation.CheckMessage | src/services/validation.ts:117-123 | the message block writes exactly the message's own error, if any |
| Validation.ValidateClientInfo | src/services/validation.ts:65-129 | the map filled in source order is `ClientInfoErrors`; valid iff every field passes |
| Validation.BookingDataErrors | src/services/validation.ts:132-160 | one entry per missing choice, with its message |
| Validation.BookingDataValidIff | src/services/validation.ts:132-160 | the booking map is empty iff services, artist, date and time are all chosen |
| Validation.ValidateBookingData | src/services/validation.ts:132-160 | valid iff services, artist, date and time are all chosen |
| Validation.ValidatedBookingIsComplete | src/services/validation.ts:132-160 | a booking both checks accept is complete for the state hook |
| FormValidation.OrFallback | src/hooks/useFormValidation.ts:215 | `message \|\| fallback`: an empty message falls back too |
| FormValidation.RequiredCheck | src/hooks/useFormValidation.ts:182-191 | errors exactly on undefined, null, "" and the empty list |
| FormValidation.EmailCheck | src/hooks/useFormValidation.ts:193-199 | a falsy value passes; otherwise passes iff it matches the address pattern |
| FormValidation.PhoneCheck | src/hooks/useFormValidation.ts:201-207 | a falsy value passes; otherwise passes iff it matches the phone pattern |
| FormValidation.MinLengthCheck | src/hooks/useFormValidation.ts:209-216 | a falsy value passes; otherwise passes iff its length is at least `min`, with the message or default text |
| FormValidation.MaxLengthCheck | src/hooks/useFormValidation.ts:218-225 | a falsy value passes; otherwise passes iff its length is at most `max`, with the message or default text |
| FormValidation.EmailOrPhoneCheck | src/hooks/useFormValidation.ts:227-235 | no form passes; otherwise passes iff some contact field, under either name, is filled |
| FormValidation.RequiredWeakerThanService | src/hooks/useFormValidation.ts:182-191 | what the service requires passes the hook; a blank string passes only the hook |
| FormValidation.FormatChecksAgreeWithService | src/hooks/useFormValidation.ts:193-207 | on strings, the hook's address and phone checks agree with the service's |
| FormValidation.EitherAgreesWithService | src/hooks/useFormValidation.ts:227-235 | on contact details, the either-or check agrees with the service's |
| FormValidation.LengthFallbackMessages | src/hooks/useFormValidation.ts:209-225 | the default and fallback texts of failed length checks |
| FormValidation.ContactRulesLooserThanService | src/hooks/useFormValidation.ts:180-235 | a one-letter name passes the rules but not the service |
| FormValidation.Form.constructor | src/hooks/useFormValidation.ts:51-59 | initial values, no errors, nothing touched, not dirty |
| FormValidation.Form.ValidateField | src/hooks/useFormValidation.ts:62-73 | no rule: nothing changes; otherwise the answer is stored under the field, making the form invalid |
| FormValidation.CollectErrors | src/hooks/useFormValidation.ts:77-86 | the loop over the ruled fields keeps exactly the fields whose rule reports a message, with that message; the flag is whether none did |
| FormValidation.Form.ValidateForm | src/hooks/useFormValidation.ts:76-99 | errors hold exactly the failing fields, all ruled fields touched, valid iff none fails |
| FormValidation.Form.SetFieldValue | src/hooks/useFormValidation.ts:102-113 | the value replaced, the form dirty |
| FormValidation.Form.SetFormValues | src/hooks/useFormValidation.ts:139-150 | new values override key by key, the others kept |
| FormValidation.Form.SetFieldTouched | src/hooks/useFormValidation.ts:124-130 | marks the field; on a blur with validation enabled, validates it |
| FormValidation.Form.ResetForm | src/hooks/useFormValidation.ts:153-158 | back to the initial values, no errors, nothing touched, valid |
| ServiceString.MainServiceOf | src/components/booking/BookingSystem.tsx:224 | the found category has the id; none iff no category has it |
| ServiceString.CategoryNameFound | src/components/booking/BookingSystem.tsx:251-252 | a found category gives its name to the `\|\| ''` lookup |
| ServiceString.FindService | src/components/booking/BookingSystem.tsx:223-226 | a treatment with the names, or none has them |
| ServiceString.MatchOne | src/components/booking/BookingSystem.tsx:219-230 | a token names at most one catalogue treatment |
| ServiceString.MatchTokens | src/components/booking/BookingSystem.tsx:218-233 | at most one treatment per token, all from the catalogue |
| ServiceString.MatchTokensStep | src/components/booking/BookingSystem.tsx:218-233 | the reduce over one more token appends exactly what that token matches |
| ServiceString.ParsedServices | src/components/booking/BookingSystem.tsx:206-237 | a parsed list comes back as is; other values give []; text gives catalogue treatments, at most one per token |
| ServiceString.ParseServiceString | src/components/booking/BookingSystem.tsx:206-237 | the token loop returns `ParsedServices` |
| ServiceString.CutNameHasNoSpace | src/components/booking/BookingSystem.tsx:219-220 | a name cut from a token holds no space |
| ServiceString.MatchedNamesHaveNoSpace | src/components/booking/BookingSystem.tsx:218-233 | no treatment matched from space-free tokens has a space in its name |
| ServiceString.NoSpacedNameParsed | src/components/booking/BookingSystem.tsx:213-233 | from any text, no treatment with a space in its name is parsed |
| ServiceString.VolumeSetNeverParsed | src/components/booking/BookingSystem.tsx:212-233 | "Lashes-Volume Set" never comes back |
| ServiceString.ServiceTokens | src/components/booking/BookingSystem.tsx:212 | one "Category-Treatment" token per service |
| ServiceString.Regroup | src/components/booking/BookingSystem.tsx:215 | regrouping never adds tokens |
| ServiceString.RegroupOpen | src/components/booking/BookingSystem.tsx:215-220 | in the corrected regrouping, a word that starts with a category name and a dash opens a new token |
| ServiceString.RegroupGlue | src/components/booking/BookingSystem.tsx:215-220 | in the corrected regrouping, any other word is glued to the previous token with a space |
| ServiceString.RegroupWords | src/components/booking/BookingSystem.tsx:212-220 | splitting well-shaped tokens into words and regrouping them gives the tokens back |
| ServiceString.TokenWords | src/components/booking/BookingSystem.tsx:212-220 | "Category-Treatment" opens with a token-starting word and no later word starts one |
| ServiceString.TokenCut | src/components/booking/BookingSystem.tsx:219-220 | cutting "Category-Treatment" at its first dash and rejoining the rest gives back both names |
| ServiceString.MatchEachToken | src/components/booking/BookingSystem.tsx:218-233 | tokens that each name one treatment are matched to exactly those treatments, in order |
| ServiceString.EmptyRoundTrip | src/components/booking/BookingSystem.tsx:212-237 | the empty list, written "(0) ", is read back as the empty list |
| ServiceString.FormattedWords | src/components/booking/BookingSystem.tsx:215 | removing the count prefix and splitting on spaces yields the words of the treatment tokens |
| ServiceString.TokensOfCatalogue | src/components/booking/BookingSystem.tsx:219-227 | each catalogue treatment's token is well shaped and matches that treatment alone |
| ServiceString.CorrectedServices | src/components/booking/BookingSystem.tsx:206-237 | the corrected parser keeps the list and other-value cases; text gives catalogue treatments |
| ServiceString.CorrectedRoundTrip | src/components/booking/BookingSystem.tsx:212-233 | the corrected parser reads back every list of catalogue treatments written in the format |
| ServiceString.CatalogueWellFormed | src/utils/Constants.tsx:3-16 | the shipped catalogue can be written in the format and read back |
| ServiceString.ShippedCategory | src/utils/Constants.tsx:3-16 | the shipped treatment at position k belongs to the category at position k / 2 |
| ServiceString.ShippedNamesDistinct | src/utils/Constants.tsx:9-16 | the six shipped treatment names all differ |
| ServiceString.CatalogueFind | src/components/booking/BookingSystem.tsx:223-226 | each shipped treatment is the one `find` returns for its category and name |
| ServiceString.SampleParse | src/components/booking/BookingSystem.tsx:212-233 | on the sample, the as-written parser loses the volume set; the corrected one returns all three |
| JsText.JoinSplit | src/components/booking/BookingSystem.tsx:219-220 | joining a split gives back the string |
| JsText.TrimNonEmpty | src/services/validation.ts:14 | the trimmed length is positive iff some character is not white space |
| JsText.PadStart2Small | src/utils/utils.ts:49-50 | the two characters of a number below 100 padded to two digits |
| BookingSystem.ValidateBookingFields | src/components/booking/BookingSystem.tsx:162-171 | passes iff no flag is set iff the booking is complete; the first three flags are the booking checks' keys |
| BookingSystem.ServiceAcceptedPassesFields | src/components/booking/BookingSystem.tsx:162-171 | a booking the validation service accepts passes the page's check |
| BookingSystem.RequiredNames | src/components/booking/BookingSystem.tsx:250-253 | one category name per selected treatment |
| BookingSystem.Distinct | src/components/booking/BookingSystem.tsx:255 | the same names, each once |
| BookingSystem.AvailableArtists | src/components/booking/BookingSystem.tsx:248-262 | exactly the artists who can serve the selection |
| BookingSystem.CanServeIff | src/components/booking/BookingSystem.tsx:257-260 | can serve iff offering "all" or every selected category |
| BookingSystem.AvailableArtistsIff | src/components/booking/BookingSystem.tsx:248-262 | kept iff listed and offering "all" or every category |
| BookingSystem.AvailableArtistsAppend | src/components/booking/BookingSystem.tsx:249 | the filter keeps order |
| BookingSystem.AllQualifyKeepsEveryone | src/components/booking/BookingSystem.tsx:248-262 | when everyone qualifies, the whole list |
| BookingSystem.EmptySelectionKeepsEveryone | src/components/booking/BookingSystem.tsx:255-260 | nothing selected keeps everyone |
| BookingSystem.SampleNeeds | src/components/booking/BookingSystem.tsx:257-260 | for a threading and a facial treatment, an artist qualifies exactly when offering "all" or both categories |
| BookingSystem.SampleVerdicts | src/utils/Constants.tsx:18-88 | of the shipped artists, Sammy and Weekends can serve a threading and a facial treatment, Rebus and Weekdays cannot |
| BookingSystem.SampleAfterSammy | src/components/booking/BookingSystem.tsx:248-262 | after Sammy, the filter keeps only Weekends |
| BookingSystem.SampleAvailableArtists | src/components/booking/BookingSystem.tsx:248-262 | the filtered list for that selection is [Sammy, Weekends] |
| BookingSystem.PrefillTimeAsWrittenMatchesFormat | src/components/booking/BookingSystem.tsx:126-131 | the prefill text equals `formatTime`'s iff the minutes are 0 or two-digit |
| BookingSystem.PrefillTimeAsWrittenRefused | src/components/booking/BookingSystem.tsx:126-145 | for minutes 1-9 the prefill text is refused by the time parser |
| BookingSystem.UnpaddedMinutesRefused | src/components/booking/BookingSystem.tsx:126-145 | an hour, a colon and a single minute digit before "am" or "pm" is refused by the date-and-time combiner |
| BookingSystem.NineOhFive | src/components/booking/BookingSystem.tsx:131 | 09:05 is written "9:5am" instead of "9:05am" |
| BookingSystem.PrefillTimeRoundTrip | src/components/booking/BookingSystem.tsx:126-143 | the corrected text, combined with the date, gives back the time |
| BookingSystem.PrefillContact | src/components/booking/BookingSystem.tsx:149-157 | the contact partial carries all four fields, with the client's name |
| BookingSystem.Prefill | src/components/booking/BookingSystem.tsx:108-159 | when updating, each truthy field is written through the setters in order, and otherwise nothing changes; with `fixed` false the services come from `parseServiceString` as written (`ParsedServices`) and the times are the unpadded text, with `fixed` true from the corrected parser and `formatTime` text |
| BookingSystem.PrefilledTimeReadsBack | src/components/booking/BookingSystem.tsx:122-145 | the corrected prefill time combines back into the start; the time as written is refused for minutes 1-9 |
| BookingSystem.PrefilledVolumeSet | src/components/booking/BookingSystem.tsx:111-115 | a prefilled "Lashes-Volume Set" does not select the volume set as written, and selects exactly it with the corrected parser |

## Left out

- Time zones. The source mixes UTC (`toISOString`) and local time (`getHours`, `toDateString`); the model uses one day number and one clock for everything, and DST is not modelled.
- Parsing of date strings by `new Date(...)`: appointment fields are already `Stamp`s, and the prefill's appointment time is given as a `Start(day, clock)`.
- Seconds and milliseconds of the current time: `Now` has minute resolution.
- Calendar month arithmetic (first weekday, days in a month, month navigation): the calendar method takes the first day and the month's length as parameters.
- `formatDateWithDay`: locale-dependent display text.
- `getDeviceType` and the `bookingDeviceType` field of the contact details: they read the browser environment and carry no logic.
- I/O: the appointments API (`updateBookedTimes` takes the response as a parameter; a thrown fetch error is a response without data), the captcha, the e-mail sender and the other API calls.
- React rendering, memoisation and effect scheduling. Each effect is modelled as a method run once with the current props.
- `scrollToError` and `navigator.vibrate`: DOM work.
- `handleChange` and `handleBlur`: they only read the DOM event and call `setFieldValue` / `setFieldTouched`, which are modelled.
- FormValidation.Form.SetFieldValue: the re-validation it schedules with `setTimeout` when `validateOnChange` is on and the field is touched is not modelled; errors are unchanged by the call itself, as in the source.
- FormValidation.Form.SetFormValues: the same deferred re-validation of touched fields is not modelled.
- Rules of the form hook are total functions of the value and the form; a rule that throws is not modelled.
- Regular expressions are written as predicates on the characters each pattern matches; strings are sequences of characters, not UTF-16 code units.
- `Number(...)` on text other than digit runs is not modelled beyond "not a number" (`None`).
- TimeOfDay.TimeToMinutesOfMinutesToTime and TimeOfDay.ClockTextLess hold below 100 hours: longer texts ("100:00") no longer have the fixed width the lemmas rely on.
- Utils.MergeFetched: the source's copy of the artists list is shallow, so it also mutates the shared artist records; the model works on an array of artist values, so that aliasing is not captured.
- Availability.SortByStart: the sort is a stable insertion sort; JavaScript's sort with equal keys is also stable, but the model does not tie the order of equal starts to a particular engine.
- `Partial<ClientInfo>` with a key present but set to `undefined` is modelled as an absent key; the prefill's missing e-mail or phone is written as "".
- BookingSystem.Prefill: the `fixed` parameter is not in the source; `fixed` false is the code as written, and `fixed` true applies the services and prefill-time corrections under "## Findings". A parsed service list is handed to `setServices` as a fresh array, so reference identity with the previous list is not kept; a truthy service value that is neither a string nor an array is `Other`.

## Findings

| source | as written | input that shows it | evidently intended | confidence | as-written member | corrected member |
|---|---|---|---|---|---|---|
| src/components/booking/BookingSystem.tsx:213-233 | the services text is split on every space, so a treatment name with a space is cut in two and matches nothing | "(3) Threading-Eyebrow Facial-Anti-Aging Lashes-Volume Set" never gives back Volume Set | every treatment written in the "(N) Category-Treatment ..." format is read back | not executed | ServiceString.NoSpacedNameParsed, ServiceString.VolumeSetNeverParsed | ServiceString.CorrectedServices, ServiceString.CorrectedRoundTrip, ServiceString.SampleParse, BookingSystem.PrefilledVolumeSet |
| src/components/booking/BookingSystem.tsx:126-143 | the prefilled start and end times write minutes without padding | an appointment at 09:05 gives "9:5am", which the time parser refuses | the `formatTime` text "9:05am", which combines back to 09:05 | not executed | BookingSystem.PrefillTimeAsWrittenRefused, BookingSystem.NineOhFive | BookingSystem.PrefillTime, BookingSystem.PrefillTimeRoundTrip, BookingSystem.PrefilledTimeReadsBack |
| src/utils/dateTimeSelection.utils.ts:70-72 | a same-day start at or before now + 2 h + 5 min is refused (`<=`) | at 11:55, the start 14:00 is refused, while DateTimeSelection.test.tsx:74-78 expects it to be accepted as "after 2-hour buffer" | a start before now + 2 h + 5 min is refused, so 14:00 is accepted (`<`) | not executed | Availability.TooSoon, Availability.LeadTimeAtFiveToNoon | Availability.SlotAvailableIntended, Availability.IntendedLeadTimeAtFiveToNoon, Availability.IntendedDiffersAtBufferEnd |
