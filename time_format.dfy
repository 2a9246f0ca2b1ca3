/**
 * The text helpers of src/utils/utils.ts: `formatDuration`, the 12-hour time
 * parser and its 24-hour conversion, `formatTime`, and `combineDateAndTime`.
 * The regular expressions are written out as character tests.
 */
module TimeFormat {

  import opened Wrappers
  import opened JsText
  import opened ClockText
  import opened TimeOfDay

  // ---------------------------------------------------------------------
  // Reading numbers back
  // ---------------------------------------------------------------------

  /** The longest run of digits at the front of `s`. */
  function LeadingDigits(s: string): (d: string)
    ensures AllDigits(d) && |d| <= |s| && s[..|d|] == d
    ensures |d| < |s| ==> !IsDigit(s[|d|])
  {
    if s != [] && IsDigit(s[0]) then [s[0]] + LeadingDigits(s[1..]) else []
  }

  lemma {:induction false} LeadingDigitsOf(d: string, rest: string)
    requires AllDigits(d) && (rest == [] || !IsDigit(rest[0]))
    ensures LeadingDigits(d + rest) == d
  {
    if d != [] {
      assert (d + rest)[1..] == d[1..] + rest;
      LeadingDigitsOf(d[1..], rest);
    } else {
      assert d + rest == rest;
    }
  }

  /** `String(n)` read back as a number is `n`. */
  lemma {:induction false} NatToStringValue(n: nat)
    ensures DigitsValue(NatToString(n)) == n
  {
    if n >= 10 {
      NatToStringValue(n / 10);
      var s := NatToString(n);
      assert s[..|s| - 1] == NatToString(n / 10);
    }
  }

  // ---------------------------------------------------------------------
  // formatDuration
  // ---------------------------------------------------------------------

  /** `formatDuration`: "N mins" under an hour, else "Hhr" or "Hhrs", then " M mins" if minutes remain. */
  function FormatDuration(minutes: nat): (r: string)
    ensures minutes < 60 ==> |r| > 5 && r[|r| - 5..] == " mins"
  {
    if minutes < 60 then NatToString(minutes) + " mins"
    else
      var hours, rest := minutes / 60, minutes % 60;
      if rest == 0 then NatToString(hours) + HoursUnit(hours)
      else NatToString(hours) + (HoursUnit(hours) + " " + NatToString(rest) + " mins")
  }

  /** "hr" for one hour, "hrs" for more. */
  function HoursUnit(hours: nat): (u: string)
    ensures u == "hr" || u == "hrs"
    ensures u == "hrs" <==> hours > 1
  {
    "hr" + (if hours > 1 then "s" else "")
  }

  /** Reads a duration text of the three shapes back into minutes. */
  function ReadDuration(s: string): (r: Option<nat>)
  {
    var h := LeadingDigits(s);
    if h == [] then None else ReadUnits(DigitsValue(h), s[|h|..])
  }

  /** What follows the leading number: " mins", "hr", "hrs", or "hr"/"hrs" then " M mins". */
  function ReadUnits(hours: nat, rest: string): (r: Option<nat>)
  {
    if rest == " mins" then Some(hours)
    else if rest == "hr" || rest == "hrs" then Some(60 * hours)
    else if |rest| >= 3 && rest[..3] == "hr " then ReadMinutes(hours, rest[3..])
    else if |rest| >= 4 && rest[..4] == "hrs " then ReadMinutes(hours, rest[4..])
    else None
  }

  function ReadMinutes(hours: nat, tail: string): (r: Option<nat>)
  {
    var m := LeadingDigits(tail);
    if m != [] && tail[|m|..] == " mins" then Some(60 * hours + DigitsValue(m)) else None
  }

  lemma ReadDurationOf(h: string, rest: string)
    requires h != [] && AllDigits(h) && (rest == [] || !IsDigit(rest[0]))
    ensures ReadDuration(h + rest) == ReadUnits(DigitsValue(h), rest)
  {
    LeadingDigitsOf(h, rest);
    assert (h + rest)[|h|..] == rest;
  }

  lemma ReadMinutesOf(hours: nat, m: string, total: nat)
    requires m != [] && AllDigits(m) && total == 60 * hours + DigitsValue(m)
    ensures ReadMinutes(hours, m + " mins") == Some(total)
  {
    LeadingDigitsOf(m, " mins");
    assert (m + " mins")[|m|..] == " mins";
  }

  lemma ReadUnitsMixed(hours: nat, unit: string, m: string, total: nat)
    requires unit == "hr" || unit == "hrs"
    requires m != [] && AllDigits(m) && total == 60 * hours + DigitsValue(m)
    ensures ReadUnits(hours, unit + " " + m + " mins") == Some(total)
  {
    var tail := m + " mins";
    var rest := unit + " " + m + " mins";
    assert rest == unit + (" " + tail);
    assert rest[0] == 'h' && |rest| > 4;
    assert rest != " mins" && rest != "hr" && rest != "hrs";
    if unit == "hrs" {
      ReadUnitsLong(hours, rest, tail);
    } else {
      assert rest[..3] == "hr " && rest[3..] == tail;
    }
    ReadMinutesOf(hours, m, total);
  }

  lemma ReadUnitsLong(hours: nat, rest: string, tail: string)
    requires rest == "hrs" + (" " + tail)
    ensures ReadUnits(hours, rest) == ReadMinutes(hours, tail)
  {
    assert rest[2] == 's' && |rest| >= 4;
    assert rest != " mins" && rest != "hr" && rest != "hrs";
    assert rest[..3] != "hr ";
    assert rest[..4] == "hrs " && rest[4..] == tail;
  }

  lemma RoundTripUnderAnHour(minutes: nat)
    requires minutes < 60
    ensures ReadDuration(FormatDuration(minutes)) == Some(minutes)
  {
    ReadDurationOf(NatToString(minutes), " mins");
    NatToStringValue(minutes);
  }

  lemma RoundTripWholeHours(minutes: nat)
    requires minutes >= 60 && minutes % 60 == 0
    ensures ReadDuration(FormatDuration(minutes)) == Some(minutes)
  {
    var hours := minutes / 60;
    assert FormatDuration(minutes) == NatToString(hours) + HoursUnit(hours);
    ReadDurationOf(NatToString(hours), HoursUnit(hours));
    NatToStringValue(hours);
  }

  lemma FormatDurationMixedShape(minutes: nat)
    requires minutes >= 60 && minutes % 60 != 0
    ensures FormatDuration(minutes)
         == NatToString(minutes / 60) + (HoursUnit(minutes / 60) + " " + NatToString(minutes % 60) + " mins")
  {
  }

  lemma RoundTripMixed(minutes: nat)
    requires minutes >= 60 && minutes % 60 != 0
    ensures ReadDuration(FormatDuration(minutes)) == Some(minutes)
  {
    FormatDurationMixedShape(minutes);
    ReadMixedText(minutes / 60, minutes % 60, minutes);
  }

  /** The mixed text of `hours` and `rest` minutes reads back as their total. */
  lemma ReadMixedText(hours: nat, rest: nat, total: nat)
    requires total == 60 * hours + rest
    ensures ReadDuration(NatToString(hours) + (HoursUnit(hours) + " " + NatToString(rest) + " mins"))
      == Some(total)
  {
    var tail := HoursUnit(hours) + " " + NatToString(rest) + " mins";
    assert tail[0] == 'h';
    ReadDurationOf(NatToString(hours), tail);
    NatToStringValue(hours);
    NatToStringValue(rest);
    ReadUnitsMixed(hours, HoursUnit(hours), NatToString(rest), total);
  }

  /** Reading the formatted duration back gives the minutes: the text loses nothing. */
  lemma FormatDurationRoundTrip(minutes: nat)
    ensures ReadDuration(FormatDuration(minutes)) == Some(minutes)
  {
    if minutes < 60 {
      RoundTripUnderAnHour(minutes);
    } else if minutes % 60 == 0 {
      RoundTripWholeHours(minutes);
    } else {
      RoundTripMixed(minutes);
    }
  }

  /** Durations of the catalogue as the summary shows them. */
  lemma FormatDurationSamples()
    ensures FormatDuration(45) == "45 mins"
    ensures FormatDuration(90) == "1hr 30 mins"
  {
    assert FormatDuration(45) == "45 mins" by {
      assert NatToString(45) == NatToString(4) + [DigitChar(5)];
    }
    assert 90 / 60 == 1 && 90 % 60 == 30;
    assert NatToString(30) == NatToString(3) + [DigitChar(0)];
  }

  /** Whole hours: singular for one, plural otherwise. */
  lemma FormatDurationHourSamples()
    ensures FormatDuration(60) == "1hr"
    ensures FormatDuration(120) == "2hrs"
  {
    assert 60 / 60 == 1 && 60 % 60 == 0;
    assert 120 / 60 == 2 && 120 % 60 == 0;
  }

  // ---------------------------------------------------------------------
  // parseTimeString and convertTo24HourTime
  // ---------------------------------------------------------------------

  /** What `parseTimeString` returns: the hour, the minutes and "am" or "pm". */
  datatype TimeParts = TimeParts(hours: nat, minutes: nat, period: string)

  const InvalidTimeFormat := "Invalid time format. Expected something like \"9am\" or \"1:15pm\"."

  /** `toLowerCase` on the letters the period can hold. */
  function Lower(c: char): char
  {
    if 'A' <= c <= 'Z' then (c as int + 32) as char else c
  }

  /** `[ap]m` with the case-insensitive flag. */
  predicate IsPeriodAt(s: string, i: int)
    requires 0 <= i
  {
    i + 1 < |s| && (Lower(s[i]) == 'a' || Lower(s[i]) == 'p') && Lower(s[i + 1]) == 'm'
  }

  /** The optional `(:\d{2})` group: its value and what follows it, or nothing and `s` itself. */
  function MinutesGroup(s: string): (Option<nat>, string)
  {
    if |s| >= 3 && s[0] == ':' && IsDigit(s[1]) && IsDigit(s[2])
    then (Some(DigitsValue(s[1..3])), s[3..])
    else (None, s)
  }

  /**
   * `parseTimeString`: a match of `^(\d{1,2})(:\d{2})?\s?(am|pm)$`, case
   * insensitive, gives the hour, the minutes (0 when absent) and the period in
   * lower case; any other text is refused with the source's message.
   */
  function ParseTimeString(time: string): (r: Result<TimeParts, string>)
    ensures r.Success? ==> r.value.period == "am" || r.value.period == "pm"
    ensures r.Failure? ==> r.error == InvalidTimeFormat
  {
    var h := LeadingDigits(time);
    if |h| == 0 || |h| > 2 then Failure(InvalidTimeFormat)
    else ParseAfterHour(DigitsValue(h), time[|h|..])
  }

  /** The rest of the match after the hour digits: `(:\d{2})?\s?(am|pm)$`. */
  function ParseAfterHour(hours: nat, s: string): (r: Result<TimeParts, string>)
    ensures r.Success? ==> r.value.hours == hours && (r.value.period == "am" || r.value.period == "pm")
    ensures r.Failure? ==> r.error == InvalidTimeFormat
  {
    var (minutes, rest) := MinutesGroup(s);
    var rest' := if rest != [] && IsJsSpace(rest[0]) then rest[1..] else rest;
    if |rest'| == 2 && IsPeriodAt(rest', 0) then
      Success(TimeParts(hours, if minutes.Some? then minutes.value else 0, [Lower(rest'[0]), Lower(rest'[1])]))
    else Failure(InvalidTimeFormat)
  }

  /** `convertTo24HourTime`: 1-11 pm gain twelve hours, 12 am becomes 0, the rest is unchanged. */
  function ConvertTo24HourTime(hours: int, period: string): (r: int)
    ensures period == "pm" && 1 <= hours <= 11 ==> r == hours + 12
  {
    if period == "pm" && hours < 12 then hours + 12
    else if period == "am" && hours == 12 then 0
    else hours
  }

  /** On the clock hours 1-12 of either period, the conversion is a bijection onto 0-23. */
  lemma ConvertTo24HourTimeBijective(h1: int, p1: string, h2: int, p2: string)
    requires 1 <= h1 <= 12 && 1 <= h2 <= 12
    requires p1 in {"am", "pm"} && p2 in {"am", "pm"}
    ensures 0 <= ConvertTo24HourTime(h1, p1) < 24
    ensures ConvertTo24HourTime(h1, p1) == ConvertTo24HourTime(h2, p2) ==> h1 == h2 && p1 == p2
  {
  }

  /** `format24HourTime`: both numbers padded to two digits, joined by ':'. */
  function Format24HourTime(hours: int, minutes: int): string
  {
    PadStart2(IntToString(hours)) + ":" + PadStart2(IntToString(minutes))
  }

  /** For a time of day, the 24-hour text is the clock text of its minute count. */
  lemma Format24HourTimeIsClockText(hours: int, minutes: int)
    requires 0 <= hours < 24 && 0 <= minutes < 60
    ensures Format24HourTime(hours, minutes) == MinutesToTime(hours * 60 + minutes)
  {
    assert (hours * 60 + minutes) / 60 == hours;
    assert JsRem(hours * 60 + minutes, 60) == minutes;
  }

  // ---------------------------------------------------------------------
  // formatTime and combineDateAndTime
  // ---------------------------------------------------------------------

  /** The hour on a 12-hour dial: `hours % 12 || 12`. */
  function DialHour(hours: nat): (r: nat)
    ensures 1 <= r <= 12
  {
    if hours % 12 == 0 then 12 else hours % 12
  }

  function Period(hours: nat): string
  {
    if hours >= 12 then "pm" else "am"
  }

  /** `formatTime`: dial hour, then ":MM" only when minutes are not zero, then the period. */
  function FormatTime(hours: nat, minutes: nat): (r: string)
  {
    NatToString(DialHour(hours)) + MinutesSuffix(minutes) + Period(hours)
  }

  /** The `:MM` part of `formatTime`, present only when minutes are not zero. */
  function MinutesSuffix(minutes: nat): string
  {
    if minutes > 0 then ":" + PadStart2(NatToString(minutes)) else ""
  }

  /** `time.replace(/([ap]m)/i, ' $1')`: a space before the first period letter pair. */
  function SpaceBeforePeriod(s: string): (r: string)
  {
    if s == [] then []
    else if IsPeriodAt(s, 0) then " " + s
    else [s[0]] + SpaceBeforePeriod(s[1..])
  }

  /** The "YYYY-MM-DDTHH:MM" result, with the date part kept as a day number. */
  datatype DateTimeText = DateTimeText(day: int, time: string)

  /** `combineDateAndTime`: no date is an error; otherwise parse, convert to 24 hours and format. */
  function CombineDateAndTime(date: Option<int>, time: string): (r: Result<DateTimeText, string>)
    ensures date.None? ==> r == Failure("Date is required")
    ensures r.Success? ==> date.Some? && r.value.day == date.value && |r.value.time| >= 5
  {
    if date.None? then Failure("Date is required")
    else
      match ParseTimeString(SpaceBeforePeriod(time))
      case Failure(e) => Failure(e)
      case Success(p) =>
        Success(DateTimeText(date.value, Format24HourTime(ConvertTo24HourTime(p.hours, p.period), p.minutes)))
  }

  /** Text made of digits and ':' holds no period letters. */
  predicate DigitsAndColons(s: string)
  {
    forall i :: 0 <= i < |s| ==> IsDigit(s[i]) || s[i] == ':'
  }

  lemma {:induction false} SpaceBeforePeriodAfterDigits(x: string, p: string)
    requires DigitsAndColons(x) && (p == "am" || p == "pm")
    ensures SpaceBeforePeriod(x + p) == x + " " + p
  {
    if x == [] {
      assert x + p == p;
    } else {
      assert (x + p)[1..] == x[1..] + p;
      assert !IsPeriodAt(x + p, 0);
      SpaceBeforePeriodAfterDigits(x[1..], p);
      assert x + " " + p == [x[0]] + (x[1..] + " " + p);
    }
  }

  /** The parser reads one or two leading digits as the hour and hands the rest on. */
  lemma ParseTimeStringAfterHour(d: string, rest: string)
    requires 1 <= |d| <= 2 && AllDigits(d) && rest != [] && !IsDigit(rest[0])
    ensures ParseTimeString(d + rest) == ParseAfterHour(DigitsValue(d), rest)
  {
    LeadingDigitsOf(d, rest);
    assert (d + rest)[|d|..] == rest;
  }

  /** The parser on "D:MM p" or "D p", with one or two hour digits and a lower-case period. */
  lemma ParseDialText(d: string, m: string, p: string, hours: nat, minutes: nat)
    requires 1 <= |d| <= 2 && AllDigits(d) && DigitsValue(d) == hours
    requires m == [] || (|m| == 3 && m[0] == ':' && IsDigit(m[1]) && IsDigit(m[2]))
    requires m == [] ==> minutes == 0
    requires m != [] ==> DigitsValue(m[1..]) == minutes
    requires p == "am" || p == "pm"
    ensures ParseTimeString(d + m + " " + p) == Success(TimeParts(hours, minutes, p))
  {
    var rest := m + " " + p;
    AppendAssoc(d, m, " ");
    AppendAssoc(d, m + " ", p);
    assert rest[0] == ':' || rest[0] == ' ';
    ParseTimeStringAfterHour(d, rest);
    ParseAfterHourOf(hours, m, p, minutes);
  }

  lemma ParseAfterHourOf(hours: nat, m: string, p: string, minutes: nat)
    requires m == [] || (|m| == 3 && m[0] == ':' && IsDigit(m[1]) && IsDigit(m[2]))
    requires m == [] ==> minutes == 0
    requires m != [] ==> DigitsValue(m[1..]) == minutes
    requires p == "am" || p == "pm"
    ensures ParseAfterHour(hours, m + " " + p) == Success(TimeParts(hours, minutes, p))
  {
    var rest := m + " " + p;
    if m == [] {
      assert rest == " " + p;
      assert MinutesGroup(rest) == (None, " " + p);
    } else {
      assert rest[1..3] == m[1..];
      assert rest[3..] == " " + p;
      assert MinutesGroup(rest) == (Some(minutes), " " + p);
    }
    assert (" " + p)[1..] == p;
    assert [Lower(p[0]), Lower(p[1])] == p;
  }

  /** The dial hour is written with one or two digits that read back as itself. */
  lemma DialDigits(hours: nat)
    ensures var d := NatToString(DialHour(hours));
      1 <= |d| <= 2 && AllDigits(d) && DigitsValue(d) == DialHour(hours)
  {
    NatToStringValue(DialHour(hours));
  }

  /** The `:MM` part is empty for zero minutes, else a colon and two digits that read back as the minutes. */
  lemma MinutesSuffixShape(minutes: nat)
    requires minutes < 60
    ensures var m := MinutesSuffix(minutes);
      && (m == [] || (|m| == 3 && m[0] == ':' && IsDigit(m[1]) && IsDigit(m[2])))
      && (m == [] ==> minutes == 0)
      && (m != [] ==> DigitsValue(m[1..]) == minutes)
      && DigitsAndColons(m)
  {
    if minutes > 0 {
      var a, b := minutes / 10, minutes % 10;
      PadStart2Small(minutes);
      assert MinutesSuffix(minutes) == [':', DigitChar(a), DigitChar(b)];
      ColonTwoDigits(a, b);
    }
  }

  lemma ColonTwoDigits(a: nat, b: nat)
    requires a < 10 && b < 10
    ensures var m := [':', DigitChar(a), DigitChar(b)];
      m[1..] == [DigitChar(a), DigitChar(b)] && DigitsValue(m[1..]) == a * 10 + b && DigitsAndColons(m)
  {
    var m := [':', DigitChar(a), DigitChar(b)];
    assert m[1..] == [DigitChar(a), DigitChar(b)];
    DigitsValueTwo(m[1..]);
  }

  lemma DigitsAndColonsConcat(x: string, y: string)
    requires AllDigits(x) && DigitsAndColons(y)
    ensures DigitsAndColons(x + y)
  {
    assert forall i :: |x| <= i < |x + y| ==> (x + y)[i] == y[i - |x|];
  }

  /** `formatTime` text, with the space the normalisation inserts before the period. */
  lemma FormatTimeSpaced(hours: nat, minutes: nat)
    requires minutes < 60
    ensures SpaceBeforePeriod(FormatTime(hours, minutes))
      == NatToString(DialHour(hours)) + MinutesSuffix(minutes) + " " + Period(hours)
  {
    var d, m, p := NatToString(DialHour(hours)), MinutesSuffix(minutes), Period(hours);
    MinutesSuffixShape(minutes);
    DigitsAndColonsConcat(d, m);
    SpaceBeforePeriodAfterDigits(d + m, p);
  }

  /** The parser reads `formatTime` text back as its dial hour, minutes and period. */
  lemma ParseFormatTime(hours: nat, minutes: nat)
    requires minutes < 60
    ensures ParseTimeString(SpaceBeforePeriod(FormatTime(hours, minutes)))
      == Success(TimeParts(DialHour(hours), minutes, Period(hours)))
  {
    FormatTimeSpaced(hours, minutes);
    DialDigits(hours);
    MinutesSuffixShape(minutes);
    ParseDialText(NatToString(DialHour(hours)), MinutesSuffix(minutes), Period(hours), DialHour(hours), minutes);
  }

  /** The 24-hour conversion undoes the dial hour and period of a time of day. */
  lemma DialHourConverts(hours: nat)
    requires hours < 24
    ensures ConvertTo24HourTime(DialHour(hours), Period(hours)) == hours
  {
  }

  /**
   * For a time of day, combining a date with the `formatTime` text gives the
   * zero-padded "HH:MM" of that time: the 12-hour text round-trips.
   */
  lemma CombineFormatTimeRoundTrip(day: int, hours: nat, minutes: nat)
    requires hours < 24 && minutes < 60
    ensures CombineDateAndTime(Some(day), FormatTime(hours, minutes))
      == Success(DateTimeText(day, MinutesToTime(hours * 60 + minutes)))
  {
    ParseFormatTime(hours, minutes);
    DialHourConverts(hours);
    Format24HourTimeIsClockText(hours, minutes);
  }
}
