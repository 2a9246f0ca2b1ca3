/**
 * `minutesToTime` and `timeToMinutes` of the availability engine: minute
 * counts to "HH:MM" text and back, with JavaScript's number formatting and
 * parsing.
 */
module ClockText {

  import opened Wrappers
  import opened JsText

  /** JavaScript's `a % b` for `b > 0`: truncates toward zero, so the result has the sign of `a`. */
  function JsRem(a: int, b: int): (r: int)
    requires b > 0
    ensures a >= 0 ==> r == a % b
    ensures a < 0 ==> -b < r <= 0
  {
    if a >= 0 then a % b else -((-a) % b)
  }

  /** `minutesToTime`: `Math.floor(m / 60)` and `m % 60`, each as `String(..).padStart(2, '0')`. */
  function MinutesToTime(m: int): string
  {
    PadStart2(IntToString(m / 60)) + ":" + PadStart2(IntToString(JsRem(m, 60)))
  }

  /** `timeToMinutes`: split on ':', `Number` of the first two parts; `NaN` is `None`. */
  function TimeToMinutes(time: string): Option<nat>
  {
    HoursAndMinutes(Split(time, ':'))
  }

  /** `const [hours, minutes] = parts.map(Number)` and `hours * 60 + minutes`. */
  function HoursAndMinutes(parts: seq<string>): Option<nat>
  {
    if |parts| < 2 then None
    else
      var hours, minutes := NumberOf(parts[0]), NumberOf(parts[1]);
      if hours.Some? && minutes.Some? then Some(hours.value * 60 + minutes.value) else None
  }

  /** Two digits, a colon and two digits. */
  predicate IsColonText(s: string)
  {
    |s| == 5 && IsDigit(s[0]) && IsDigit(s[1]) && s[2] == ':' && IsDigit(s[3]) && IsDigit(s[4])
  }

  /** The minute count "ab:cd" denotes: `ab` hours and `cd` minutes. */
  function ColonTextValue(s: string): nat
    requires IsColonText(s)
  {
    ClockMinutes(DigitValue(s[0]), DigitValue(s[1]), DigitValue(s[3]), DigitValue(s[4]))
  }

  /** The minute count of the clock digits "ab:cd". */
  function ClockMinutes(a: nat, b: nat, c: nat, d: nat): nat
  {
    (a * 10 + b) * 60 + c * 10 + d
  }

  /** Zero-padded "HH:MM" text of a time of day, as sliced out of an ISO date-time. */
  predicate IsClockText(s: string)
  {
    IsColonText(s) && DigitValue(s[0]) * 10 + DigitValue(s[1]) < 24 && DigitValue(s[3]) < 6
  }
}
