/**
 * The "HH:MM" helpers of the availability engine: converting between
 * minutes and zero-padded clock text, the store's opening hours, and the
 * booking-limit rule "start at or after 09:00 and end by 21:00".
 *
 * The engine compares clock strings with JavaScript's `<`/`<=`; the lemmas
 * here show that on zero-padded clock text this order is the order of the
 * minute values, so the rest of the model can compare integers.
 */
module TimeOfDay {

  import opened Wrappers
  import opened JsText
  import opened ClockText

  /** Minutes since midnight, as a `Date`'s `getHours() * 60 + getMinutes()`. */
  type Clock = m: int | 0 <= m < 1440

  const MinutesPerDay := 1440

  /** "09:00" and "21:00". */
  const StoreOpen: Clock := 540
  const StoreClose: Clock := 1260
  const OpenText := "09:00"
  const CloseText := "21:00"

  /** Adding minutes to a `Date` and reading back `toTimeString().slice(0, 5)`: wraps at midnight. */
  function ClockAdd(c: Clock, delta: nat): (r: Clock)
    ensures c + delta < MinutesPerDay ==> r == c + delta
    ensures MinutesPerDay <= c + delta < 2 * MinutesPerDay ==> r == c + delta - MinutesPerDay
  {
    (c + delta) % MinutesPerDay
  }

  /** Clock text of a non-negative minute count below 100 hours, character by character. */
  lemma MinutesToTimeChars(m: int)
    requires 0 <= m < 6000
    ensures MinutesToTime(m)
      == [DigitChar(m / 60 / 10), DigitChar(m / 60 % 10), ':', DigitChar(m % 60 / 10), DigitChar(m % 60 % 10)]
  {
    PadStart2Small(m / 60);
    PadStart2Small(m % 60);
  }

  lemma HoursAndMinutesOfDigits(a: string, b: string)
    requires AllDigits(a) && AllDigits(b)
    ensures HoursAndMinutes([a, b]) == Some(DigitsValue(a) * 60 + DigitsValue(b))
  {
    NumberOfDigits(a);
    NumberOfDigits(b);
  }

  lemma SplitAtColon(a: string, b: string)
    requires AllDigits(a) && AllDigits(b)
    ensures Split(a + [':'] + b, ':') == [a, b]
  {
    assert ':' !in a && ':' !in b by {
      assert !IsDigit(':');
    }
    SplitAfterFirst(a, b, ':');
    SplitWithout(b, ':');
  }

  /** `timeToMinutes` of two digit runs around a colon. */
  lemma TimeToMinutesOfParts(a: string, b: string)
    requires AllDigits(a) && AllDigits(b)
    ensures TimeToMinutes(a + [':'] + b) == Some(DigitsValue(a) * 60 + DigitsValue(b))
  {
    SplitAtColon(a, b);
    HoursAndMinutesOfDigits(a, b);
  }

  /** `timeToMinutes` of five characters "DD:DD". */
  lemma TimeToMinutesOfFive(x: string)
    requires IsColonText(x)
    ensures TimeToMinutes(x) == Some(ColonTextValue(x))
  {
    var a, b := [x[0], x[1]], [x[3], x[4]];
    assert x == a + [':'] + b;
    TimeToMinutesOfParts(a, b);
    TwoDigitParts(a, b);
  }

  lemma TwoDigitParts(a: string, b: string)
    requires |a| == 2 && |b| == 2 && AllDigits(a) && AllDigits(b)
    ensures DigitsValue(a) * 60 + DigitsValue(b) == ClockMinutes(DigitValue(a[0]), DigitValue(a[1]), DigitValue(b[0]), DigitValue(b[1]))
  {
    DigitsValueTwo(a);
    DigitsValueTwo(b);
  }

  /** The clock text of the digits `a`, `b`, `c`, `d`: "ab:cd". */
  lemma ClockTextOfDigits(a: nat, b: nat, c: nat, d: nat)
    requires a < 10 && b < 10 && c < 6 && d < 10
    ensures MinutesToTime(ClockMinutes(a, b, c, d))
      == [DigitChar(a), DigitChar(b), ':', DigitChar(c), DigitChar(d)]
  {
    ClockDigitsOf(a, b, c, d);
    MinutesToTimeChars(ClockMinutes(a, b, c, d));
  }

  lemma ClockDigitsOf(a: nat, b: nat, c: nat, d: nat)
    requires a < 10 && b < 10 && c < 6 && d < 10
    ensures var m := ClockMinutes(a, b, c, d);
      m < 6000 && m / 60 / 10 == a && m / 60 % 10 == b && m % 60 / 10 == c && m % 60 % 10 == d
  {
    var h, mm := a * 10 + b, c * 10 + d;
    var m := h * 60 + mm;
    assert m / 60 == h && m % 60 == mm;
  }

  /** Five-character colon text, rebuilt from its digit values. */
  lemma ColonTextDigits(s: string)
    requires IsColonText(s)
    ensures s == [DigitChar(DigitValue(s[0])), DigitChar(DigitValue(s[1])), ':', DigitChar(DigitValue(s[3])), DigitChar(DigitValue(s[4]))]
  {
    DigitCharOfValue(s[0]);
    DigitCharOfValue(s[1]);
    DigitCharOfValue(s[3]);
    DigitCharOfValue(s[4]);
  }

  /** `timeToMinutes` of the clock text of the digits "ab:cd". */
  lemma TimeToMinutesOfDigits(a: nat, b: nat, c: nat, d: nat)
    requires a < 10 && b < 10 && c < 10 && d < 10
    ensures TimeToMinutes([DigitChar(a), DigitChar(b), ':', DigitChar(c), DigitChar(d)]) == Some(ClockMinutes(a, b, c, d))
  {
    TimeToMinutesOfFive([DigitChar(a), DigitChar(b), ':', DigitChar(c), DigitChar(d)]);
  }

  /** Reading back the text of a minute count below 100 hours gives the count. */
  lemma TimeToMinutesOfMinutesToTime(m: int)
    requires 0 <= m < 6000
    ensures TimeToMinutes(MinutesToTime(m)) == Some(m)
  {
    var a, b, c, d := m / 60 / 10, m / 60 % 10, m % 60 / 10, m % 60 % 10;
    ClockDigits(m);
    ClockTextOfDigits(a, b, c, d);
    TimeToMinutesOfDigits(a, b, c, d);
  }

  /** Every clock value has clock text. */
  lemma MinutesToTimeIsClockText(c: Clock)
    ensures IsClockText(MinutesToTime(c))
  {
    MinutesToTimeChars(c);
  }

  /** Zero-padded clock text is the text of the minute count it denotes. */
  lemma ClockTextOfItsValue(s: string)
    requires IsClockText(s)
    ensures MinutesToTime(ColonTextValue(s)) == s
  {
    ClockTextOfDigits(DigitValue(s[0]), DigitValue(s[1]), DigitValue(s[3]), DigitValue(s[4]));
    ColonTextDigits(s);
  }

  /** `minutesToTime` inverts `timeToMinutes` on zero-padded clock text. */
  lemma MinutesToTimeOfTimeToMinutes(s: string)
    requires IsClockText(s)
    ensures TimeToMinutes(s).Some? && TimeToMinutes(s).value < MinutesPerDay
    ensures MinutesToTime(TimeToMinutes(s).value) == s
  {
    TimeToMinutesOfFive(s);
    ClockTextOfItsValue(s);
  }

  lemma LexLessStep(x: string, y: string)
    requires x != [] && y != []
    ensures LexLess(x, y) == (x[0] < y[0] || (x[0] == y[0] && LexLess(x[1..], y[1..])))
  {
  }

  /** JavaScript's `<` on two five-character strings with the same middle character. */
  lemma LexLessFive(x: string, y: string)
    requires |x| == 5 && |y| == 5 && x[2] == y[2]
    ensures LexLess(x, y) <==>
      x[0] < y[0] || (x[0] == y[0] && (x[1] < y[1] || (x[1] == y[1]
        && (x[3] < y[3] || (x[3] == y[3] && x[4] < y[4])))))
  {
    LexLessStep(x, y);
    LexLessStep(x[1..], y[1..]);
    LexLessStep(x[2..], y[2..]);
    assert x[1..][1..] == x[2..] && y[1..][1..] == y[2..];
    LexLessStep(x[3..], y[3..]);
    assert x[2..][1..] == x[3..] && y[2..][1..] == y[3..];
    LexLessStep(x[4..], y[4..]);
    assert x[3..][1..] == x[4..] && y[3..][1..] == y[4..];
    assert x[4..][1..] == [] && y[4..][1..] == [];
  }

  /** The four clock digits of a minute count below 100 hours. */
  lemma ClockDigits(a: int)
    requires 0 <= a < 6000
    ensures a == 600 * (a / 60 / 10) + 60 * (a / 60 % 10) + 10 * (a % 60 / 10) + a % 60 % 10
    ensures 0 <= a / 60 / 10 < 10 && 0 <= a % 60 / 10 < 6
    ensures a == ClockMinutes(a / 60 / 10, a / 60 % 10, a % 60 / 10, a % 60 % 10)
  {
  }

  lemma DigitOrder(p1: int, q1: int, r1: int, s1: int, p2: int, q2: int, r2: int, s2: int)
    requires 0 <= q1 < 10 && 0 <= r1 < 6 && 0 <= s1 < 10
    requires 0 <= q2 < 10 && 0 <= r2 < 6 && 0 <= s2 < 10
    ensures 600 * p1 + 60 * q1 + 10 * r1 + s1 < 600 * p2 + 60 * q2 + 10 * r2 + s2 <==>
      p1 < p2 || (p1 == p2 && (q1 < q2 || (q1 == q2 && (r1 < r2 || (r1 == r2 && s1 < s2)))))
  {
  }

  lemma DigitTextOrder(p1: nat, q1: nat, r1: nat, s1: nat, p2: nat, q2: nat, r2: nat, s2: nat)
    requires p1 < 10 && q1 < 10 && r1 < 6 && s1 < 10
    requires p2 < 10 && q2 < 10 && r2 < 6 && s2 < 10
    ensures LexLess([DigitChar(p1), DigitChar(q1), ':', DigitChar(r1), DigitChar(s1)],
                    [DigitChar(p2), DigitChar(q2), ':', DigitChar(r2), DigitChar(s2)])
      <==> 600 * p1 + 60 * q1 + 10 * r1 + s1 < 600 * p2 + 60 * q2 + 10 * r2 + s2
  {
    LexLessFive([DigitChar(p1), DigitChar(q1), ':', DigitChar(r1), DigitChar(s1)],
                [DigitChar(p2), DigitChar(q2), ':', DigitChar(r2), DigitChar(s2)]);
    DigitOrder(p1, q1, r1, s1, p2, q2, r2, s2);
  }

  /** On clock text below 100 hours, JavaScript's string `<` is the order of the minute values. */
  lemma ClockTextLess(a: int, b: int)
    requires 0 <= a < 6000 && 0 <= b < 6000
    ensures LexLess(MinutesToTime(a), MinutesToTime(b)) <==> a < b
  {
    MinutesToTimeChars(a);
    MinutesToTimeChars(b);
    ClockDigits(a);
    ClockDigits(b);
    DigitTextOrder(a / 60 / 10, a / 60 % 10, a % 60 / 10, a % 60 % 10,
                   b / 60 / 10, b / 60 % 10, b % 60 / 10, b % 60 % 10);
  }

  /** On clock text below 100 hours, JavaScript's string `<=` is the order of the minute values. */
  lemma ClockTextLessEq(a: int, b: int)
    requires 0 <= a < 6000 && 0 <= b < 6000
    ensures LexLessEq(MinutesToTime(a), MinutesToTime(b)) <==> a <= b
  {
    ClockTextLess(a, b);
    if MinutesToTime(a) == MinutesToTime(b) {
      TimeToMinutesOfMinutesToTime(a);
      TimeToMinutesOfMinutesToTime(b);
    }
  }

  /** The text of a negative minute count starts with '-', which sorts below every digit. */
  lemma NegativeTextBelow(n: int, a: int)
    requires n < 0 && 0 <= a
    ensures LexLess(MinutesToTime(n), MinutesToTime(a))
    ensures !LexLessEq(MinutesToTime(a), MinutesToTime(n))
  {
    var x, y := MinutesToTime(n), MinutesToTime(a);
    assert x[0] == '-';
    assert IsDigit(y[0]);
    LexLessStep(x, y);
    LexLessStep(y, x);
  }

  /** `minutesToTime` gives "09:00" at opening and "21:00" at closing. */
  lemma StoreTexts()
    ensures MinutesToTime(StoreOpen) == OpenText
    ensures MinutesToTime(StoreClose) == CloseText
  {
    StoreText(OpenText, StoreOpen);
    StoreText(CloseText, StoreClose);
  }

  lemma StoreText(s: string, m: nat)
    requires IsClockText(s) && ColonTextValue(s) == m
    ensures MinutesToTime(m) == s
  {
    ClockTextOfItsValue(s);
  }

  /** `getLastPossibleBookingTime`: the text of 21:00 minus the duration. */
  function GetLastPossibleBookingTime(duration: int): (r: string)
    ensures 0 <= duration <= StoreClose ==> TimeToMinutes(r) == Some(StoreClose - duration)
    ensures duration > StoreClose ==> r != [] && r[0] == '-'
  {
    TimeToMinutesOfMinutesToTime(if 0 <= duration <= StoreClose then StoreClose - duration else 0);
    MinutesToTime(StoreClose - duration)
  }

  /**
   * The grid loop's test `currentTime <= getLastPossibleBookingTime(duration)`:
   * on clock text it holds exactly when the appointment ends by 21:00.
   */
  lemma LastStartIff(t: Clock, duration: nat)
    ensures LexLessEq(MinutesToTime(t), GetLastPossibleBookingTime(duration)) <==> t + duration <= StoreClose
  {
    if duration > StoreClose {
      NegativeTextBelow(StoreClose - duration, t);
    } else {
      ClockTextLessEq(t, StoreClose - duration);
    }
  }

  /** "22:00", one hour past closing, the latest end the fully-booked check lets through. */
  const Overtime: Clock := 1320
  const OvertimeText := "22:00"

  /** The test `endTimeStr <= "22:00"` on clock text is `end <= 1320`. */
  lemma OvertimeIff(c: Clock)
    ensures LexLessEq(MinutesToTime(c), OvertimeText) <==> c <= Overtime
  {
    StoreText(OvertimeText, Overtime);
    ClockTextLessEq(c, Overtime);
  }

  /** `isWithinStoreHours`: "09:00" <= time <= "21:00" as strings. */
  predicate IsWithinStoreHours(time: string)
  {
    LexLessEq(OpenText, time) && LexLessEq(time, CloseText)
  }

  /** On clock text, the store-hours test is 540 <= t <= 1260. */
  lemma WithinStoreHoursIff(t: Clock)
    ensures IsWithinStoreHours(MinutesToTime(t)) <==> StoreOpen <= t <= StoreClose
  {
    StoreTexts();
    ClockTextLessEq(StoreOpen, t);
    ClockTextLessEq(t, StoreClose);
  }

  /** The integer form of the booking limits: start at or after opening, end at or before closing. */
  predicate WithinBookingLimits(t: int, duration: int)
  {
    StoreOpen <= t && t + duration <= StoreClose
  }

  /**
   * `isTimeWithinBookingLimits`: false when the end text sorts after "21:00",
   * otherwise "09:00" <= time <= `getLastPossibleBookingTime(duration)`.
   * Unparsable text yields the end text "NaN:NaN", which sorts after "21:00".
   */
  predicate IsTimeWithinBookingLimits(time: string, duration: int)
  {
    match TimeToMinutes(time)
    case None => false
    case Some(t) =>
      !EndTextAfterClose(t, duration)
      && LexLessEq(OpenText, time) && LexLessEq(time, GetLastPossibleBookingTime(duration))
  }

  /** The end test `minutesToTime(t + duration) > "21:00"` on strings. */
  predicate EndTextAfterClose(t: int, duration: int)
  {
    LexLess(CloseText, MinutesToTime(t + duration))
  }

  /**
   * Below 100 hours the end test is `t + duration > 1260`. (From 100 hours on,
   * the text "100:00" sorts below "21:00"; the last-start test catches those.)
   */
  lemma EndTextAfterCloseIff(t: int, duration: int)
    requires 0 <= t + duration < 6000
    ensures EndTextAfterClose(t, duration) <==> t + duration > StoreClose
  {
    StoreTexts();
    ClockTextLess(StoreClose, t + duration);
  }

  /** On clock text and a non-negative duration, the string rule is exactly the integer rule. */
  lemma BookingLimitsIff(t: Clock, duration: nat)
    ensures IsTimeWithinBookingLimits(MinutesToTime(t), duration) <==> WithinBookingLimits(t, duration)
  {
    BookingLimitsOfClock(t, duration);
    StoreTexts();
    ClockTextLessEq(StoreOpen, t);
    LastStartIff(t, duration);
    if t + duration < 6000 {
      EndTextAfterCloseIff(t, duration);
    }
  }

  lemma BookingLimitsOfClock(t: Clock, duration: nat)
    ensures IsTimeWithinBookingLimits(MinutesToTime(t), duration) <==>
      !EndTextAfterClose(t, duration) && LexLessEq(OpenText, MinutesToTime(t))
      && LexLessEq(MinutesToTime(t), GetLastPossibleBookingTime(duration))
  {
    TimeToMinutesOfMinutesToTime(t);
    BookingLimitsOfParsed(MinutesToTime(t), t, duration);
  }

  lemma BookingLimitsOfParsed(time: string, t: nat, duration: nat)
    requires TimeToMinutes(time) == Some(t)
    ensures IsTimeWithinBookingLimits(time, duration) <==>
      !EndTextAfterClose(t, duration) && LexLessEq(OpenText, time)
      && LexLessEq(time, GetLastPossibleBookingTime(duration))
  {
  }

  /** The end-hour guard: an end at 21:01 or later in hours 21-23 is refused. */
  predicate EndsPastClosingHour(e: Clock)
  {
    e / 60 >= 21 && e % 60 > 0
  }

  /** Within the booking limits, the end-hour guard never fires: it re-checks what the limits ensure. */
  lemma EndGuardRedundant(t: Clock, duration: nat)
    requires WithinBookingLimits(t, duration)
    ensures !EndsPastClosingHour(ClockAdd(t, duration))
  {
  }
}
