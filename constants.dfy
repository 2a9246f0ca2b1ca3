/**
 * The fixed data of src/utils/Constants.tsx: the service catalogue, the
 * sample artists with their bookings, and the hour labels of the booking form.
 */
module Constants {

  import opened JsText
  import opened TimeOfDay
  import opened Domain
  import TimeFormat

  const Threading := MainService(100, "Threading")
  const Facial := MainService(200, "Facial")
  const Lashes := MainService(300, "Lashes")

  const MainServices: seq<MainService> := [Threading, Facial, Lashes]

  const Eyebrow := SubService(101, 100, "Eyebrow", 15, 5)
  const Upperlip := SubService(102, 100, "Upperlip", 25, 30)
  const DeepCleansing := SubService(201, 200, "Deep-Cleansing", 85, 60)
  const AntiAging := SubService(202, 200, "Anti-Aging", 120, 90)
  const ClassicSet := SubService(301, 300, "Classic Set", 89, 90)
  const VolumeSet := SubService(302, 300, "Volume Set", 129, 120)

  const SubServices: seq<SubService> := [Eyebrow, Upperlip, DeepCleansing, AntiAging, ClassicSet, VolumeSet]

  /** 2025-02-14 and 2025-02-15 as day numbers. */
  const Feb14 := 20133
  const Feb15 := 20134

  /** A booking whose creation time equals its start, as in the sample data. */
  function Booking(day: int, start: Clock, end: Clock): DateTimeDto
  {
    DateTimeDto(Stamp(day, start), Stamp(day, start), Stamp(day, end))
  }

  const SammyBookings: seq<DateTimeDto> := [
    Booking(Feb15, 540, 620),
    Booking(Feb15, 840, 885),
    Booking(Feb15, 1020, 1050),
    Booking(Feb15, 630, 810),
    Booking(Feb15, 900, 1005),
    Booking(Feb15, 1060, 1305),
    Booking(Feb14, 1020, 1260),
    Booking(Feb14, 855, 1010)
  ]

  const Sammy := Artist("100", "Sammy", ["Alldays"], ["Threading", "Tinting", "Facial", "Lashes"], SammyBookings)
  const Rebus := Artist("200", "Rebus", ["Monday", "Wednesday"], ["Threading", "Lashes"], [])
  const Weekends := Artist("300", "Weekends", ["Weekends"], ["Threading", "Facial"], [])
  const Weekdays := Artist("400", "Weekdays", ["Weekdays"], ["Threading", "Lashes"], [])

  const PeopleData: seq<Artist> := [Sammy, Rebus, Weekends, Weekdays]

  /** Every treatment belongs to a listed category. */
  lemma SubServicesHaveCategories()
    ensures forall s :: s in SubServices ==> exists m :: m in MainServices && m.id == s.mainServiceId
  {
    forall s | s in SubServices
      ensures exists m :: m in MainServices && m.id == s.mainServiceId
    {
      var k := (s.mainServiceId - 100) / 100;
      assert MainServices[k] in MainServices;
    }
  }

  /**
   * In the sample calendar every booking ends after it starts, but the list is
   * not in start order and one booking runs to 21:45, past closing.
   */
  lemma SampleCalendarShape()
    ensures forall a :: a in SammyBookings ==> a.start.day == a.end.day && a.start.clock < a.end.clock
    ensures SammyBookings[3].start.clock < SammyBookings[2].start.clock
    ensures exists a :: a in SammyBookings && a.end.clock > 1260
  {
    assert SammyBookings[5] in SammyBookings;
  }

  /** The label of an hour: `hour % 12 || 12` followed by "am" before noon, else "pm". */
  function HourLabel(hour: nat): (r: string)
    ensures hour < 24 ==> |r| == (if hour % 12 == 0 || hour % 12 >= 10 then 4 else 3)
  {
    NatToString(if hour % 12 == 0 then 12 else hour % 12) + (if hour >= 12 then "pm" else "am")
  }

  /** `generateTimeSlots` of Constants.tsx: one label per hour from 9 to 21. */
  method GenerateHourLabels() returns (slots: seq<string>)
    ensures |slots| == 13
    ensures forall i :: 0 <= i < |slots| ==> slots[i] == HourLabel(9 + i)
  {
    slots := [];
    var hour := 9;
    while hour <= 21
      invariant 9 <= hour <= 22
      invariant |slots| == hour - 9
      invariant forall i :: 0 <= i < |slots| ==> slots[i] == HourLabel(9 + i)
    {
      slots := slots + [HourLabel(hour)];
      hour := hour + 1;
    }
  }

  /** The first, the noon and the last label. */
  lemma HourLabelSamples()
    ensures HourLabel(9) == "9am" && HourLabel(12) == "12pm" && HourLabel(21) == "9pm"
  {
    assert NatToString(12) == NatToString(1) + [DigitChar(2)];
  }

  /** Equal strings with the same suffix have the same front. */
  lemma SuffixCancel(u: string, v: string, w: string)
    requires u + w == v + w
    ensures u == v
  {
    assert |u| == |v|;
    assert u == (u + w)[..|u|] && v == (v + w)[..|v|];
  }

  /** Strings ending in two-letter suffixes with different first letters differ. */
  lemma SuffixDiffers(u: string, v: string, p: string, q: string)
    requires |p| == 2 && |q| == 2 && p[0] != q[0]
    ensures u + p != v + q
  {
    if |u| == |v| {
      assert (u + p)[|u|] == p[0] && (v + q)[|v|] == q[0];
    }
  }

  /** The thirteen labels are pairwise different. */
  lemma HourLabelsDistinct(a: nat, b: nat)
    requires 9 <= a < b <= 21
    ensures HourLabel(a) != HourLabel(b)
  {
    var ha := if a % 12 == 0 then 12 else a % 12;
    var hb := if b % 12 == 0 then 12 else b % 12;
    var pa, pb := (if a >= 12 then "pm" else "am"), (if b >= 12 then "pm" else "am");
    if pa == pb {
      assert ha != hb;
      if HourLabel(a) == HourLabel(b) {
        SuffixCancel(NatToString(ha), NatToString(hb), pa);
        TimeFormat.NatToStringValue(ha);
        TimeFormat.NatToStringValue(hb);
      }
    } else {
      assert pa[0] != pb[0];
      SuffixDiffers(NatToString(ha), NatToString(hb), pa, pb);
    }
  }
}
