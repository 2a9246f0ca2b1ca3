/**
 * The records the booking code passes around (src/utils/types.ts), with
 * "YYYY-MM-DDTHH:MM" date-times held as a day number and a clock value.
 */
module Domain {

  import opened TimeOfDay

  /** A treatment: its id, the id of its category, name, price and minutes. */
  datatype SubService = SubService(id: int, mainServiceId: int, name: string, price: int, duration: nat)

  /** A treatment category. */
  datatype MainService = MainService(id: int, name: string)

  /**
   * A local date-time "YYYY-MM-DDTHH:MM": `day` counts days from
   * 1970-01-01 and `clock` is the "HH:MM" part, i.e. `slice(11, 16)`.
   * Two stamps have the same "YYYY-MM-DD" prefix exactly when their days agree.
   */
  datatype Stamp = Stamp(day: int, clock: Clock)

  /** One booked appointment of an artist. */
  datatype DateTimeDto = DateTimeDto(dateTime: Stamp, start: Stamp, end: Stamp)

  /** An artist with the day patterns they work, the categories they serve and their bookings. */
  datatype Artist = Artist(id: string, name: string, workday: seq<string>,
                           serviceProvided: seq<string>, dateTimeDto: seq<DateTimeDto>)

  /** The client's contact details. */
  datatype ClientInfo = ClientInfo(name: string, emailId: string, phone: string, message: string)

  /** The weekday names `toLocaleDateString('en-US', { weekday: 'long' })` produces. */
  const WeekdayNames: seq<string> :=
    ["Thursday", "Friday", "Saturday", "Sunday", "Monday", "Tuesday", "Wednesday"]

  /** The weekday of a day number; day 0 (1970-01-01) was a Thursday. */
  function WeekdayName(day: int): (name: string)
    ensures name in WeekdayNames
  {
    WeekdayNames[day % 7]
  }

  /** 2025-02-14, day 20133, was a Friday, and 2025-02-15 a Saturday. */
  lemma SampleWeekdays()
    ensures WeekdayName(20133) == "Friday" && WeekdayName(20134) == "Saturday"
  {
  }

  predicate IsWeekend(name: string)
  {
    name == "Saturday" || name == "Sunday"
  }
}
