/**
 * The helpers of src/components/booking/BookingSystem.tsx: the required-field
 * check behind the "Book" button, the filter of artists who offer every
 * selected category, and the prefill that loads an appointment being
 * updated into the booking state.
 *
 * The prefill writes the start and end times as 12-hour text with the
 * minutes unpadded ("9:5am" for 09:05), a text the time parser refuses, and
 * reads the services with the parser that splits on every space.
 * `Prefill` runs that code as written, or, with `fixed`, the corrected
 * parser and the padded `formatTime` text.
 */
module BookingSystem {

  import opened Wrappers
  import opened JsText
  import opened Domain
  import opened Utils
  import opened ClockText
  import opened TimeOfDay
  import opened TimeFormat
  import opened BookingContext
  import opened BookingStateHook
  import opened ServiceString
  import Validation
  import Constants

  // ---------------------------------------------------------------------------
  // validateBookingFields

  /** The `validationErrors` record: one flag per section of the page. */
  datatype SectionErrors = SectionErrors(services: bool, artist: bool, datetime: bool, clientInfo: bool)

  predicate AnyError(e: SectionErrors)
  {
    e.services || e.artist || e.datetime || e.clientInfo
  }

  /**
   * `validateBookingFields`: the flags it stores and whether none is set. It
   * passes exactly on a complete booking; its first three flags are the
   * booking checks of the validation service, and its contact flag only
   * rejects details the service rejects too.
   */
  function ValidateBookingFields(services: seq<SubService>, artist: Option<string>, date: Option<int>,
                                 time: Option<string>, info: ClientInfo): (r: (bool, SectionErrors))
    ensures r.0 <==> !AnyError(r.1)
    ensures r.0 <==> Complete(services, artist, date, time, info)
    ensures var checks := Validation.BookingDataErrors(services, artist, date, time);
            && (r.1.services <==> "services" in checks)
            && (r.1.artist <==> "artist" in checks)
            && (r.1.datetime <==> "date" in checks || "time" in checks)
    ensures r.1.clientInfo ==> !Validation.ClientInfoAcceptable(info)
  {
    var e := SectionErrors(|services| == 0, !Truthy(artist), date.None? || !Truthy(time),
                           info.name == "" || (info.emailId == "" && info.phone == ""));
    (!AnyError(e), e)
  }

  /** A booking the validation service accepts passes the page's own check. */
  lemma ServiceAcceptedPassesFields(services: seq<SubService>, artist: Option<string>, date: Option<int>,
                                    time: Option<string>, info: ClientInfo)
    requires |Validation.BookingDataErrors(services, artist, date, time)| == 0
    requires |Validation.ClientInfoErrors(info)| == 0
    ensures ValidateBookingFields(services, artist, date, time, info).0
  {
    Validation.ValidatedBookingIsComplete(services, artist, date, time, info);
  }

  // ---------------------------------------------------------------------------
  // availableArtists

  /** `mainService?.name || ''` for each selected treatment, in order. */
  function RequiredNames(catalogue: seq<MainService>, services: seq<SubService>): (r: seq<string>)
    ensures |r| == |services|
    ensures forall i :: 0 <= i < |r| ==> r[i] == CategoryOf(catalogue, services[i])
  {
    seq(|services|, i requires 0 <= i < |services| => CategoryOf(catalogue, services[i]))
  }

  /** `Array.from(new Set(names))`: each name once, at its first occurrence. */
  function Distinct(names: seq<string>): (r: seq<string>)
    ensures forall n :: n in r <==> n in names
    ensures forall i, j :: 0 <= i < j < |r| ==> r[i] != r[j]
    ensures |r| <= |names|
  {
    if names == [] then []
    else
      var init, last := names[..|names| - 1], names[|names| - 1];
      assert names == init + [last];
      var r := Distinct(init);
      if last in r then r else r + [last]
  }

  /** The artist offers the category, or offers "all". */
  predicate Offers(person: Artist, name: string)
  {
    name in person.serviceProvided || "all" in person.serviceProvided
  }

  /** The filter's callback: `uniqueRequiredServices.every(...)`. */
  predicate CanServe(person: Artist, catalogue: seq<MainService>, services: seq<SubService>)
  {
    forall n :: n in Distinct(RequiredNames(catalogue, services)) ==> Offers(person, n)
  }

  /** `availableArtists`: `peopleData.filter(...)`. */
  function AvailableArtists(people: seq<Artist>, catalogue: seq<MainService>, services: seq<SubService>)
    : (r: seq<Artist>)
    ensures |r| <= |people|
    ensures forall p :: p in r <==> p in people && CanServe(p, catalogue, services)
  {
    if people == [] then []
    else
      (if CanServe(people[0], catalogue, services) then [people[0]] else [])
      + AvailableArtists(people[1..], catalogue, services)
  }

  /** An artist can serve a selection iff they offer "all" or the category of every selected treatment. */
  lemma CanServeIff(person: Artist, catalogue: seq<MainService>, services: seq<SubService>)
    ensures CanServe(person, catalogue, services)
        <==> "all" in person.serviceProvided
             || forall s :: s in services ==> CategoryOf(catalogue, s) in person.serviceProvided
  {
    var names := RequiredNames(catalogue, services);
    if CanServe(person, catalogue, services) && "all" !in person.serviceProvided {
      forall s | s in services
        ensures CategoryOf(catalogue, s) in person.serviceProvided
      {
        var i :| 0 <= i < |services| && services[i] == s;
        assert names[i] in names;
        assert names[i] in Distinct(names);
        assert Offers(person, names[i]);
      }
    }
    if "all" !in person.serviceProvided && forall s :: s in services ==> CategoryOf(catalogue, s) in person.serviceProvided {
      forall n | n in Distinct(names)
        ensures Offers(person, n)
      {
        var i :| 0 <= i < |names| && names[i] == n;
        assert services[i] in services;
      }
    }
  }

  /** The filter keeps exactly the artists who offer "all" or every selected category. */
  lemma AvailableArtistsIff(people: seq<Artist>, catalogue: seq<MainService>, services: seq<SubService>, p: Artist)
    ensures p in AvailableArtists(people, catalogue, services)
        <==> p in people
             && ("all" in p.serviceProvided || forall s :: s in services ==> CategoryOf(catalogue, s) in p.serviceProvided)
  {
    CanServeIff(p, catalogue, services);
  }

  /** The filter keeps order: filtering a concatenation concatenates the filtered parts. */
  lemma {:induction false} AvailableArtistsAppend(xs: seq<Artist>, ys: seq<Artist>, catalogue: seq<MainService>,
                                                  services: seq<SubService>)
    ensures AvailableArtists(xs + ys, catalogue, services)
         == AvailableArtists(xs, catalogue, services) + AvailableArtists(ys, catalogue, services)
  {
    if xs == [] {
      assert xs + ys == ys;
    } else {
      assert (xs + ys)[0] == xs[0] && (xs + ys)[1..] == xs[1..] + ys;
      AvailableArtistsAppend(xs[1..], ys, catalogue, services);
    }
  }

  /** When every artist qualifies, the filter returns the whole list. */
  lemma {:induction false} AllQualifyKeepsEveryone(people: seq<Artist>, catalogue: seq<MainService>,
                                                   services: seq<SubService>)
    requires forall p :: p in people ==> CanServe(p, catalogue, services)
    ensures AvailableArtists(people, catalogue, services) == people
  {
    if people != [] {
      assert people[0] in people;
      assert forall p :: p in people[1..] ==> p in people;
      AllQualifyKeepsEveryone(people[1..], catalogue, services);
    }
  }

  /** With nothing selected, every artist is available. */
  lemma EmptySelectionKeepsEveryone(people: seq<Artist>, catalogue: seq<MainService>)
    ensures AvailableArtists(people, catalogue, []) == people
  {
    AllQualifyKeepsEveryone(people, catalogue, []);
  }

  /** A threading and a facial treatment. */
  const SampleSelection: seq<SubService> := [Constants.Eyebrow, Constants.AntiAging]

  /** For a threading and a facial treatment, an artist qualifies with "all" or with both categories. */
  lemma SampleNeeds(person: Artist)
    ensures CanServe(person, Constants.MainServices, SampleSelection)
        <==> "all" in person.serviceProvided
             || ("Threading" in person.serviceProvided && "Facial" in person.serviceProvided)
  {
    ShippedCategory(0);
    ShippedCategory(3);
    assert SampleSelection[0] == Constants.SubServices[0] && SampleSelection[1] == Constants.SubServices[3];
    CanServeIff(person, Constants.MainServices, SampleSelection);
    assert forall s :: s in SampleSelection <==> s == SampleSelection[0] || s == SampleSelection[1];
  }

  /** Sammy and Weekends offer threading and facials; Rebus and Weekdays offer no facials. */
  lemma SampleVerdicts()
    ensures CanServe(Constants.Sammy, Constants.MainServices, SampleSelection)
    ensures !CanServe(Constants.Rebus, Constants.MainServices, SampleSelection)
    ensures CanServe(Constants.Weekends, Constants.MainServices, SampleSelection)
    ensures !CanServe(Constants.Weekdays, Constants.MainServices, SampleSelection)
  {
    SampleNeeds(Constants.Sammy);
    assert Constants.Sammy.serviceProvided[0] == "Threading" && Constants.Sammy.serviceProvided[2] == "Facial";
    SampleNeeds(Constants.Rebus);
    assert "all" !in Constants.Rebus.serviceProvided && "Facial" !in Constants.Rebus.serviceProvided;
    SampleNeeds(Constants.Weekends);
    assert Constants.Weekends.serviceProvided[0] == "Threading" && Constants.Weekends.serviceProvided[1] == "Facial";
    SampleNeeds(Constants.Weekdays);
    assert "all" !in Constants.Weekdays.serviceProvided && "Facial" !in Constants.Weekdays.serviceProvided;
  }

  /** Threading and facial treatments together: Sammy and Weekends offer both, Rebus and Weekdays no facials. */
  lemma SampleAvailableArtists()
    ensures AvailableArtists(Constants.PeopleData, Constants.MainServices, SampleSelection)
         == [Constants.Sammy, Constants.Weekends]
  {
    var cat, people := Constants.MainServices, Constants.PeopleData;
    SampleVerdicts();
    SampleAfterSammy();
    assert people[0] == Constants.Sammy;
    assert AvailableArtists(people, cat, SampleSelection) == [Constants.Sammy] + [Constants.Weekends];
  }

  /** Of Rebus, Weekends and Weekdays, only Weekends is kept. */
  lemma SampleAfterSammy()
    ensures AvailableArtists(Constants.PeopleData[1..], Constants.MainServices, SampleSelection) == [Constants.Weekends]
  {
    var cat, people := Constants.MainServices, Constants.PeopleData;
    SampleVerdicts();
    assert people[3..][1..] == [];
    assert AvailableArtists(people[3..], cat, SampleSelection) == [];
    assert people[2..][1..] == people[3..];
    assert AvailableArtists(people[2..], cat, SampleSelection) == [Constants.Weekends];
    assert people[1..][1..] == people[2..];
  }

  // ---------------------------------------------------------------------------
  // The prefill's time text

  /** The prefill's 12-hour text as written: ":" and the unpadded minutes only when they are not zero. */
  function PrefillTimeAsWritten(c: Clock): string
  {
    var hours, minutes := c / 60, c % 60;
    NatToString(DialHour(hours)) + (if minutes > 0 then ":" + NatToString(minutes) else "") + Period(hours)
  }

  /** The as-written text is the `formatTime` text exactly when the minutes are 0 or two-digit. */
  lemma PrefillTimeAsWrittenMatchesFormat(c: Clock)
    ensures PrefillTimeAsWritten(c) == FormatTime(c / 60, c % 60) <==> c % 60 == 0 || c % 60 >= 10
  {
    var minutes := c % 60;
    var d, p := NatToString(DialHour(c / 60)), Period(c / 60);
    if 1 <= minutes <= 9 {
      var a, b := ":" + NatToString(minutes), ":" + PadStart2(NatToString(minutes));
      assert |a| == 2 && |b| == 3;
      assert |PrefillTimeAsWritten(c)| == |d| + 2 + |p|;
      assert |FormatTime(c / 60, c % 60)| == |d| + 3 + |p|;
    }
  }

  /** For minutes 1 to 9 the as-written text is refused when combined with a date. */
  lemma PrefillTimeAsWrittenRefused(day: int, c: Clock)
    requires 1 <= c % 60 <= 9
    ensures CombineDateAndTime(Some(day), PrefillTimeAsWritten(c)).Failure?
  {
    var d, g, p := NatToString(DialHour(c / 60)), NatToString(c % 60), Period(c / 60);
    assert PrefillTimeAsWritten(c) == d + ":" + g + p;
    UnpaddedMinutesRefused(day, d, g, p);
  }

  /** An hour, a colon and one minute digit before the period is not a time the combiner reads. */
  lemma UnpaddedMinutesRefused(day: int, d: string, g: string, p: string)
    requires 1 <= |d| <= 2 && AllDigits(d) && |g| == 1 && IsDigit(g[0]) && (p == "am" || p == "pm")
    ensures CombineDateAndTime(Some(day), d + ":" + g + p).Failure?
  {
    var x := d + ":" + g;
    assert DigitsAndColons(x) by {
      forall i | 0 <= i < |x| ensures IsDigit(x[i]) || x[i] == ':' {
        if i < |d| {
          assert x[i] == d[i];
        }
      }
    }
    SpaceBeforePeriodAfterDigits(x, p);
    var rest := ":" + g + " " + p;
    assert x + " " + p == d + rest;
    LeadingDigitsOf(d, rest);
    assert (d + rest)[|d|..] == rest;
    assert MinutesGroup(rest) == (None, rest);
    assert ParseAfterHour(DigitsValue(d), rest).Failure?;
  }

  /** 09:05 is written "9:5am" where `formatTime` writes "9:05am". */
  lemma NineOhFive()
    ensures PrefillTimeAsWritten(545) == "9:5am"
    ensures FormatTime(9, 5) == "9:05am"
  {
    assert NatToString(9) == "9" && NatToString(5) == "5";
    assert DialHour(9) == 9 && Period(9) == "am";
    assert PadStart2("5") == "05";
  }

  /** The corrected prefill text: the `formatTime` text of the clock time. */
  function PrefillTime(c: Clock): string
  {
    FormatTime(c / 60, c % 60)
  }

  /** Combined with a date, the corrected text gives back the same time of day. */
  lemma PrefillTimeRoundTrip(day: int, c: Clock)
    ensures CombineDateAndTime(Some(day), PrefillTime(c)) == Success(DateTimeText(day, MinutesToTime(c)))
  {
    var hours, minutes := c / 60, c % 60;
    assert hours < 24 && minutes < 60 && hours * 60 + minutes == c;
    CombineFormatTimeRoundTrip(day, hours, minutes);
  }

  // ---------------------------------------------------------------------------
  // The prefill effect

  /** The start of the stored appointment: a day number and a clock time. */
  datatype Start = Start(day: int, clock: Clock)

  /** The fields of `prefillData` the effect reads; a missing string field is `None`. */
  datatype PrefillData = PrefillData(
    serviceType: Option<ServiceInput>,
    artist: Option<string>,
    start: Option<Start>,
    duration: nat,
    clientName: Option<string>,
    clientEmail: Option<string>,
    clientPhone: Option<string>,
    notes: Option<string>)

  /** `prefillData.serviceType` is truthy: present and not the empty string. */
  predicate HasServiceType(d: PrefillData)
  {
    d.serviceType.Some? && d.serviceType.value != Text("")
  }

  function OrEmpty(s: Option<string>): string
  {
    if s.Some? then s.value else ""
  }

  /** The contact details the prefill writes; `notes || ''`, and a missing address or phone as "". */
  function PrefillContact(d: PrefillData): (r: PartialClientInfo)
    ensures r.name == d.clientName && r.emailId.Some? && r.phone.Some? && r.message.Some?
  {
    PartialClientInfo(d.clientName, Some(OrEmpty(d.clientEmail)), Some(OrEmpty(d.clientPhone)), Some(OrEmpty(d.notes)))
  }

  /** The services the prefill selects: `parseServiceString` as written, or the corrected parser. */
  function PrefillServices(d: PrefillData, fixed: bool): seq<SubService>
    requires d.serviceType.Some?
  {
    var cat, subs := Constants.MainServices, Constants.SubServices;
    if fixed then CorrectedServices(d.serviceType.value, cat, subs) else ParsedServices(d.serviceType.value, cat, subs)
  }

  /** The time text the prefill writes: unpadded minutes as written, or the `formatTime` text. */
  function PrefillText(c: Clock, fixed: bool): string
  {
    if fixed then PrefillTime(c) else PrefillTimeAsWritten(c)
  }

  /**
   * The effect that loads an appointment being updated: each truthy field of
   * the data is written through the holder's setters in the source's order
   * (services, artist, date and times, contact details), so a new service
   * list clears the artist and the times, and a new artist clears the times,
   * unless they are written again after it. With `fixed` false this is
   * the code as written; with `fixed` true it reads the services with the
   * corrected parser and writes the padded times.
   */
  method Prefill(holder: BookingStateHolder, isUpdating: bool, data: Option<PrefillData>, fixed: bool)
    modifies holder
    ensures !isUpdating || data.None? ==>
      && holder.selectedServices == old(holder.selectedServices)
      && holder.selectedArtist == old(holder.selectedArtist)
      && holder.selectedDate == old(holder.selectedDate) && holder.selectedTime == old(holder.selectedTime)
      && holder.selectedTimeEnd == old(holder.selectedTimeEnd) && holder.clientInfo == old(holder.clientInfo)
    ensures isUpdating && data.Some? ==> var d := data.value;
      && (HasServiceType(d) ==> fresh(holder.selectedServices) && holder.selectedServices[..] == PrefillServices(d, fixed))
      && (!HasServiceType(d) ==> holder.selectedServices == old(holder.selectedServices))
      && (Truthy(d.artist) ==> holder.selectedArtist == d.artist)
      && (!Truthy(d.artist) && HasServiceType(d) ==> holder.selectedArtist.None?)
      && (!Truthy(d.artist) && !HasServiceType(d) ==> holder.selectedArtist == old(holder.selectedArtist))
      && (d.start.Some? ==>
            && holder.selectedDate == Some(d.start.value.day)
            && holder.selectedTime == Some(PrefillText(d.start.value.clock, fixed))
            && holder.selectedTimeEnd == Some(PrefillText(ClockAdd(d.start.value.clock, d.duration), fixed)))
      && (d.start.None? && (HasServiceType(d) || (Truthy(d.artist) && old(holder.selectedArtist) != d.artist)) ==>
            holder.selectedDate.None? && holder.selectedTime.None? && holder.selectedTimeEnd.None?)
      && (d.start.None? && !HasServiceType(d) && !(Truthy(d.artist) && old(holder.selectedArtist) != d.artist) ==>
            && holder.selectedDate == old(holder.selectedDate) && holder.selectedTime == old(holder.selectedTime)
            && holder.selectedTimeEnd == old(holder.selectedTimeEnd))
      && (Truthy(d.clientName) ==> holder.clientInfo == MergeClientInfo(old(holder.clientInfo), PrefillContact(d)))
      && (!Truthy(d.clientName) ==> holder.clientInfo == old(holder.clientInfo))
    ensures holder.isLoading == old(holder.isLoading) && holder.error == old(holder.error)
  {
    if !isUpdating || data.None? {
      return;
    }
    var d := data.value;
    if HasServiceType(d) {
      var services := PrefillServices(d, fixed);
      var list := new SubService[|services|](i requires 0 <= i < |services| => services[i]);
      holder.SetServices(list);
    }
    if Truthy(d.artist) {
      holder.SetArtist(d.artist.value);
    }
    if d.start.Some? {
      var start := d.start.value;
      holder.SetDateTime(start.day, PrefillText(start.clock, fixed), PrefillText(ClockAdd(start.clock, d.duration), fixed));
    }
    if Truthy(d.clientName) {
      holder.SetClientInfo(PrefillContact(d));
    }
  }

  /**
   * After a prefill with a start, the corrected time text combines back into
   * that start, while the text as written is refused for minutes 1 to 9.
   */
  lemma PrefilledTimeReadsBack(d: PrefillData)
    requires d.start.Some?
    ensures var day, c := d.start.value.day, d.start.value.clock;
            CombineDateAndTime(Some(day), PrefillText(c, true)) == Success(DateTimeText(day, MinutesToTime(c)))
    ensures var day, c := d.start.value.day, d.start.value.clock;
            1 <= c % 60 <= 9 ==> CombineDateAndTime(Some(day), PrefillText(c, false)).Failure?
  {
    var day, c := d.start.value.day, d.start.value.clock;
    PrefillTimeRoundTrip(day, c);
    if 1 <= c % 60 <= 9 {
      PrefillTimeAsWrittenRefused(day, c);
    }
  }

  /** As written, a prefilled "Lashes-Volume Set" does not select the volume set; the corrected parser selects it. */
  lemma PrefilledVolumeSet(d: PrefillData)
    requires d.serviceType == Some(Text(FormatServiceString(Constants.MainServices, [Constants.VolumeSet])))
    ensures Constants.VolumeSet !in PrefillServices(d, false)
    ensures PrefillServices(d, true) == [Constants.VolumeSet]
  {
    var cat, subs := Constants.MainServices, Constants.SubServices;
    var text := FormatServiceString(cat, [Constants.VolumeSet]);
    VolumeSetNeverParsed(text);
    CatalogueWellFormed();
    CorrectedRoundTrip(cat, subs, [Constants.VolumeSet]);
  }
}
