/**
 * The catalogue and calendar helpers of src/utils/utils.ts: the price and
 * duration sums, `groupServicesByCategory`, the merge loop of
 * `updateBookedTimes` and the slot list of `generateTimeSlots`.
 */
module Utils {

  import opened Wrappers
  import opened TimeOfDay
  import opened Domain
  import opened Constants
  import opened Availability
  import opened TimeFormat
  import opened ClockText
  import JsText

  // ---------------------------------------------------------------------
  // calculateTotal and calculateDuration
  // ---------------------------------------------------------------------

  /** `calculateTotal`: the `reduce` adding up prices from the left. */
  function CalculateTotal(services: seq<SubService>): int
  {
    if services == [] then 0
    else CalculateTotal(services[..|services| - 1]) + services[|services| - 1].price
  }

  /** `calculateDuration`: the `reduce` adding up durations from the left. */
  function CalculateDuration(services: seq<SubService>): nat
  {
    if services == [] then 0
    else CalculateDuration(services[..|services| - 1]) + services[|services| - 1].duration
  }

  /** Both sums split over a concatenation of selections. */
  lemma {:induction false} SumsOfConcatenation(a: seq<SubService>, b: seq<SubService>)
    ensures CalculateTotal(a + b) == CalculateTotal(a) + CalculateTotal(b)
    ensures CalculateDuration(a + b) == CalculateDuration(a) + CalculateDuration(b)
  {
    if b == [] {
      assert a + b == a;
    } else {
      var b' := b[..|b| - 1];
      assert (a + b)[..|a + b| - 1] == a + b';
      SumsOfConcatenation(a, b');
    }
  }

  /** A single service costs its price and takes its duration. */
  lemma SumsOfOne(s: SubService)
    ensures CalculateTotal([s]) == s.price && CalculateDuration([s]) == s.duration
  {
    assert [s][..0] == [];
  }

  /** The total duration covers every selected service's own duration. */
  lemma {:induction false} DurationCoversEach(services: seq<SubService>, i: int)
    requires 0 <= i < |services|
    ensures services[i].duration <= CalculateDuration(services)
  {
    if i < |services| - 1 {
      DurationCoversEach(services[..|services| - 1], i);
    }
  }

  // ---------------------------------------------------------------------
  // groupServicesByCategory
  // ---------------------------------------------------------------------

  /** `mainServices.find(ms => ms.id === id)?.name || ''`. */
  function CategoryName(catalogue: seq<MainService>, id: int): (name: string)
    ensures name != "" ==> exists m :: m in catalogue && m.id == id && m.name == name
    ensures (forall m :: m in catalogue ==> m.id != id) ==> name == ""
    ensures catalogue != [] && catalogue[0].id == id ==> name == catalogue[0].name
  {
    if catalogue == [] then ""
    else if catalogue[0].id == id then catalogue[0].name
    else CategoryName(catalogue[1..], id)
  }

  /** The bucket a service lands in. */
  function CategoryOf(catalogue: seq<MainService>, s: SubService): string
  {
    CategoryName(catalogue, s.mainServiceId)
  }

  /** The services of one category, in input order. */
  function InCategory(catalogue: seq<MainService>, services: seq<SubService>, key: string): (r: seq<SubService>)
    ensures forall s :: s in r <==> s in services && CategoryOf(catalogue, s) == key
    ensures |r| <= |services|
  {
    if services == [] then []
    else
      var init, last := services[..|services| - 1], services[|services| - 1];
      assert services == init + [last];
      InCategory(catalogue, init, key) + (if CategoryOf(catalogue, last) == key then [last] else [])
  }

  /** The category keys that occur among the services. */
  ghost predicate IsCategoryOf(catalogue: seq<MainService>, services: seq<SubService>, key: string)
  {
    exists s :: s in services && CategoryOf(catalogue, s) == key
  }

  lemma InCategoryStep(catalogue: seq<MainService>, services: seq<SubService>, i: int, key: string)
    requires 0 <= i < |services|
    ensures InCategory(catalogue, services[..i + 1], key)
      == InCategory(catalogue, services[..i], key) + (if CategoryOf(catalogue, services[i]) == key then [services[i]] else [])
  {
    assert services[..i + 1][..i] == services[..i];
  }

  /** `groups` holds exactly one bucket per category present in `services`, in input order. */
  ghost predicate GroupsOf(catalogue: seq<MainService>, services: seq<SubService>, groups: map<string, seq<SubService>>)
  {
    && (forall key :: key in groups <==> IsCategoryOf(catalogue, services, key))
    && (forall key :: key in groups ==> groups[key] == InCategory(catalogue, services, key))
  }

  lemma EmptyBucket(catalogue: seq<MainService>, services: seq<SubService>, key: string)
    requires !IsCategoryOf(catalogue, services, key)
    ensures InCategory(catalogue, services, key) == []
  {
  }

  /** Pushing the next service onto its bucket keeps the grouping exact. */
  lemma GroupStep(catalogue: seq<MainService>, services: seq<SubService>, i: int,
                  groups: map<string, seq<SubService>>, key: string)
    requires 0 <= i < |services| && key == CategoryOf(catalogue, services[i])
    requires GroupsOf(catalogue, services[..i], groups)
    ensures GroupsOf(catalogue, services[..i + 1],
                     groups[key := (if key in groups then groups[key] else []) + [services[i]]])
  {
    var next := groups[key := (if key in groups then groups[key] else []) + [services[i]]];
    forall k | true
      ensures k in next <==> IsCategoryOf(catalogue, services[..i + 1], k)
      ensures k in next ==> next[k] == InCategory(catalogue, services[..i + 1], k)
    {
      InCategoryStep(catalogue, services, i, k);
      if k == key {
        StepOwnBucket(catalogue, services, i, k);
        if key !in groups {
          EmptyBucket(catalogue, services[..i], key);
        }
      } else {
        StepOtherBucket(catalogue, services, i, k);
      }
    }
  }

  lemma StepOwnBucket(catalogue: seq<MainService>, services: seq<SubService>, i: int, key: string)
    requires 0 <= i < |services| && key == CategoryOf(catalogue, services[i])
    ensures IsCategoryOf(catalogue, services[..i + 1], key)
  {
    assert services[i] in services[..i + 1];
  }

  lemma StepOtherBucket(catalogue: seq<MainService>, services: seq<SubService>, i: int, k: string)
    requires 0 <= i < |services| && k != CategoryOf(catalogue, services[i])
    ensures IsCategoryOf(catalogue, services[..i + 1], k) <==> IsCategoryOf(catalogue, services[..i], k)
  {
    assert services[..i + 1] == services[..i] + [services[i]];
    if IsCategoryOf(catalogue, services[..i + 1], k) {
      var s :| s in services[..i + 1] && CategoryOf(catalogue, s) == k;
      assert s in services[..i];
    }
    if IsCategoryOf(catalogue, services[..i], k) {
      var s :| s in services[..i] && CategoryOf(catalogue, s) == k;
      assert s in services[..i + 1];
    }
  }

  /**
   * `groupServicesByCategory`: the `reduce` pushing each service onto the
   * bucket of its category name, creating the bucket on first use. The
   * source reads the catalogue from `mainServices`; here it is a parameter.
   */
  method GroupServicesByCategory(catalogue: seq<MainService>, services: seq<SubService>)
    returns (groups: map<string, seq<SubService>>)
    ensures forall key :: key in groups <==> IsCategoryOf(catalogue, services, key)
    ensures forall key :: key in groups ==> groups[key] == InCategory(catalogue, services, key)
  {
    groups := map[];
    var i := 0;
    while i < |services|
      invariant 0 <= i <= |services|
      invariant GroupsOf(catalogue, services[..i], groups)
    {
      var service := services[i];
      var key := CategoryName(catalogue, service.mainServiceId);
      GroupStep(catalogue, services, i, groups, key);
      if key !in groups {
        groups := groups[key := []];
      }
      groups := groups[key := groups[key] + [service]];
      i := i + 1;
    }
    assert services[..i] == services;
  }

  /** Every service sits in the bucket of its own category and in no other. */
  lemma ExactlyOneBucket(catalogue: seq<MainService>, services: seq<SubService>, s: SubService, key: string)
    requires s in services
    ensures s in InCategory(catalogue, services, CategoryOf(catalogue, s))
    ensures key != CategoryOf(catalogue, s) ==> s !in InCategory(catalogue, services, key)
  {
  }

  /** A bucket is the input itself when every service shares its category: nothing reordered. */
  lemma {:induction false} OneCategoryKeepsAll(catalogue: seq<MainService>, services: seq<SubService>, key: string)
    requires forall s :: s in services ==> CategoryOf(catalogue, s) == key
    ensures InCategory(catalogue, services, key) == services
  {
    if services != [] {
      var init, last := services[..|services| - 1], services[|services| - 1];
      assert forall s :: s in init ==> s in services;
      OneCategoryKeepsAll(catalogue, init, key);
      assert CategoryOf(catalogue, last) == key;
      JsText.LastSplit(services);
    }
  }

  /** On the catalogue itself, each treatment lands under its category's name. */
  lemma CatalogueBuckets()
    ensures CategoryOf(MainServices, SubServices[0]) == "Threading"
    ensures CategoryOf(MainServices, SubServices[5]) == "Lashes"
    ensures CategoryOf(MainServices, SubService(999, 999, "Unknown", 0, 0)) == ""
  {
    assert SubServices[0].mainServiceId == MainServices[0].id;
    assert SubServices[5].mainServiceId == 300 && MainServices[0].id != 300 && MainServices[1].id != 300;
    assert MainServices[1..][1..] == [Lashes];
    assert CategoryName(MainServices[1..][1..], 300) == "Lashes";
    assert CategoryName(MainServices[1..], 300) == "Lashes";
    assert CategoryName(MainServices, 300) == "Lashes";
    assert MainServices[1..][1..][1..] == [];
  }

  // ---------------------------------------------------------------------
  // The merge loop of updateBookedTimes
  // ---------------------------------------------------------------------

  /** One entry of the fetched list: the artist's name, the start and the end. */
  datatype FetchedAppointment = FetchedAppointment(artist: string, dateTime: Stamp, dateTimeEnd: Stamp)

  /** The API's answer: a success flag and, maybe, the list. */
  datatype AppointmentsResponse = AppointmentsResponse(success: bool, data: Option<seq<FetchedAppointment>>)

  /** The `DateTimeDto` built for a fetched appointment: it starts at its creation time. */
  function AsDto(f: FetchedAppointment): (dto: DateTimeDto)
    ensures dto.dateTime == dto.start == f.dateTime && dto.end == f.dateTimeEnd
  {
    DateTimeDto(f.dateTime, f.dateTime, f.dateTimeEnd)
  }

  /** `find(person => person.name === name)`, as an index from `from` on. */
  function FindByName(people: seq<Artist>, name: string, from: nat := 0): (r: Option<nat>)
    requires from <= |people|
    ensures r.Some? ==> from <= r.value < |people| && people[r.value].name == name
    ensures r.Some? ==> forall j :: from <= j < r.value ==> people[j].name != name
    ensures r.None? ==> forall j :: from <= j < |people| ==> people[j].name != name
    decreases |people| - from
  {
    if from == |people| then None
    else if people[from].name == name then Some(from)
    else FindByName(people, name, from + 1)
  }

  /** The effect of one fetched appointment: appended to its artist unless an equal entry is there. */
  function MergeOne(people: seq<Artist>, f: FetchedAppointment): seq<Artist>
  {
    match FindByName(people, f.artist)
    case None => people
    case Some(i) =>
      if AsDto(f) in people[i].dateTimeDto then people
      else people[i := people[i].(dateTimeDto := people[i].dateTimeDto + [AsDto(f)])]
  }

  /** The `forEach` over the fetched list, in order. */
  function MergeAll(people: seq<Artist>, fetched: seq<FetchedAppointment>): seq<Artist>
  {
    if fetched == [] then people
    else MergeOne(MergeAll(people, fetched[..|fetched| - 1]), fetched[|fetched| - 1])
  }

  /** Only a successful response with data is merged. */
  function MergeResponse(people: seq<Artist>, response: AppointmentsResponse): seq<Artist>
  {
    if response.success && response.data.Some? then MergeAll(people, response.data.value) else people
  }

  /**
   * The merge loop of `updateBookedTimes`: for each fetched appointment, find
   * its artist by name, build the entry and push it unless an entry with the
   * same three fields exists. The artists are updated in place.
   */
  method MergeFetched(people: array<Artist>, response: AppointmentsResponse)
    modifies people
    ensures people[..] == MergeResponse(old(people[..]), response)
  {
    if response.success && response.data.Some? {
      var fetched := response.data.value;
      var i := 0;
      while i < |fetched|
        invariant 0 <= i <= |fetched|
        invariant people[..] == MergeAll(old(people[..]), fetched[..i])
      {
        var appointment := fetched[i];
        assert fetched[..i + 1][..i] == fetched[..i];
        var found := FindByName(people[..], appointment.artist);
        if found.Some? {
          var artist := people[found.value];
          var newAppointment := DateTimeDto(appointment.dateTime, appointment.dateTime, appointment.dateTimeEnd);
          var alreadyBooked := newAppointment in artist.dateTimeDto;
          if !alreadyBooked {
            people[found.value] := artist.(dateTimeDto := artist.dateTimeDto + [newAppointment]);
          }
        }
        i := i + 1;
      }
      assert fetched[..i] == fetched;
    }
  }

  /** `q` is `p` with, at most, entries appended to each artist's list. */
  ghost predicate Extends(q: seq<Artist>, p: seq<Artist>)
  {
    && |q| == |p|
    && (forall i :: 0 <= i < |p| ==> q[i].(dateTimeDto := p[i].dateTimeDto) == p[i])
    && (forall i :: 0 <= i < |p| ==> p[i].dateTimeDto <= q[i].dateTimeDto)
  }

  lemma ExtendsTransitive(r: seq<Artist>, q: seq<Artist>, p: seq<Artist>)
    requires Extends(r, q) && Extends(q, p)
    ensures Extends(r, p)
  {
    forall i | 0 <= i < |p|
      ensures r[i].(dateTimeDto := p[i].dateTimeDto) == p[i]
    {
      assert r[i].(dateTimeDto := q[i].dateTimeDto) == q[i];
    }
  }

  lemma {:induction false} FindByNameOfExtends(q: seq<Artist>, p: seq<Artist>, name: string, from: nat)
    requires Extends(q, p) && from <= |p|
    ensures FindByName(q, name, from) == FindByName(p, name, from)
    decreases |p| - from
  {
    if from < |p| {
      assert q[from].name == q[from].(dateTimeDto := p[from].dateTimeDto).name;
      FindByNameOfExtends(q, p, name, from + 1);
    }
  }

  /** The merge never renames, reorders, drops or rewrites: it only appends entries. */
  lemma {:induction false} MergeAllExtends(people: seq<Artist>, fetched: seq<FetchedAppointment>)
    ensures Extends(MergeAll(people, fetched), people)
  {
    if fetched != [] {
      var q := MergeAll(people, fetched[..|fetched| - 1]);
      MergeAllExtends(people, fetched[..|fetched| - 1]);
      var f := fetched[|fetched| - 1];
      var r := MergeOne(q, f);
      assert Extends(r, q) by {
        match FindByName(q, f.artist)
        case None =>
        case Some(i) =>
          if AsDto(f) !in q[i].dateTimeDto {
            assert q[i].dateTimeDto <= q[i].dateTimeDto + [AsDto(f)];
          }
      }
      ExtendsTransitive(r, q, people);
    }
  }

  /** An artist whose name no fetched appointment carries is left exactly as it was. */
  lemma {:induction false} MergeLeavesOthers(people: seq<Artist>, fetched: seq<FetchedAppointment>, i: int)
    requires 0 <= i < |people|
    requires forall f :: f in fetched ==> f.artist != people[i].name
    ensures |MergeAll(people, fetched)| == |people| && MergeAll(people, fetched)[i] == people[i]
  {
    MergeAllExtends(people, fetched);
    if fetched != [] {
      var init := fetched[..|fetched| - 1];
      assert forall f :: f in init ==> f in fetched;
      MergeLeavesOthers(people, init, i);
      var q := MergeAll(people, init);
      var f := fetched[|fetched| - 1];
      assert f in fetched;
      match FindByName(q, f.artist)
      case None =>
      case Some(j) =>
        assert q[j].name == f.artist;
        assert j != i;
    }
  }

  /**
   * Every fetched appointment whose artist is found ends up in the list of the
   * first artist of that name.
   */
  lemma {:induction false} MergeContains(people: seq<Artist>, fetched: seq<FetchedAppointment>,
                                         f: FetchedAppointment, j: nat)
    requires f in fetched && FindByName(people, f.artist) == Some(j)
    ensures j < |MergeAll(people, fetched)| && AsDto(f) in MergeAll(people, fetched)[j].dateTimeDto
  {
    var init, last := fetched[..|fetched| - 1], fetched[|fetched| - 1];
    var q := MergeAll(people, init);
    MergeAllExtends(people, init);
    FindByNameOfExtends(q, people, f.artist, 0);
    MergeAllExtends(people, fetched);
    var r := MergeAll(people, fetched);
    assert fetched == init + [last];
    if f != last {
      assert f in init;
      MergeContains(people, init, f, j);
      assert Extends(r, q) by {
        MergeOneExtends(q, last);
      }
      assert q[j].dateTimeDto <= r[j].dateTimeDto;
    }
  }

  lemma MergeOneExtends(people: seq<Artist>, f: FetchedAppointment)
    ensures Extends(MergeOne(people, f), people)
  {
    assert [f][..0] == [];
    MergeAllExtends(people, [f]);
  }

  /** Merging what is already merged changes nothing. */
  lemma {:induction false} MergeAbsorbed(q: seq<Artist>, fetched: seq<FetchedAppointment>)
    requires forall f :: f in fetched ==> MergeOne(q, f) == q
    ensures MergeAll(q, fetched) == q
  {
    if fetched != [] {
      var init := fetched[..|fetched| - 1];
      assert forall f :: f in init ==> f in fetched;
      MergeAbsorbed(q, init);
      assert fetched[|fetched| - 1] in fetched;
    }
  }

  /** Merging the same response twice is the same as merging it once. */
  lemma MergeIdempotent(people: seq<Artist>, response: AppointmentsResponse)
    ensures MergeResponse(MergeResponse(people, response), response) == MergeResponse(people, response)
  {
    if response.success && response.data.Some? {
      var fetched := response.data.value;
      var q := MergeAll(people, fetched);
      MergeAllExtends(people, fetched);
      forall f | f in fetched
        ensures MergeOne(q, f) == q
      {
        FindByNameOfExtends(q, people, f.artist, 0);
        match FindByName(people, f.artist)
        case None =>
        case Some(j) => MergeContains(people, fetched, f, j);
      }
      MergeAbsorbed(q, fetched);
    }
  }

  /** No artist's list repeats an entry. */
  ghost predicate NoRepeats(people: seq<Artist>)
  {
    forall i, a, b :: 0 <= i < |people| && 0 <= a < b < |people[i].dateTimeDto|
      ==> people[i].dateTimeDto[a] != people[i].dateTimeDto[b]
  }

  /** The existence check keeps lists free of repeats. */
  lemma {:induction false} MergeKeepsNoRepeats(people: seq<Artist>, fetched: seq<FetchedAppointment>)
    requires NoRepeats(people)
    ensures NoRepeats(MergeAll(people, fetched))
  {
    if fetched != [] {
      var q := MergeAll(people, fetched[..|fetched| - 1]);
      MergeKeepsNoRepeats(people, fetched[..|fetched| - 1]);
      var f := fetched[|fetched| - 1];
      match FindByName(q, f.artist)
      case None =>
      case Some(i) =>
        if AsDto(f) !in q[i].dateTimeDto {
          var r := MergeOne(q, f);
          forall k, a, b | 0 <= k < |r| && 0 <= a < b < |r[k].dateTimeDto|
            ensures r[k].dateTimeDto[a] != r[k].dateTimeDto[b]
          {
            if k == i && b == |q[i].dateTimeDto| {
              assert q[i].dateTimeDto[a] in q[i].dateTimeDto;
            }
          }
        }
    }
  }

  // ---------------------------------------------------------------------
  // generateTimeSlots
  // ---------------------------------------------------------------------

  /** One row of the time picker: start label, end label and whether it can be booked. */
  datatype TimeSlot = TimeSlot(time: string, endTime: string, isAvailable: bool)

  /** A `Date` as minutes since 1970-01-01 00:00 (`getTime()` in minutes). */
  function Instant(s: Stamp): int
  {
    s.day * MinutesPerDay + s.clock
  }

  function NowInstant(now: Now): int
  {
    now.day * MinutesPerDay + now.clock
  }

  /** The three-clause overlap test of `isTimeAvailable`, on instants, with the 10-minute break. */
  predicate HitsAppointment(slot: int, slotEnd: int, a: DateTimeDto)
  {
    var start, breakEnd := Instant(a.start), Instant(a.end) + BreakMinutes;
    (slot >= start && slot < breakEnd) || (slotEnd > start && slotEnd <= breakEnd) || (start >= slot && start < slotEnd)
  }

  /** `isTimeAvailable`: not before now + 2 h (whatever the date), and clear of every appointment. */
  predicate IsTimeAvailable(slot: int, slotEnd: int, appts: seq<DateTimeDto>, now: Now)
  {
    !(slot < NowInstant(now) + LeadMinutes) && !(exists a :: a in appts && HitsAppointment(slot, slotEnd, a))
  }

  /** 30-minute steps for services up to half an hour, hourly steps otherwise. */
  function SlotInterval(duration: nat): (step: nat)
    ensures step == 30 || step == 60
    ensures step >= duration || duration > 30
  {
    if duration <= 30 then 30 else 60
  }

  /** How many steps fit between 09:00 and 21:00. */
  function SlotCount(duration: nat): (n: nat)
    ensures n * SlotInterval(duration) == StoreClose - StoreOpen
    ensures n == (if duration <= 30 then 24 else 12)
  {
    (StoreClose - StoreOpen) / SlotInterval(duration)
  }

  /** The start of the `k`-th slot: on the grid, from 09:00, before 21:00. */
  function SlotStart(duration: nat, k: nat): (t: Clock)
    requires k < SlotCount(duration)
    ensures StoreOpen <= t < StoreClose
    ensures (t - StoreOpen) % SlotInterval(duration) == 0
  {
    var step := SlotInterval(duration);
    assert k * step < 720 by {
      if step == 30 { assert k < 24; } else { assert k < 12; }
    }
    StoreOpen + k * step
  }

  /** The slot `generateTimeSlots` builds for a start `t` on `day`. */
  function SlotAt(day: int, appts: seq<DateTimeDto>, duration: nat, now: Now, t: Clock): TimeSlot
  {
    var slot := day * MinutesPerDay + t;
    var slotEnd := slot + duration;
    var endClock := slotEnd % MinutesPerDay;
    TimeSlot(FormatTime(t / 60, t % 60), FormatTime(endClock / 60, endClock % 60),
             IsTimeAvailable(slot, slotEnd, appts, now))
  }

  /** The slots built so far are the first ones of the day's list. */
  predicate SlotsSoFar(slots: seq<TimeSlot>, day: int, appts: seq<DateTimeDto>, duration: nat, now: Now)
  {
    && |slots| <= SlotCount(duration)
    && forall k :: 0 <= k < |slots| ==> slots[k] == SlotAt(day, appts, duration, now, SlotStart(duration, k))
  }

  lemma SlotsSoFarStep(slots: seq<TimeSlot>, next: TimeSlot, day: int, appts: seq<DateTimeDto>, duration: nat, now: Now)
    requires SlotsSoFar(slots, day, appts, duration, now) && |slots| < SlotCount(duration)
    requires next == SlotAt(day, appts, duration, now, SlotStart(duration, |slots|))
    ensures SlotsSoFar(slots + [next], day, appts, duration, now)
  {
    var more := slots + [next];
    forall k | 0 <= k < |more|
      ensures more[k] == SlotAt(day, appts, duration, now, SlotStart(duration, k))
    {
      if k < |slots| {
        assert more[k] == slots[k];
      }
    }
  }

  /** One pass of the loop body: the labels of start and end, and the availability flag. */
  method BuildSlot(day: int, appointments: seq<DateTimeDto>, duration: nat, now: Now, currentTime: Clock)
    returns (r: TimeSlot)
    ensures r == SlotAt(day, appointments, duration, now, currentTime)
  {
    var slot := day * MinutesPerDay + currentTime;
    var slotEndTime := slot + duration;
    var endClock := slotEndTime % MinutesPerDay;
    var timeString := FormatTime(currentTime / 60, currentTime % 60);
    var endTimeString := FormatTime(endClock / 60, endClock % 60);
    r := TimeSlot(timeString, endTimeString, IsTimeAvailable(slot, slotEndTime, appointments, now));
  }

  /**
   * `generateTimeSlots`: nothing without a date or an artist; otherwise the
   * day's appointments in start order and a loop from 09:00 while before
   * 21:00, one slot per step.
   */
  method GenerateTimeSlots(artist: Option<Artist>, date: Option<int>, duration: nat, now: Now)
    returns (slots: seq<TimeSlot>)
    ensures artist.None? || date.None? ==> slots == []
    ensures artist.Some? && date.Some? ==> |slots| == SlotCount(duration)
    ensures artist.Some? && date.Some? ==>
      forall k :: 0 <= k < |slots| ==>
        slots[k] == SlotAt(date.value, DayAppointments(artist.value.dateTimeDto, date.value), duration, now,
                           SlotStart(duration, k))
  {
    slots := [];
    if date.None? || artist.None? {
      return;
    }
    var day := date.value;
    var appointments := DayAppointments(artist.value.dateTimeDto, day);
    var timeInterval := if duration <= 30 then 30 else 60;
    var currentTime := StoreOpen as int;
    while currentTime < StoreClose
      invariant currentTime == StoreOpen + |slots| * timeInterval
      invariant SlotsSoFar(slots, day, appointments, duration, now)
      decreases StoreClose - currentTime
    {
      assert |slots| < SlotCount(duration);
      assert SlotStart(duration, |slots|) == currentTime;
      var next := BuildSlot(day, appointments, duration, now, currentTime);
      SlotsSoFarStep(slots, next, day, appointments, duration, now);
      slots := slots + [next];
      currentTime := currentTime + timeInterval;
    }
  }

  /**
   * For a proper slot, the three clauses mean the slot meets the appointment
   * extended by its break: the slot is free iff it is late enough and every
   * appointment with its break lies wholly before or after it.
   */
  lemma SlotAvailabilityIff(day: int, appts: seq<DateTimeDto>, duration: nat, now: Now, t: Clock)
    requires duration > 0
    requires forall a :: a in appts ==> Instant(a.start) < Instant(a.end) + BreakMinutes
    ensures var slot := day * MinutesPerDay + t;
      SlotAt(day, appts, duration, now, t).isAvailable
      <==> (&& slot >= NowInstant(now) + LeadMinutes
            && forall a :: a in appts ==>
                 slot + duration <= Instant(a.start) || Instant(a.end) + BreakMinutes <= slot)
  {
  }

  /** The lead rule compares whole instants: on a past day every slot is refused. */
  lemma PastDaySlotsRefused(day: int, appts: seq<DateTimeDto>, duration: nat, now: Now, k: nat)
    requires day < now.day && k < SlotCount(duration)
    ensures !SlotAt(day, appts, duration, now, SlotStart(duration, k)).isAvailable
  {
  }

  /**
   * There is no closing-time test: on a free future day a 90-minute slot at
   * 20:00, which ends at 21:30, is offered, while `isSlotAvailable` refuses it.
   */
  lemma NoClosingTest(artist: Artist, day: int, now: Now)
    requires artist.dateTimeDto == [] && day > now.day
    ensures SlotStart(90, 11) == 1200
    ensures SlotAt(day, DayAppointments(artist.dateTimeDto, day), 90, now, 1200).isAvailable
    ensures !SlotAvailable(1200, ClockAdd(1200, 90), day, Some(artist), 90, now)
  {
  }

  /** A slot's start label, combined with its date, gives back its "HH:MM". */
  lemma SlotLabelRoundTrip(day: int, appts: seq<DateTimeDto>, duration: nat, now: Now, t: Clock)
    ensures CombineDateAndTime(Some(day), SlotAt(day, appts, duration, now, t).time)
      == Success(DateTimeText(day, MinutesToTime(t)))
  {
    var h, m := t / 60, t % 60;
    assert h * 60 + m == t;
    assert MinutesToTime(h * 60 + m) == MinutesToTime(t);
    CombineFormatTimeRoundTrip(day, h, m);
    assert SlotAt(day, appts, duration, now, t).time == FormatTime(h, m);
  }

  /** The hour labels of the constants table are `formatTime` on whole hours. */
  lemma HourLabelIsFormatTime(hour: nat)
    ensures HourLabel(hour) == FormatTime(hour, 0)
  {
  }
}
