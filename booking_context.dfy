/**
 * The booking store of src/context/BookingContext.tsx: the state record,
 * `initialState` and `bookingReducer`, which answers each action with a new
 * record built by spreading the old one.
 */
module BookingContext {

  import opened Wrappers
  import opened Domain

  /** The booking in progress. The date is a day number; times are the picker's labels. */
  datatype BookingState = BookingState(
    selectedServices: seq<SubService>,
    selectedArtist: Option<string>,
    selectedDate: Option<int>,
    selectedTime: Option<string>,
    selectedTimeEnd: Option<string>,
    clientInfo: ClientInfo,
    isLoading: bool,
    error: Option<string>,
    confirmationNumber: Option<string>)

  /** A `Partial<ClientInfo>`: `Some` for each key the object carries. */
  datatype PartialClientInfo = PartialClientInfo(
    name: Option<string>, emailId: Option<string>, phone: Option<string>, message: Option<string>)

  datatype BookingAction =
    | SetServices(services: seq<SubService>)
    | SetArtist(artist: string)
    | SetDateTime(date: int, time: string, endTime: string)
    | SetClientInfo(info: PartialClientInfo)
    | SetLoading(loading: bool)
    | SetError(message: Option<string>)
    | SetConfirmation(confirmationNumber: string)
    | ResetBooking
    /** Any other `type`: the reducer's `default` branch. */
    | Unknown

  const EmptyClientInfo := ClientInfo("", "", "", "")

  /** `initialState`: nothing chosen, no contact details, idle, no error. */
  const InitialState := BookingState([], None, None, None, None, EmptyClientInfo, false, None, None)

  /** `{ ...info, ...partial }`: each key the partial carries wins. */
  function MergeClientInfo(info: ClientInfo, partial: PartialClientInfo): (r: ClientInfo)
    ensures partial.name.Some? ==> r.name == partial.name.value
    ensures partial.name.None? ==> r.name == info.name
    ensures partial.emailId.Some? ==> r.emailId == partial.emailId.value
    ensures partial.emailId.None? ==> r.emailId == info.emailId
    ensures partial.phone.Some? ==> r.phone == partial.phone.value
    ensures partial.phone.None? ==> r.phone == info.phone
    ensures partial.message.Some? ==> r.message == partial.message.value
    ensures partial.message.None? ==> r.message == info.message
  {
    ClientInfo(
      if partial.name.Some? then partial.name.value else info.name,
      if partial.emailId.Some? then partial.emailId.value else info.emailId,
      if partial.phone.Some? then partial.phone.value else info.phone,
      if partial.message.Some? then partial.message.value else info.message)
  }

  /** The date, the start time and the end time are chosen together or not at all. */
  predicate DateTimeTogether(s: BookingState)
  {
    s.selectedDate.Some? == s.selectedTime.Some? && s.selectedTime.Some? == s.selectedTimeEnd.Some?
  }

  /** `bookingReducer`. */
  function BookingReducer(state: BookingState, action: BookingAction): (r: BookingState)
    ensures DateTimeTogether(state) ==> DateTimeTogether(r)
  {
    match action
    case SetServices(services) =>
      state.(selectedServices := services, selectedArtist := None,
             selectedDate := None, selectedTime := None, selectedTimeEnd := None)
    case SetArtist(artist) =>
      state.(selectedArtist := Some(artist), selectedDate := None, selectedTime := None, selectedTimeEnd := None)
    case SetDateTime(date, time, endTime) =>
      state.(selectedDate := Some(date), selectedTime := Some(time), selectedTimeEnd := Some(endTime))
    case SetClientInfo(info) => state.(clientInfo := MergeClientInfo(state.clientInfo, info))
    case SetLoading(loading) => state.(isLoading := loading)
    case SetError(message) => state.(error := message)
    case SetConfirmation(number) => state.(confirmationNumber := Some(number))
    case ResetBooking => InitialState
    case Unknown => state
  }

  /** The fields outside the service-artist-date chain. */
  predicate SameOutsideSelections(a: BookingState, b: BookingState)
  {
    a.clientInfo == b.clientInfo && a.isLoading == b.isLoading
    && a.error == b.error && a.confirmationNumber == b.confirmationNumber
  }

  /** Choosing services clears the artist and the date and time, and nothing outside the chain moves. */
  lemma SetServicesClearsChain(state: BookingState, services: seq<SubService>)
    ensures var r := BookingReducer(state, SetServices(services));
      && r.selectedServices == services
      && r.selectedArtist.None? && r.selectedDate.None? && r.selectedTime.None? && r.selectedTimeEnd.None?
      && SameOutsideSelections(r, state)
  {
  }

  /** Choosing an artist clears the date and time but keeps the services. */
  lemma SetArtistClearsDateTime(state: BookingState, artist: string)
    ensures var r := BookingReducer(state, SetArtist(artist));
      && r.selectedArtist == Some(artist) && r.selectedServices == state.selectedServices
      && r.selectedDate.None? && r.selectedTime.None? && r.selectedTimeEnd.None?
      && SameOutsideSelections(r, state)
  {
  }

  /** Choosing a date and time touches those three fields only. */
  lemma SetDateTimeOnlyDateTime(state: BookingState, date: int, time: string, endTime: string)
    ensures var r := BookingReducer(state, SetDateTime(date, time, endTime));
      && r.selectedDate == Some(date) && r.selectedTime == Some(time) && r.selectedTimeEnd == Some(endTime)
      && r.selectedServices == state.selectedServices
      && r.selectedArtist == state.selectedArtist && SameOutsideSelections(r, state)
  {
  }

  /** Merging contact details: an empty partial changes nothing, and merging twice is merging once. */
  lemma MergeClientInfoLaws(info: ClientInfo, p: PartialClientInfo, q: PartialClientInfo)
    ensures MergeClientInfo(info, PartialClientInfo(None, None, None, None)) == info
    ensures MergeClientInfo(MergeClientInfo(info, p), p) == MergeClientInfo(info, p)
    ensures MergeClientInfo(MergeClientInfo(info, p), q) == MergeClientInfo(info, Overlay(p, q))
  {
  }

  /** The partial that applies `p` then `q`. */
  function Overlay(p: PartialClientInfo, q: PartialClientInfo): PartialClientInfo
  {
    PartialClientInfo(
      if q.name.Some? then q.name else p.name,
      if q.emailId.Some? then q.emailId else p.emailId,
      if q.phone.Some? then q.phone else p.phone,
      if q.message.Some? then q.message else p.message)
  }

  /** The three flag-like actions each change their own field and nothing else. */
  lemma SingleFieldActions(state: BookingState, loading: bool, message: Option<string>, number: string)
    ensures BookingReducer(state, SetLoading(loading)) == state.(isLoading := loading)
    ensures BookingReducer(state, SetError(message)) == state.(error := message)
    ensures BookingReducer(state, SetConfirmation(number)) == state.(confirmationNumber := Some(number))
  {
  }

  /** Resetting forgets everything, from any state, so a second reset changes nothing. */
  lemma ResetIdempotent(state: BookingState)
    ensures BookingReducer(state, ResetBooking) == InitialState
    ensures BookingReducer(BookingReducer(state, ResetBooking), ResetBooking) == BookingReducer(state, ResetBooking)
    ensures DateTimeTogether(BookingReducer(state, ResetBooking))
  {
  }

  /** An action the reducer does not know leaves the state as it is. */
  lemma UnknownActionIgnored(state: BookingState)
    ensures BookingReducer(state, Unknown) == state
  {
  }

  /** Dispatching a list of actions in order. */
  function Dispatch(state: BookingState, actions: seq<BookingAction>): BookingState
    decreases actions
  {
    if actions == [] then state else Dispatch(BookingReducer(state, actions[0]), actions[1..])
  }

  /** From the initial state, date and time stay chosen together whatever is dispatched. */
  lemma {:induction false} DispatchKeepsDateTimeTogether(state: BookingState, actions: seq<BookingAction>)
    requires DateTimeTogether(state)
    ensures DateTimeTogether(Dispatch(state, actions))
    decreases actions
  {
    if actions != [] {
      DispatchKeepsDateTimeTogether(BookingReducer(state, actions[0]), actions[1..]);
    }
  }

  /**
   * Once the services change, a date chosen earlier is gone unless a later
   * SET_DATE_TIME chose one again.
   */
  lemma {:induction false} NoStaleDate(state: BookingState, services: seq<SubService>, rest: seq<BookingAction>)
    requires forall a :: a in rest ==> !a.SetDateTime?
    ensures Dispatch(state, [SetServices(services)] + rest).selectedDate.None?
  {
    var s := BookingReducer(state, SetServices(services));
    assert ([SetServices(services)] + rest)[1..] == rest;
    NoDateWithoutSetDateTime(s, rest);
  }

  lemma {:induction false} NoDateWithoutSetDateTime(state: BookingState, actions: seq<BookingAction>)
    requires state.selectedDate.None?
    requires forall a :: a in actions ==> !a.SetDateTime?
    ensures Dispatch(state, actions).selectedDate.None?
    decreases actions
  {
    if actions != [] {
      assert actions[0] in actions;
      assert forall a :: a in actions[1..] ==> a in actions;
      NoDateWithoutSetDateTime(BookingReducer(state, actions[0]), actions[1..]);
    }
  }
}
